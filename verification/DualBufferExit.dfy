/** The exit of the NeuPIMs queue. */
module DualBufferExit {
  // With slack left and PIM work queued, the selection asserts that no normal entry needs PIM_PRECHARGE. When a cycle
  // trips that assertion, and which runs never do.

  import opened Commands
  import opened Banks
  import opened Channels
  import opened Queues
  import opened NeuPims
  import opened DualBuffer

  // ---- one cycle ----

  ghost predicate NeedsPimPrecharge(cfg: Config, ch: Channel, clk: int, req: Command)
    requires ch.Valid(cfg)
  {
    cfg.Addressed(req) && var answer := GetReadyCommand(cfg, ch, req, clk);
    answer.Ready? && answer.cmd.kind == PimPrecharge
  }

  /** An entry nothing holds back needs PIM_PRECHARGE while PIM work waits and slack is left. */
  ghost predicate Trips(cfg: Config, q: NQueue, ch: Channel, clk: int, c: Command)
    requires ch.Valid(cfg)
  {
    q.remainSlack > 0 && q.pimQueue != [] && !HeldBack(q, c) && NeedsPimPrecharge(cfg, ch, clk, c)
  }

  /** The selection goes on to the next entry: this one is held back, not ready, a precharge or write that has to wait,
      or too long for the slack left. */
  predicate PassedOver(cfg: Config, structure: Structure, q: NQueue, ch: Channel, clk: int, queue: seq<Command>,
                       idx: int, n: int)
    requires ch.Valid(cfg) && ValidNormal(cfg, structure, queue, idx) && 0 <= n < |queue|
  {
    HeldBack(q, queue[n]) ||
      match GetReadyCommand(cfg, ch, queue[n], clk)
      case Abort => false
      case NotReady => true
      case Ready(c) =>
        || (c.kind == Precharge && !ArbitratePrecharge(cfg, ch, queue, n))
        || (c.IsWrite() && HasRWDependency(queue, n))
        || (q.remainSlack > 0 && q.pimQueue != [] && c.kind == Precharge && q.remainSlack <= cfg.tRP + cfg.tRCDWR)
        || (q.remainSlack > 0 && q.pimQueue != [] && c.kind == Activate && q.remainSlack <= cfg.tRCDWR)
  }

  /** The first entry from `n` on that is not passed over trips the assertion. */
  ghost predicate ExitsIn(cfg: Config, structure: Structure, q: NQueue, ch: Channel, clk: int, queue: seq<Command>,
                          idx: int, n: int)
    requires ch.Valid(cfg) && ValidNormal(cfg, structure, queue, idx) && 0 <= n <= |queue|
  {
    exists m | n <= m < |queue| :: Trips(cfg, q, ch, clk, queue[m])
      && forall l | n <= l < m :: PassedOver(cfg, structure, q, ch, clk, queue, idx, l)
  }

  ghost predicate AllPassedOver(cfg: Config, structure: Structure, q: NQueue, ch: Channel, clk: int,
                                queue: seq<Command>, idx: int, n: int)
    requires ch.Valid(cfg) && ValidNormal(cfg, structure, queue, idx) && 0 <= n <= |queue|
  {
    forall l | n <= l < |queue| :: PassedOver(cfg, structure, q, ch, clk, queue, idx, l)
  }

  lemma NormalEntryAnswers(cfg: Config, structure: Structure, ch: Channel, clk: int, c: Command, idx: int)
    requires ch.Valid(cfg) && NormalEntry(cfg, structure, c, idx)
    ensures cfg.Addressed(c)
    ensures GetReadyCommand(cfg, ch, c, clk) != Abort
    ensures var answer := GetReadyCommand(cfg, ch, c, clk);
      answer.Ready? ==> answer.cmd.kind in {c.kind, Activate, Precharge, PimPrecharge}
  {
    QueriesNeverAbort(cfg, ch, c, clk);
    var b := ch.banks[IdOf(c.addr)];
    if b.GetReady(c, clk).Ready? { RaisedKinds(b, c, clk); }
  }

  lemma {:induction false} FirstReadyExactly(cfg: Config, structure: Structure, q: NQueue, ch: Channel, clk: int,
                                             queue: seq<Command>, idx: int, n: int)
    requires ch.Valid(cfg) && ValidNormal(cfg, structure, queue, idx) && 0 <= n <= |queue|
    ensures FirstReady(cfg, structure, q, ch, clk, queue, idx, n).0 == Abort
       <==> ExitsIn(cfg, structure, q, ch, clk, queue, idx, n)
    ensures FirstReady(cfg, structure, q, ch, clk, queue, idx, n).0 == NotReady
       <==> AllPassedOver(cfg, structure, q, ch, clk, queue, idx, n)
    decreases |queue| - n
  {
    if n < |queue| {
      hide GetReadyCommand;
      NormalEntryAnswers(cfg, structure, ch, clk, queue[n], idx);
      FirstReadyExactly(cfg, structure, q, ch, clk, queue, idx, n + 1);
      FirstReadyStep(cfg, structure, q, ch, clk, queue, idx, n);
      ExitsInStep(cfg, structure, q, ch, clk, queue, idx, n);
    }
  }

  lemma FirstReadyStep(cfg: Config, structure: Structure, q: NQueue, ch: Channel, clk: int, queue: seq<Command>,
                       idx: int, n: int)
    requires ch.Valid(cfg) && ValidNormal(cfg, structure, queue, idx) && 0 <= n < |queue|
    ensures var answer := FirstReady(cfg, structure, q, ch, clk, queue, idx, n).0;
      if PassedOver(cfg, structure, q, ch, clk, queue, idx, n)
      then answer == FirstReady(cfg, structure, q, ch, clk, queue, idx, n + 1).0
      else answer != NotReady && (answer == Abort <==> Trips(cfg, q, ch, clk, queue[n]))
  {
    hide GetReadyCommand, ArbitratePrecharge, HasRWDependency;
    NormalEntryAnswers(cfg, structure, ch, clk, queue[n], idx);
  }

  lemma ExitsInStep(cfg: Config, structure: Structure, q: NQueue, ch: Channel, clk: int, queue: seq<Command>, idx: int,
                    n: int)
    requires ch.Valid(cfg) && ValidNormal(cfg, structure, queue, idx) && 0 <= n < |queue|
    ensures PassedOver(cfg, structure, q, ch, clk, queue, idx, n) ==> !Trips(cfg, q, ch, clk, queue[n])
    ensures ExitsIn(cfg, structure, q, ch, clk, queue, idx, n)
       <==> if PassedOver(cfg, structure, q, ch, clk, queue, idx, n)
            then ExitsIn(cfg, structure, q, ch, clk, queue, idx, n + 1) else Trips(cfg, q, ch, clk, queue[n])
  {
    hide GetReadyCommand;
    if !PassedOver(cfg, structure, q, ch, clk, queue, idx, n) {
      if ExitsIn(cfg, structure, q, ch, clk, queue, idx, n) { assert Trips(cfg, q, ch, clk, queue[n]); }
    } else if ExitsIn(cfg, structure, q, ch, clk, queue, idx, n + 1) {
      var m :| n + 1 <= m < |queue| && Trips(cfg, q, ch, clk, queue[m])
        && forall l | n + 1 <= l < m :: PassedOver(cfg, structure, q, ch, clk, queue, idx, l);
      assert forall l | n <= l < m :: PassedOver(cfg, structure, q, ch, clk, queue, idx, l);
    }
  }

  predicate Withheld(q: NQueue, i: int) { q.isInRef && i in q.refQIndices }

  /** The round exits at turn `t`: that queue does, and the queues of the turns before are withheld or offer nothing. */
  ghost predicate ExitsAtTurn(cfg: Config, structure: Structure, q: NQueue, ch: Channel, clk: int, t: int)
    requires ch.Valid(cfg) && ValidQueue(cfg, structure, q) && 1 <= t <= |q.queues|
  {
    var i := Turn(q.queueIdx, |q.queues|, t);
    && !Withheld(q, i) && ExitsIn(cfg, structure, q, ch, clk, q.queues[i], i, 0)
    && forall u | 1 <= u < t :: var j := Turn(q.queueIdx, |q.queues|, u);
         Withheld(q, j) || AllPassedOver(cfg, structure, q, ch, clk, q.queues[j], j, 0)
  }

  /** What the round does at its next turn. */
  lemma TurnStep(cfg: Config, structure: Structure, q: NQueue, ch: Channel, clk: int, left: nat)
    requires ch.Valid(cfg) && ValidQueue(cfg, structure, q) && left > 0
    ensures var i := NextIndex(q.queueIdx, |q.queues|);
      var q1 := q.(queueIdx := i);
      && ValidQueue(cfg, structure, q1)
      && (Withheld(q, i) || AllPassedOver(cfg, structure, q, ch, clk, q.queues[i], i, 0) ==>
            RoundRobin(cfg, structure, q, ch, clk, left) == RoundRobin(cfg, structure, q1, ch, clk, left - 1))
      && (!Withheld(q, i) && ExitsIn(cfg, structure, q, ch, clk, q.queues[i], i, 0) ==>
            RoundRobin(cfg, structure, q, ch, clk, left).answer == Abort
            && !AllPassedOver(cfg, structure, q, ch, clk, q.queues[i], i, 0))
      && (!Withheld(q, i) && !ExitsIn(cfg, structure, q, ch, clk, q.queues[i], i, 0)
          && !AllPassedOver(cfg, structure, q, ch, clk, q.queues[i], i, 0) ==>
            RoundRobin(cfg, structure, q, ch, clk, left).answer.Ready?)
  {
    hide FirstReady;
    var i := NextIndex(q.queueIdx, |q.queues|);
    FirstReadyExactly(cfg, structure, q.(queueIdx := i), ch, clk, q.queues[i], i, 0);
    IndexIsIrrelevant(cfg, structure, q, i, ch, clk, i);
    hide ExitsIn, AllPassedOver;
  }

  lemma IndexIsIrrelevant(cfg: Config, structure: Structure, q: NQueue, x: int, ch: Channel, clk: int, i: int)
    requires ch.Valid(cfg) && ValidQueue(cfg, structure, q) && 0 <= x < |q.queues| && 0 <= i < |q.queues|
    ensures ExitsIn(cfg, structure, q.(queueIdx := x), ch, clk, q.queues[i], i, 0)
       <==> ExitsIn(cfg, structure, q, ch, clk, q.queues[i], i, 0)
    ensures AllPassedOver(cfg, structure, q.(queueIdx := x), ch, clk, q.queues[i], i, 0)
       <==> AllPassedOver(cfg, structure, q, ch, clk, q.queues[i], i, 0)
  {
    hide GetReadyCommand, ArbitratePrecharge, HasRWDependency, NeedsPimPrecharge;
    var q1 := q.(queueIdx := x);
    assert forall m | 0 <= m < |q.queues[i]| ::
        PassedOver(cfg, structure, q1, ch, clk, q.queues[i], i, m)
          == PassedOver(cfg, structure, q, ch, clk, q.queues[i], i, m);
    assert forall m | 0 <= m < |q.queues[i]| ::
      Trips(cfg, q1, ch, clk, q.queues[i][m]) == Trips(cfg, q, ch, clk, q.queues[i][m]);
    hide PassedOver, Trips;
  }

  /** The round with `left` turns ahead exits exactly if one of those turns does. */
  lemma {:induction false} RoundExactly(cfg: Config, structure: Structure, q: NQueue, ch: Channel, clk: int, left: nat)
    requires ch.Valid(cfg) && ValidQueue(cfg, structure, q) && left <= |q.queues|
    ensures RoundRobin(cfg, structure, q, ch, clk, left).answer == Abort
       <==> exists t | 1 <= t <= left :: ExitsAtTurn(cfg, structure, q, ch, clk, t)
    decreases left
  {
    hide ServeQueue, ExitsIn, AllPassedOver, ExitsAtTurn;
    if left > 0 {
      hide RoundRobin;
      TurnStep(cfg, structure, q, ch, clk, left);
      var i := NextIndex(q.queueIdx, |q.queues|);
      RoundExactly(cfg, structure, q.(queueIdx := i), ch, clk, left - 1);
      FirstTurn(cfg, structure, q, ch, clk);
      var q1 := q.(queueIdx := i);
      if t :| 1 <= t <= left - 1 && ExitsAtTurn(cfg, structure, q1, ch, clk, t) {
        LaterTurn(cfg, structure, q, ch, clk, t + 1);
      }
      forall t | 2 <= t <= left && ExitsAtTurn(cfg, structure, q, ch, clk, t)
        ensures RoundRobin(cfg, structure, q, ch, clk, left).answer == Abort
      {
        LaterTurn(cfg, structure, q, ch, clk, t);
        assert ExitsAtTurn(cfg, structure, q1, ch, clk, t - 1);
      }
    }
  }

  lemma FirstTurn(cfg: Config, structure: Structure, q: NQueue, ch: Channel, clk: int)
    requires ch.Valid(cfg) && ValidQueue(cfg, structure, q)
    ensures var i := NextIndex(q.queueIdx, |q.queues|);
      ExitsAtTurn(cfg, structure, q, ch, clk, 1)
      <==> !Withheld(q, i) && ExitsIn(cfg, structure, q, ch, clk, q.queues[i], i, 0)
  {
    hide ExitsIn, AllPassedOver;
  }

  lemma LaterTurn(cfg: Config, structure: Structure, q: NQueue, ch: Channel, clk: int, t: int)
    requires ch.Valid(cfg) && ValidQueue(cfg, structure, q) && 2 <= t <= |q.queues|
    ensures var i := NextIndex(q.queueIdx, |q.queues|);
      ExitsAtTurn(cfg, structure, q, ch, clk, t)
      <==> (Withheld(q, i) || AllPassedOver(cfg, structure, q, ch, clk, q.queues[i], i, 0))
           && ExitsAtTurn(cfg, structure, q.(queueIdx := i), ch, clk, t - 1)
  {
    hide ExitsIn, AllPassedOver;
    var n, i := |q.queues|, NextIndex(q.queueIdx, |q.queues|);
    var q1 := q.(queueIdx := i);
    assert Turn(q.queueIdx, n, 1) == i;
    assert Turn(i, n, t - 1) == Turn(q.queueIdx, n, t);
    forall u | 1 <= u < t
      ensures var j := Turn(q.queueIdx, n, u);
        AllPassedOver(cfg, structure, q1, ch, clk, q.queues[j], j, 0)
        <==> AllPassedOver(cfg, structure, q, ch, clk, q.queues[j], j, 0)
    {
      IndexIsIrrelevant(cfg, structure, q, i, ch, clk, Turn(q.queueIdx, n, u));
    }
    IndexIsIrrelevant(cfg, structure, q, i, ch, clk, Turn(q.queueIdx, n, t));
    if ExitsAtTurn(cfg, structure, q, ch, clk, t) {
      forall u | 1 <= u < t - 1
        ensures var j := Turn(i, n, u);
          Withheld(q1, j) || AllPassedOver(cfg, structure, q1, ch, clk, q.queues[j], j, 0)
      {
        assert Turn(i, n, u) == Turn(q.queueIdx, n, u + 1);
      }
    } else if ExitsAtTurn(cfg, structure, q1, ch, clk, t - 1)
           && (Withheld(q, i) || AllPassedOver(cfg, structure, q, ch, clk, q.queues[i], i, 0)) {
      forall u | 1 <= u < t
        ensures var j := Turn(q.queueIdx, n, u);
          Withheld(q, j) || AllPassedOver(cfg, structure, q, ch, clk, q.queues[j], j, 0)
      {
        if u > 1 { assert Turn(q.queueIdx, n, u) == Turn(i, n, u - 1); }
      }
    }
  }

  // ---- which cycles reach the round ----

  /** The queue state with which a cycle starts its round over the normal queues, if it gets there. */
  datatype RoundStart = NoRound | Round(q: NQueue)

  /** The PIM head answered neither with a command nor with too little slack, or was not asked. */
  function StartAfterPim(cfg: Config, structure: Structure, q: NQueue, ch: Channel, clk: int, remain: int,
                         latency: int): RoundStart
    requires ch.Valid(cfg) && ValidQueue(cfg, structure, q)
  {
    if !q.skipPim && q.pimQueue != [] && !q.isInRef then
      var s := ReadyInPim(cfg, q, ch, clk, remain, latency);
      if s.answer == NotReady && s.q.remainSlack >= 10 then Round(s.q) else NoRound
    else Round(q)
  }

  /** A pending refresh, once latched, must have nothing to issue. */
  function StartOfRound(cfg: Config, structure: Structure, q: NQueue, ch: Channel, clk: int, remain: int,
                        latency: int): RoundStart
    requires ch.Valid(cfg) && ValidQueue(cfg, structure, q)
  {
    if ch.refreshQ == [] then StartAfterPim(cfg, structure, q, ch, clk, remain, latency)
    else
      var s := FinishRefresh(cfg, structure, q, ch, clk);
      if s.answer == NotReady then StartAfterPim(cfg, structure, s.q, ch, clk, remain, latency) else NoRound
  }

  lemma StartIsValid(cfg: Config, structure: Structure, q: NQueue, ch: Channel, clk: int, remain: int, latency: int)
    requires ch.Valid(cfg) && ValidQueue(cfg, structure, q)
    ensures var start := StartOfRound(cfg, structure, q, ch, clk, remain, latency);
      start.Round? ==> ValidQueue(cfg, structure, start.q)
  {
    hide GetReadyCommand;
  }

  lemma AfterPimExactly(cfg: Config, structure: Structure, q: NQueue, ch: Channel, clk: int, remain: int, latency: int)
    requires ch.Valid(cfg) && ValidQueue(cfg, structure, q)
    ensures var start := StartAfterPim(cfg, structure, q, ch, clk, remain, latency);
      && (start.Round? ==> ValidQueue(cfg, structure, start.q))
      && (GetCommandToIssue(cfg, structure, q, ch, clk, remain, latency).answer == Abort
          <==> start.Round? && RoundRobin(cfg, structure, start.q, ch, clk, |start.q.queues|).answer == Abort)
  {
    hide RoundRobin, GetReadyCommand;
    if !q.skipPim && q.pimQueue != [] && !q.isInRef {
      assert PimEntry(cfg, q.pimQueue[0]);
      QueriesNeverAbort(cfg, ch, q.pimQueue[0], clk);
    }
  }

  /** A cycle trips the assertion exactly when it reaches the round over the normal queues and, at the first turn that
      offers anything, the first entry not passed over finds its row in the PIM buffer with slack left and PIM work
      queued. */
  lemma ExitExactly(cfg: Config, structure: Structure, w: World, a: Action)
    requires ValidWorld(cfg, structure, w) && a.Cycle?
    ensures var ch := Arrived(cfg, w.ch, a.arrival);
      var start := StartOfRound(cfg, structure, w.q, ch, w.clk, a.remainToRefresh, a.latency);
      && (start.Round? ==> ValidQueue(cfg, structure, start.q))
      && (Selected(cfg, structure, w, a) == Abort
          <==> start.Round? && exists t | 1 <= t <= |start.q.queues| ::
            ExitsAtTurn(cfg, structure, start.q, ch, w.clk, t))
  {
    hide GetCommandToIssue, GetReadyCommand, ExitsAtTurn, StartAfterPim;
    var ch := Arrived(cfg, w.ch, a.arrival);
    ArrivedIsValid(cfg, w.ch, a.arrival);
    var q := w.q;
    if ch.refreshQ != [] {
      assert ch.refreshQ[0].IsRefresh() && cfg.Addressed(ch.refreshQ[0]);
      QueriesNeverAbort(cfg, ch, ch.refreshQ[0], w.clk);
      q := FinishRefresh(cfg, structure, w.q, ch, w.clk).q;
    }
    AfterPimExactly(cfg, structure, q, ch, w.clk, a.remainToRefresh, a.latency);
    var start := StartAfterPim(cfg, structure, q, ch, w.clk, a.remainToRefresh, a.latency);
    if start.Round? { RoundExactly(cfg, structure, start.q, ch, w.clk, |start.q.queues|); }
  }
}
