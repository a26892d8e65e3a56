/** When dual issue loses a read or write. */
module DualIssueLimits {
  // A second read or write selected in a cycle leaves its queue before it is decided whether it issues. Some run loses
  // one exactly when a scope the channel has lacks a positive delay between some pair of read and write.

  import opened Commands
  import opened Banks
  import opened Channels
  import opened Queues
  import opened DramQueue
  import Runs = ChannelRuns
  import Progress = RefreshProgress

  // ---- one bank, one channel ----

  /** A type that was free at `clk` is delayed beyond it exactly by a positive entry. */
  lemma {:induction false} DelayedEarliest(b: Bank, delays: Delays, kind: CommandType, clk: int)
    requires b.Earliest(kind) <= clk
    ensures Delayed(b, delays, clk).Earliest(kind) <= clk <==> !PositiveFor(delays, kind)
    decreases |delays|
  {
    if delays != [] {
      var b1 := b.UpdateTiming(delays[0].0, clk + delays[0].1);
      assert delays == [delays[0]] + delays[1..];
      if b1.Earliest(kind) <= clk {
        DelayedEarliest(b1, delays[1..], kind, clk);
      } else {
        StaysLate(b1, delays[1..], kind, clk);
      }
    }
  }

  lemma {:induction false} StaysLate(b: Bank, delays: Delays, kind: CommandType, clk: int)
    requires b.Earliest(kind) > clk
    ensures Delayed(b, delays, clk).Earliest(kind) > clk
    decreases |delays|
  {
    if delays != [] { StaysLate(b.UpdateTiming(delays[0].0, clk + delays[0].1), delays[1..], kind, clk); }
  }

  /** A read or write certified before another one issues is still certified in the same cycle exactly when the scope
      relating the two holds no positive delay for it. */
  lemma StillCertifiedExactly(cfg: Config, table: TimingTable, ch: Channel, first: Command, req: Command, clk: int)
    requires ch.Valid(cfg) && cfg.Addressed(first) && first.IsReadWrite() && !UpdateAborts(ch, first)
    requires cfg.Addressed(req) && req.IsReadWrite() && GetReadyCommand(cfg, ch, req, clk) == Ready(req)
    ensures Issue(cfg, table, ch, first, clk).Valid(cfg)
    ensures GetReadyCommand(cfg, Issue(cfg, table, ch, first, clk), req, clk) == Ready(req)
       <==> !PositiveFor(Entries(cfg, table, first, IdOf(req.addr)), req.kind)
  {
    hide Issue, Entries, Delayed, Bank.GetReady, UpdateAborts, PositiveFor;
    var id := IdOf(req.addr);
    assert id in ch.banks;
    IssuedBank(cfg, table, ch, first, clk, id);
    OpenRowNeeded(ch.banks[id], req, clk);
    OpenRowNeeded(Issue(cfg, table, ch, first, clk).banks[id], req, clk);
  }

  /** A bank goes ahead with a read or write exactly when its row is open and its time has come. */
  lemma OpenRowNeeded(b: Bank, req: Command, clk: int)
    requires req.IsReadWrite()
    ensures b.GetReady(req, clk) == Ready(req.(isLastComps := false, numComps := 0))
       <==> b.normal == Open(req.Row()) && b.Earliest(req.kind) <= clk
    ensures b.GetReady(req, clk) == Ready(req) ==> !req.isLastComps && req.numComps == 0
  {
  }

  /** What issuing a read or write does to a bank that could have gone ahead with one of type `kind`. */
  lemma IssuedBank(cfg: Config, table: TimingTable, ch: Channel, c: Command, clk: int, id: BankId)
    requires ch.Valid(cfg) && cfg.Addressed(c) && c.IsReadWrite() && !UpdateAborts(ch, c) && id in ch.banks
    ensures Issue(cfg, table, ch, c, clk).Valid(cfg)
    ensures var b, b' := ch.banks[id], Issue(cfg, table, ch, c, clk).banks[id];
      && b'.normal == b.normal && b'.pim == b.pim
      && forall kind :: b.Earliest(kind) <= clk ==>
           (b'.Earliest(kind) <= clk <==> !PositiveFor(Entries(cfg, table, c, id), kind))
  {
    Runs.IssueRows(cfg, table, ch, c, clk);
    var b, mid := ch.banks[id], UpdateState(ch, c).banks[id];
    assert mid.timing == b.timing;
    assert Issue(cfg, table, ch, c, clk).banks[id] == Delayed(mid, Entries(cfg, table, c, id), clk);
    hide Issue, Entries, Delayed;
    forall kind | b.Earliest(kind) <= clk
      ensures Delayed(mid, Entries(cfg, table, c, id), clk).Earliest(kind) <= clk
        <==> !PositiveFor(Entries(cfg, table, c, id), kind)
    {
      DelayedEarliest(mid, Entries(cfg, table, c, id), kind, clk);
    }
  }

  // ---- the round over the queues ----

  predicate Serving(cfg: Config, structure: Structure, q: DQueue, ch: Channel, clk: int, i: int, answer: Answer)
    requires ch.Valid(cfg) && 0 <= i < |q.queues| && ValidEntries(cfg, structure, q.queues[i], i)
  {
    FirstReady(cfg, structure, ch, clk, q.queues[i], i, 0) == answer
  }

  lemma RoundStep(cfg: Config, structure: Structure, q: DQueue, ch: Channel, clk: int, left: nat)
    requires ch.Valid(cfg) && ValidQueue(cfg, structure, q) && !q.isInRef && left > 0
    ensures var i := NextIndex(q.queueIdx, |q.queues|);
      && 0 <= i < |q.queues|
      && RoundRobin(cfg, structure, q, ch, clk, left)
         == if Serving(cfg, structure, q, ch, clk, i, NotReady)
            then RoundRobin(cfg, structure, q.(queueIdx := i), ch, clk, left - 1)
            else ServeQueue(cfg, structure, q.(queueIdx := i), ch, clk)
  {
    hide FirstReady;
  }

  lemma RoundEnds(cfg: Config, structure: Structure, q: DQueue, ch: Channel, clk: int)
    requires ch.Valid(cfg) && ValidQueue(cfg, structure, q)
    ensures RoundRobin(cfg, structure, q, ch, clk, 0) == Selection(NotReady, q)
  {
  }

  /** Queues with nothing ready are passed over. */
  lemma {:induction false} RoundSkips(cfg: Config, structure: Structure, q: DQueue, ch: Channel, clk: int, left: nat,
                                      k: nat)
    requires ch.Valid(cfg) && ValidQueue(cfg, structure, q) && !q.isInRef && k <= left <= |q.queues|
    requires forall t | 1 <= t <= k :: Serving(cfg, structure, q, ch, clk, Turn(q.queueIdx, |q.queues|, t), NotReady)
    ensures RoundRobin(cfg, structure, q, ch, clk, left)
         == RoundRobin(cfg, structure, q.(queueIdx := Turn(q.queueIdx, |q.queues|, k)), ch, clk, left - k)
    decreases k
  {
    hide RoundRobin, FirstReady, ServeQueue;
    if k > 0 {
      var n := |q.queues|;
      var q1 := q.(queueIdx := NextIndex(q.queueIdx, n));
      assert q1.queueIdx == Turn(q.queueIdx, n, 1);
      RoundStep(cfg, structure, q, ch, clk, left);
      forall t | 1 <= t <= k - 1
        ensures Serving(cfg, structure, q1, ch, clk, Turn(q1.queueIdx, n, t), NotReady)
      {
        assert Turn(q1.queueIdx, n, t) == Turn(q.queueIdx, n, t + 1);
      }
      RoundSkips(cfg, structure, q1, ch, clk, left - 1, k - 1);
      assert Turn(q1.queueIdx, n, k - 1) == Turn(q.queueIdx, n, k);
    } else {
      assert q.(queueIdx := Turn(q.queueIdx, |q.queues|, 0)) == q;
    }
  }

  /** How many turns from `idx` until `i` is served. */
  function Distance(idx: int, i: int, count: int): int { if i > idx then i - idx else i - idx + count }

  predicate EmptyBut(q: DQueue, i: int) { forall j | 0 <= j < |q.queues| && j != i :: q.queues[j] == [] }

  /** With one queue in use, the round selects what that queue offers. */
  lemma OneQueueRound(cfg: Config, structure: Structure, q: DQueue, ch: Channel, clk: int, i: int)
    requires ch.Valid(cfg) && ValidQueue(cfg, structure, q) && !q.isInRef && 0 <= i < |q.queues| && EmptyBut(q, i)
    ensures var s := ServeQueue(cfg, structure, q.(queueIdx := i), ch, clk);
      GetCommandToIssue(cfg, structure, q, ch, clk) == if s.answer == NotReady then Selection(NotReady, q) else s
  {
    hide RoundRobin;
    var n, d := |q.queues|, Distance(q.queueIdx, i, |q.queues|);
    forall t | 1 <= t <= n && t != d
      ensures Serving(cfg, structure, q, ch, clk, Turn(q.queueIdx, n, t), NotReady)
    {
      assert q.queues[Turn(q.queueIdx, n, t)] == [];
    }
    assert Turn(q.queueIdx, n, d) == i && Turn(q.queueIdx, n, n) == q.queueIdx;
    if ServeQueue(cfg, structure, q.(queueIdx := i), ch, clk).answer == NotReady {
      assert Serving(cfg, structure, q, ch, clk, i, NotReady);
      RoundSkips(cfg, structure, q, ch, clk, n, n);
      assert q.(queueIdx := q.queueIdx) == q;
      RoundEnds(cfg, structure, q, ch, clk);
    } else {
      RoundSkips(cfg, structure, q, ch, clk, n, d - 1);
      RoundStep(cfg, structure, q.(queueIdx := Turn(q.queueIdx, n, d - 1)), ch, clk, n - (d - 1));
      assert NextIndex(Turn(q.queueIdx, n, d - 1), n) == i;
    }
  }

  /** With two queues in use, the nearer one in the rotation goes first. */
  lemma TwoQueueRound(cfg: Config, structure: Structure, q: DQueue, ch: Channel, clk: int, a: int, b: int)
    requires ch.Valid(cfg) && ValidQueue(cfg, structure, q) && !q.isInRef
    requires 0 <= a < |q.queues| && 0 <= b < |q.queues| && a != b
    requires forall j | 0 <= j < |q.queues| && j != a && j != b :: q.queues[j] == []
    requires Distance(q.queueIdx, a, |q.queues|) < Distance(q.queueIdx, b, |q.queues|)
    ensures var s, t := ServeQueue(cfg, structure, q.(queueIdx := a), ch, clk),
      ServeQueue(cfg, structure, q.(queueIdx := b), ch, clk);
      GetCommandToIssue(cfg, structure, q, ch, clk)
      == if s.answer != NotReady then s else if t.answer != NotReady then t else Selection(NotReady, q)
  {
    hide RoundRobin, FirstReady;
    var n, d, e := |q.queues|, Distance(q.queueIdx, a, |q.queues|), Distance(q.queueIdx, b, |q.queues|);
    ServingIs(cfg, structure, q.(queueIdx := a), ch, clk);
    ServingIs(cfg, structure, q.(queueIdx := b), ch, clk);
    forall t | 1 <= t <= n && t != d && t != e
      ensures Serving(cfg, structure, q, ch, clk, Turn(q.queueIdx, n, t), NotReady)
    {
      EmptyIsUnready(cfg, structure, q, ch, clk, Turn(q.queueIdx, n, t));
    }
    assert Turn(q.queueIdx, n, d) == a && Turn(q.queueIdx, n, e) == b && Turn(q.queueIdx, n, n) == q.queueIdx;
    if ServeQueue(cfg, structure, q.(queueIdx := a), ch, clk).answer != NotReady {
      ServedAtTurn(cfg, structure, q, ch, clk, d);
    } else if ServeQueue(cfg, structure, q.(queueIdx := b), ch, clk).answer != NotReady {
      ServedAtTurn(cfg, structure, q, ch, clk, e);
    } else {
      RoundSkips(cfg, structure, q, ch, clk, n, n);
      assert q.(queueIdx := q.queueIdx) == q;
      RoundEnds(cfg, structure, q, ch, clk);
    }
  }

  /** The first turn with something ready decides the round. */
  lemma ServedAtTurn(cfg: Config, structure: Structure, q: DQueue, ch: Channel, clk: int, k: int)
    requires ch.Valid(cfg) && ValidQueue(cfg, structure, q) && !q.isInRef && 1 <= k <= |q.queues|
    requires forall t | 1 <= t < k :: Serving(cfg, structure, q, ch, clk, Turn(q.queueIdx, |q.queues|, t), NotReady)
    requires !Serving(cfg, structure, q, ch, clk, Turn(q.queueIdx, |q.queues|, k), NotReady)
    ensures GetCommandToIssue(cfg, structure, q, ch, clk)
         == ServeQueue(cfg, structure, q.(queueIdx := Turn(q.queueIdx, |q.queues|, k)), ch, clk)
  {
    hide RoundRobin, FirstReady, ServeQueue;
    var n := |q.queues|;
    var q1 := q.(queueIdx := Turn(q.queueIdx, n, k - 1));
    RoundSkips(cfg, structure, q, ch, clk, n, k - 1);
    RoundStep(cfg, structure, q1, ch, clk, n - (k - 1));
    assert NextIndex(q1.queueIdx, n) == Turn(q.queueIdx, n, k);
    assert q1.(queueIdx := Turn(q.queueIdx, n, k)) == q.(queueIdx := Turn(q.queueIdx, n, k));
  }

  /** The head of a queue is served if it is ready for anything but a precharge. */
  lemma HeadServed(cfg: Config, structure: Structure, q: DQueue, ch: Channel, clk: int, i: int)
    requires ch.Valid(cfg) && ValidQueue(cfg, structure, q) && 0 <= i < |q.queues| && q.queues[i] != []
    ensures cfg.Addressed(q.queues[i][0])
    ensures var answer := GetReadyCommand(cfg, ch, q.queues[i][0], clk);
      answer.Ready? && answer.cmd.kind != Precharge ==>
        ServeQueue(cfg, structure, q.(queueIdx := i), ch, clk) ==
          Selection(answer, q.(queueIdx := i,
                               queues := if answer.cmd.IsReadWrite()
                                         then q.queues[i := Erased(q.queues[i], answer.cmd)] else q.queues))
    ensures |q.queues[i]| == 1 && GetReadyCommand(cfg, ch, q.queues[i][0], clk).NotReady? ==>
      ServeQueue(cfg, structure, q.(queueIdx := i), ch, clk).answer == NotReady
  {
    assert Entry(cfg, structure, q.queues[i][0], i);
    if |q.queues[i]| == 1 { assert FirstReady(cfg, structure, ch, clk, q.queues[i], i, 1) == NotReady; }
  }

  // ---- a cycle with two commands ready ----

  /** Two commands wait and could both issue; `second`'s queue was the last one served. */
  ghost predicate Pair(cfg: Config, structure: Structure, q: DQueue, ch: Channel, clk: int, first: Command,
                       second: Command)
    requires ch.Valid(cfg) && ValidQueue(cfg, structure, q)
  {
    var a, b := QueueIndex(cfg, structure, first.addr), QueueIndex(cfg, structure, second.addr);
    && 0 <= a < |q.queues| && 0 <= b < |q.queues| && q.queueIdx == b && !q.isInRef
    && (forall j | 0 <= j < |q.queues| && j != a && j != b :: q.queues[j] == [])
    && (if a == b then q.queues[a] == [first, second] else q.queues[a] == [first] && q.queues[b] == [second])
    && first.hexAddr != second.hexAddr
    && cfg.Addressed(first) && GetReadyCommand(cfg, ch, first, clk) == Ready(first)
    && cfg.Addressed(second) && GetReadyCommand(cfg, ch, second, clk) == Ready(second)
    && first.IsReadWrite() && second.IsReadWrite()
  }

  /** The queue the pair leaves when `first` is taken out. */
  function WithoutFirst(cfg: Config, structure: Structure, q: DQueue, first: Command): DQueue
    requires 0 <= QueueIndex(cfg, structure, first.addr) < |q.queues|
  {
    var a := QueueIndex(cfg, structure, first.addr);
    q.(queueIdx := a, queues := q.queues[a := Erased(q.queues[a], first)])
  }

  lemma FirstOfPair(cfg: Config, structure: Structure, q: DQueue, ch: Channel, clk: int, first: Command,
                    second: Command)
    requires ch.Valid(cfg) && ValidQueue(cfg, structure, q) && Pair(cfg, structure, q, ch, clk, first, second)
    ensures GetCommandToIssue(cfg, structure, q, ch, clk)
         == Selection(Ready(first), WithoutFirst(cfg, structure, q, first))
  {
    hide RoundRobin, FirstReady, GetReadyCommand, Erased;
    var n, a := |q.queues|, QueueIndex(cfg, structure, first.addr);
    var d := Distance(q.queueIdx, a, n);
    forall t | 1 <= t <= d - 1
      ensures Serving(cfg, structure, q, ch, clk, Turn(q.queueIdx, n, t), NotReady)
    {
      var j := Turn(q.queueIdx, n, t);
      assert j != a && j != q.queueIdx;
      EmptyIsUnready(cfg, structure, q, ch, clk, j);
    }
    HeadServed(cfg, structure, q, ch, clk, a);
    ServingIs(cfg, structure, q.(queueIdx := a), ch, clk);
    assert Turn(q.queueIdx, n, d) == a;
    ServedAtTurn(cfg, structure, q, ch, clk, d);
  }

  lemma EmptyIsUnready(cfg: Config, structure: Structure, q: DQueue, ch: Channel, clk: int, j: int)
    requires ch.Valid(cfg) && ValidQueue(cfg, structure, q) && 0 <= j < |q.queues| && q.queues[j] == []
    ensures Serving(cfg, structure, q, ch, clk, j, NotReady)
  {
  }

  lemma ServingIs(cfg: Config, structure: Structure, q: DQueue, ch: Channel, clk: int)
    requires ch.Valid(cfg) && ValidQueue(cfg, structure, q)
    ensures Serving(cfg, structure, q, ch, clk, q.queueIdx, ServeQueue(cfg, structure, q, ch, clk).answer)
  {
  }

  /** The first of the pair issues, and the second is lost exactly when the scope relating the two holds no positive
      delay for it. */
  lemma SecondIsDroppedExactly(cfg: Config, table: TimingTable, structure: Structure, q: DQueue, ch: Channel, clk: int,
                               first: Command, second: Command)
    requires ch.Valid(cfg) && ValidQueue(cfg, structure, q) && ch.refreshQ == []
    requires Pair(cfg, structure, q, ch, clk, first, second)
    ensures var r := RunCycle(cfg, table, structure, true, q, ch, clk);
      && r.first == Ready(first)
      && (Drops(r) <==> !PositiveFor(Entries(cfg, table, first, IdOf(second.addr)), second.kind))
      && (Drops(r) ==> r.second == Ready(second))
  {
    hide RoundRobin, FirstReady, GetReadyCommand, Issue, Entries;
    FirstIsIssuable(cfg, table, structure, q, ch, clk);
    FirstOfPair(cfg, structure, q, ch, clk, first, second);
    var ch1, q1 := Issue(cfg, table, ch, first, clk), WithoutFirst(cfg, structure, q, first);
    StillCertifiedExactly(cfg, table, ch, first, second, clk);
    var b := QueueIndex(cfg, structure, second.addr);
    assert q1.queues[b] == [second] && EmptyBut(q1, b);
    OneQueueRound(cfg, structure, q1, ch1, clk, b);
    HeadServed(cfg, structure, q1, ch1, clk, b);
    RowStaysOpen(cfg, table, ch, first, second, clk);
  }

  /** After the first issues, the second is ready or not ready: its row is still open. */
  lemma RowStaysOpen(cfg: Config, table: TimingTable, ch: Channel, first: Command, second: Command, clk: int)
    requires ch.Valid(cfg) && cfg.Addressed(first) && first.IsReadWrite() && !UpdateAborts(ch, first)
    requires cfg.Addressed(second) && second.IsReadWrite() && GetReadyCommand(cfg, ch, second, clk) == Ready(second)
    requires Issue(cfg, table, ch, first, clk).Valid(cfg)
    ensures GetReadyCommand(cfg, Issue(cfg, table, ch, first, clk), second, clk) in {Ready(second), NotReady}
  {
    hide Issue, UpdateAborts, PositiveFor;
    var id := IdOf(second.addr);
    assert id in ch.banks;
    IssuedBank(cfg, table, ch, first, clk, id);
    OpenRowNeeded(ch.banks[id], second, clk);
  }
}
