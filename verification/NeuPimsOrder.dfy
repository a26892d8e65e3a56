/** Which entry of the NeuPIMs queue goes first. */
module NeuPimsOrder {
  // The round over the normal queues takes the first entry that is ready, that neither the reserved row nor a GWRITE
  // holds back, that nothing in its queue makes wait, and that the slack covers.

  import opened Commands
  import opened Banks
  import opened Channels
  import opened Queues
  import opened NeuPims
  import Order = QueueOrder

  /** What holds normal entries back besides their own queue. */
  datatype Hold = Hold(reservedRow: int, isGwriting: bool, gwriteTarget: BankId, slack: int, pimWaits: bool)

  function HoldOf(q: NQueue): Hold {
    Hold(q.reservedRow, q.isGwriting, IdOf(q.gwriteTarget), q.remainSlack, q.pimQueue != [])
  }

  // ---- one entry ----

  /** The answer to entry `n` may be taken. While PIM work is queued and slack is left, a precharge needs slack for
      itself and the activation after it, an activation for itself. */
  predicate Free(cfg: Config, h: Hold, ch: Channel, queue: seq<Command>, n: int, c: Command)
    requires 0 <= n < |queue| && IdOf(queue[n].addr) in ch.banks
  {
    && queue[n].Row() != h.reservedRow
    && (h.isGwriting ==> IdOf(queue[n].addr) != h.gwriteTarget)
    && Order.Free(ch, queue, n, c)
    && (h.slack > 0 && h.pimWaits ==>
          && (c.kind == Precharge ==> cfg.tRP + cfg.tRCDWR < h.slack)
          && (c.kind == Activate ==> cfg.tRCDWR < h.slack))
  }

  /** The answer trips the assertion that only entries themselves, precharges and activations are taken with slack
      left. */
  predicate Exits(h: Hold, entry: Command, c: Command) {
    h.slack > 0 && h.pimWaits && c.kind !in {Precharge, Activate, entry.kind}
  }

  lemma SameRank(cfg: Config, structure: Structure, queue: seq<Command>, idx: int, m: int, n: int)
    requires cfg.Valid() && ValidNormal(cfg, structure, queue, idx) && 0 <= m < |queue| && 0 <= n < |queue|
    ensures cfg.Has(IdOf(queue[m].addr)) && queue[m].addr.rank == queue[n].addr.rank && queue[m].IsReadWrite()
  {
    assert NormalEntry(cfg, structure, queue[m], idx) && NormalEntry(cfg, structure, queue[n], idx);
    IndexInRange(cfg, structure, queue[m].addr);
    IndexInRange(cfg, structure, queue[n].addr);
  }

  lemma PrechargesOpenRow(cfg: Config, structure: Structure, ch: Channel, clk: int, c: Command, idx: int)
    requires ch.Valid(cfg) && NormalEntry(cfg, structure, c, idx)
    ensures cfg.Addressed(c) && IdOf(c.addr) in ch.banks && GetReadyCommand(cfg, ch, c, clk) != Abort
    ensures var answer := GetReadyCommand(cfg, ch, c, clk);
      answer.Ready? && answer.cmd.kind == Precharge ==> ch.banks[IdOf(c.addr)].normal.Open?
  {
    QueriesNeverAbort(cfg, ch, c, clk);
  }

  /** Arbitration and read-write dependency of the queue, spelled out. */
  lemma FreeOfQueue(cfg: Config, structure: Structure, ch: Channel, clk: int, queue: seq<Command>, idx: int, n: int)
    requires ch.Valid(cfg) && ValidNormal(cfg, structure, queue, idx) && 0 <= n < |queue|
    requires cfg.Addressed(queue[n]) && GetReadyCommand(cfg, ch, queue[n], clk).Ready?
    ensures var c := GetReadyCommand(cfg, ch, queue[n], clk).cmd;
      && IdOf(queue[n].addr) in ch.banks
      && (Order.Free(ch, queue, n, c)
          <==> (c.kind == Precharge ==> ArbitratePrecharge(cfg, ch, queue, n))
               && (c.IsWrite() ==> !HasRWDependency(queue, n)))
  {
    PrechargesOpenRow(cfg, structure, ch, clk, queue[n], idx);
    hide GetReadyCommand, NormalEntry;
    forall m | 0 <= m < |queue|
      ensures cfg.Has(IdOf(queue[m].addr)) && queue[m].addr.rank == queue[n].addr.rank && queue[m].IsReadWrite()
    {
      SameRank(cfg, structure, queue, idx, m, n);
    }
  }

  // ---- one queue ----

  /** Entry `n` is ready as `c` and nothing makes it wait. */
  predicate Goes(cfg: Config, h: Hold, ch: Channel, clk: int, queue: seq<Command>, n: int, c: Command)
    requires ch.Valid(cfg) && 0 <= n < |queue| && cfg.Addressed(queue[n]) && cfg.Has(IdOf(queue[n].addr))
  {
    GetReadyCommand(cfg, ch, queue[n], clk) == Ready(c) && Free(cfg, h, ch, queue, n, c)
  }

  /** Entry `n` has to wait. */
  predicate Stays(cfg: Config, h: Hold, ch: Channel, clk: int, queue: seq<Command>, n: int)
    requires ch.Valid(cfg) && 0 <= n < |queue| && cfg.Addressed(queue[n]) && cfg.Has(IdOf(queue[n].addr))
  {
    var answer := GetReadyCommand(cfg, ch, queue[n], clk);
    answer.Ready? ==> !Free(cfg, h, ch, queue, n, answer.cmd)
  }

  ghost predicate AllStay(cfg: Config, structure: Structure, h: Hold, ch: Channel, clk: int, queue: seq<Command>,
                          idx: int, from: int, to: int)
    requires ch.Valid(cfg) && ValidNormal(cfg, structure, queue, idx) && 0 <= from <= to <= |queue|
  {
    forall n | from <= n < to :: Stays(cfg, h, ch, clk, queue, n)
  }

  /** What the selection says of one entry. */
  lemma EntryStep(cfg: Config, structure: Structure, q: NQueue, ch: Channel, clk: int, queue: seq<Command>, idx: int,
                  n: int)
    requires ch.Valid(cfg) && ValidNormal(cfg, structure, queue, idx) && 0 <= n < |queue|
    ensures cfg.Addressed(queue[n]) && cfg.Has(IdOf(queue[n].addr))
    ensures var answer := FirstReady(cfg, structure, q, ch, clk, queue, idx, n).0;
      if Stays(cfg, HoldOf(q), ch, clk, queue, n) then
        answer == FirstReady(cfg, structure, q, ch, clk, queue, idx, n + 1).0
      else
        && GetReadyCommand(cfg, ch, queue[n], clk).Ready?
        && var c := GetReadyCommand(cfg, ch, queue[n], clk).cmd;
           answer == if Exits(HoldOf(q), queue[n], c) then Abort else Ready(c)
  {
    PrechargesOpenRow(cfg, structure, ch, clk, queue[n], idx);
    assert NormalEntry(cfg, structure, queue[n], idx);
    if GetReadyCommand(cfg, ch, queue[n], clk).Ready? { FreeOfQueue(cfg, structure, ch, clk, queue, idx, n); }
    hide GetReadyCommand, ArbitratePrecharge, HasRWDependency, Order.Free, NormalEntry;
  }

  lemma {:induction false} FirstGoes(cfg: Config, structure: Structure, q: NQueue, ch: Channel, clk: int,
                                     queue: seq<Command>, idx: int, from: int) returns (n: int)
    requires ch.Valid(cfg) && ValidNormal(cfg, structure, queue, idx) && 0 <= from <= |queue|
    ensures var answer := FirstReady(cfg, structure, q, ch, clk, queue, idx, from).0;
      && from <= n <= |queue| && AllStay(cfg, structure, HoldOf(q), ch, clk, queue, idx, from, n)
      && (answer.NotReady? <==> n == |queue|)
      && (answer.Ready? ==>
          Goes(cfg, HoldOf(q), ch, clk, queue, n, answer.cmd) && !Exits(HoldOf(q), queue[n], answer.cmd))
      && (answer.Abort? ==> exists c :: Goes(cfg, HoldOf(q), ch, clk, queue, n, c) && Exits(HoldOf(q), queue[n], c))
    decreases |queue| - from
  {
    hide GetReadyCommand, FirstReady, Free, Exits, NormalEntry;
    n := from;
    if from < |queue| {
      EntryStep(cfg, structure, q, ch, clk, queue, idx, from);
      if Stays(cfg, HoldOf(q), ch, clk, queue, from) {
        n := FirstGoes(cfg, structure, q, ch, clk, queue, idx, from + 1);
      } else {
        assert Goes(cfg, HoldOf(q), ch, clk, queue, from, GetReadyCommand(cfg, ch, queue[from], clk).cmd);
      }
    } else {
      NothingIsReady(cfg, structure, q, ch, clk, queue, idx);
    }
  }

  lemma NothingIsReady(cfg: Config, structure: Structure, q: NQueue, ch: Channel, clk: int, queue: seq<Command>,
                       idx: int)
    requires ch.Valid(cfg) && ValidNormal(cfg, structure, queue, idx)
    ensures FirstReady(cfg, structure, q, ch, clk, queue, idx, |queue|).0 == NotReady
  {
  }

  // ---- the round ----

  predicate Withheld(q: NQueue, i: int) { q.isInRef && i in q.refQIndices }

  lemma QueueIsValid(cfg: Config, structure: Structure, q: NQueue, i: int)
    requires ValidQueue(cfg, structure, q) && 0 <= i < |q.queues|
    ensures ValidNormal(cfg, structure, q.queues[i], i)
  {
  }

  /** Queue `i` is held back by a refresh or all its entries wait. */
  ghost predicate Silent(cfg: Config, structure: Structure, q: NQueue, ch: Channel, clk: int, i: int)
    requires ch.Valid(cfg) && ValidQueue(cfg, structure, q) && 0 <= i < |q.queues|
  {
    Withheld(q, i) || (
      QueueIsValid(cfg, structure, q, i);
      AllStay(cfg, structure, HoldOf(q), ch, clk, q.queues[i], i, 0, |q.queues[i]|))
  }

  ghost predicate SilentTurns(cfg: Config, structure: Structure, q: NQueue, ch: Channel, clk: int, t: int)
    requires ch.Valid(cfg) && ValidQueue(cfg, structure, q) && t <= |q.queues|
  {
    forall u | 1 <= u <= t :: Silent(cfg, structure, q, ch, clk, Turn(q.queueIdx, |q.queues|, u))
  }

  /** The answer comes from entry `n` of the queue of turn `t`, the first in both that goes; a read or write leaves, and
      nothing else of the queue changes but the slack. */
  ghost predicate FirstFit(cfg: Config, structure: Structure, q: NQueue, ch: Channel, clk: int, s: Selection, t: int,
                           n: int)
    requires ch.Valid(cfg) && ValidQueue(cfg, structure, q) && 1 <= t <= |q.queues|
  {
    var i := Turn(q.queueIdx, |q.queues|, t);
    QueueIsValid(cfg, structure, q, i);
    && SilentTurns(cfg, structure, q, ch, clk, t - 1)
    && !Withheld(q, i) && 0 <= n < |q.queues[i]|
    && AllStay(cfg, structure, HoldOf(q), ch, clk, q.queues[i], i, 0, n)
    && (s.answer.Abort? ==> exists c ::
        Goes(cfg, HoldOf(q), ch, clk, q.queues[i], n, c) && Exits(HoldOf(q), q.queues[i][n], c))
    && (s.answer.Ready? ==>
          && Goes(cfg, HoldOf(q), ch, clk, q.queues[i], n, s.answer.cmd)
          && !Exits(HoldOf(q), q.queues[i][n], s.answer.cmd)
          && |s.q.queues| == |q.queues|
          && s.q == q.(queueIdx := i, remainSlack := s.q.remainSlack, queues := q.queues[i := s.q.queues[i]])
          && (if s.answer.cmd.kind in {Read, Write} then
                exists k :: Order.LeavesFrom(q.queues[i], q.queues[i][n], s.q.queues[i], k)
              else s.q.queues[i] == q.queues[i]))
  }

  // A turn of the round and the rounds of later turns.

  lemma TurnFits(cfg: Config, structure: Structure, q: NQueue, ch: Channel, clk: int) returns (n: int)
    requires ch.Valid(cfg) && ValidQueue(cfg, structure, q)
    ensures var i := NextIndex(q.queueIdx, |q.queues|);
      && ValidQueue(cfg, structure, q.(queueIdx := i))
      && var s := ServeQueue(cfg, structure, q.(queueIdx := i), ch, clk);
      && (!s.answer.NotReady? && !Withheld(q, i) ==> FirstFit(cfg, structure, q, ch, clk, s, 1, n))
      && (s.answer.NotReady? ==> Silent(cfg, structure, q, ch, clk, i) && s.q == q.(queueIdx := i))
      && Turn(q.queueIdx, |q.queues|, 1) == i
  {
    hide GetReadyCommand, FirstReady, Free, Exits, NumQueues, NormalEntry;
    var i := NextIndex(q.queueIdx, |q.queues|);
    var q1 := q.(queueIdx := i);
    QueueIsValid(cfg, structure, q, i);
    n := FirstGoes(cfg, structure, q1, ch, clk, q.queues[i], i, 0);
    var s := ServeQueue(cfg, structure, q1, ch, clk);
    UnreadyKeepsSlack(cfg, structure, q1, ch, clk, q.queues[i], i, 0);
    assert HoldOf(q1) == HoldOf(q);
    if s.answer.Ready? && s.answer.cmd.kind in {Read, Write} {
      ColumnIsEntry(cfg, structure, ch, clk, q.queues[i][n], i);
      var k := Order.OneLeaves(q.queues[i], q.queues[i][n], n);
    }
  }

  lemma ColumnIsEntry(cfg: Config, structure: Structure, ch: Channel, clk: int, c: Command, idx: int)
    requires ch.Valid(cfg) && NormalEntry(cfg, structure, c, idx) && GetReadyCommand(cfg, ch, c, clk).Ready?
    ensures GetReadyCommand(cfg, ch, c, clk).cmd.kind in {Read, Write} ==> GetReadyCommand(cfg, ch, c, clk).cmd == c
  {
  }

  lemma {:induction false} RoundFits(cfg: Config, structure: Structure, q: NQueue, ch: Channel, clk: int, left: nat)
    returns (t: int, n: int)
    requires ch.Valid(cfg) && ValidQueue(cfg, structure, q) && left <= |q.queues|
    ensures var s := RoundRobin(cfg, structure, q, ch, clk, left);
      && (!s.answer.NotReady? ==> 1 <= t <= left && FirstFit(cfg, structure, q, ch, clk, s, t, n))
      && (s.answer.NotReady? ==> SilentTurns(cfg, structure, q, ch, clk, left))
      && (s.answer.NotReady? ==> s.q == q.(queueIdx := Turn(q.queueIdx, |q.queues|, left)))
    decreases left
  {
    hide NumQueues, NormalEntry, FirstReady, GetReadyCommand, Free, ServeQueue, AllStay, Goes, Exits, Order.LeavesFrom;
    t, n := 1, 0;
    if left > 0 {
      n := TurnFits(cfg, structure, q, ch, clk);
      var i := NextIndex(q.queueIdx, |q.queues|);
      var q1 := q.(queueIdx := i);
      if Withheld(q, i) || ServeQueue(cfg, structure, q1, ch, clk).answer.NotReady? {
        t, n := RoundFits(cfg, structure, q1, ch, clk, left - 1);
        t := t + 1;
        assert HoldOf(q1) == HoldOf(q);
        forall u | 1 <= u < |q.queues| ensures Turn(i, |q.queues|, u) == Turn(q.queueIdx, |q.queues|, u + 1) {}
        SilentLater(cfg, structure, q, ch, clk, left - 1);
        SilentLater(cfg, structure, q, ch, clk, if 2 <= t <= left then t - 2 else 0);
      }
    }
  }

  lemma SilentLater(cfg: Config, structure: Structure, q: NQueue, ch: Channel, clk: int, t: int)
    requires ch.Valid(cfg) && ValidQueue(cfg, structure, q) && t < |q.queues|
    requires Silent(cfg, structure, q, ch, clk, NextIndex(q.queueIdx, |q.queues|))
    ensures SilentTurns(cfg, structure, q.(queueIdx := NextIndex(q.queueIdx, |q.queues|)), ch, clk, t) ==>
      SilentTurns(cfg, structure, q, ch, clk, t + 1)
  {
    hide AllStay, NormalEntry, NumQueues;
    var i := NextIndex(q.queueIdx, |q.queues|);
    var q1 := q.(queueIdx := i);
    assert HoldOf(q1) == HoldOf(q);
    if SilentTurns(cfg, structure, q1, ch, clk, t) {
      forall u | 1 <= u <= t + 1 ensures Silent(cfg, structure, q, ch, clk, Turn(q.queueIdx, |q.queues|, u)) {
        if u > 1 {
          assert Turn(i, |q.queues|, u - 1) == Turn(q.queueIdx, |q.queues|, u);
          assert Silent(cfg, structure, q1, ch, clk, Turn(i, |q.queues|, u - 1));
        }
      }
    }
  }

  /** The round takes, or exits at, the first entry that goes in the first queue that has one; it finds nothing exactly
      when every queue is silent. */
  lemma RoundIsFirstFit(cfg: Config, structure: Structure, q: NQueue, ch: Channel, clk: int) returns (t: int, n: int)
    requires ch.Valid(cfg) && ValidQueue(cfg, structure, q)
    ensures var s := RoundRobin(cfg, structure, q, ch, clk, |q.queues|);
      && (!s.answer.NotReady? ==> 1 <= t <= |q.queues| && FirstFit(cfg, structure, q, ch, clk, s, t, n))
      && (s.answer.NotReady? <==> forall i | 0 <= i < |q.queues| :: Silent(cfg, structure, q, ch, clk, i))
      && (s.answer.NotReady? ==> s.q == q)
  {
    hide RoundRobin, AllStay, Goes, Exits, Order.LeavesFrom, NumQueues, NormalEntry;
    t, n := RoundFits(cfg, structure, q, ch, clk, |q.queues|);
    var s := RoundRobin(cfg, structure, q, ch, clk, |q.queues|);
    if !s.answer.NotReady? {
      var i := Turn(q.queueIdx, |q.queues|, t);
      QueueIsValid(cfg, structure, q, i);
      GoerIsNotSilent(cfg, structure, q, ch, clk, i, n, s);
    } else {
      forall i | 0 <= i < |q.queues| ensures Silent(cfg, structure, q, ch, clk, i) {
        assert Turn(q.queueIdx, |q.queues|, Order.TurnsUntil(q.queueIdx, i, |q.queues|)) == i;
      }
    }
  }

  lemma GoerIsNotSilent(cfg: Config, structure: Structure, q: NQueue, ch: Channel, clk: int, i: int, n: int,
                        s: Selection)
    requires ch.Valid(cfg) && ValidQueue(cfg, structure, q) && 0 <= i < |q.queues| && 0 <= n < |q.queues[i]|
    requires !Withheld(q, i) && NormalEntry(cfg, structure, q.queues[i][n], i)
    requires exists c :: Goes(cfg, HoldOf(q), ch, clk, q.queues[i], n, c)
    ensures !Silent(cfg, structure, q, ch, clk, i)
  {
    assert !Stays(cfg, HoldOf(q), ch, clk, q.queues[i], n);
  }

  // ---- while a refresh waits ----

  /** If a refresh is latched, it withholds exactly the queues of the rank. */
  ghost predicate HoldsRank(cfg: Config, structure: Structure, q: NQueue, rank: int)
    requires cfg.Valid()
  {
    q.isInRef ==> forall i | 0 <= i < |q.queues| :: i in q.refQIndices <==> RankOf(cfg, structure, i) == rank
  }

  lemma LatchHoldsRank(cfg: Config, structure: Structure, q: NQueue, ch: Channel, clk: int)
    requires ch.Valid(cfg) && ch.refreshQ != [] && ValidQueue(cfg, structure, q)
    requires q.isInRef || q.refQIndices == {}
    requires HoldsRank(cfg, structure, q, ch.refreshQ[0].Rank())
    ensures var s := FinishRefresh(cfg, structure, q, ch, clk);
      && ValidQueue(cfg, structure, s.q) && s.answer != Abort
      && s.q.queues == q.queues && s.q.pimQueue == q.pimQueue && s.q.queueIdx == q.queueIdx
      && (s.answer.Ready? && s.answer.cmd.kind == Refresh ==>
            !s.q.isInRef && s.q.refQIndices == {} && !s.q.skipPim && s.q.remainSlack == 0 && s.q.reservedRow == -1)
      && (!(s.answer.Ready? && s.answer.cmd.kind == Refresh) ==>
            && s.q.isInRef && HoldsRank(cfg, structure, s.q, ch.refreshQ[0].Rank())
            && s.q.skipPim == q.skipPim && s.q.remainSlack == q.remainSlack && s.q.reservedRow == q.reservedRow)
  {
    hide GetReadyCommand, QueueIndex;
    var ref := ch.refreshQ[0];
    assert cfg.Addressed(ref) && Queueable(ref);
    QueriesNeverAbort(cfg, ch, ref, clk);
    RankQueues(cfg, structure);
  }

  lemma RankQueues(cfg: Config, structure: Structure)
    requires cfg.Valid()
    ensures forall i, rank | 0 <= i < NumQueues(cfg, structure) ::
      i in RefQIndices(cfg, structure, rank) <==> RankOf(cfg, structure, i) == rank
  {
  }

  /** An answer of the round serves a rank no latched refresh holds. */
  lemma HeldRankIsLeftAlone(cfg: Config, structure: Structure, q: NQueue, ch: Channel, clk: int, rank: int)
    requires ch.Valid(cfg) && ValidQueue(cfg, structure, q) && q.isInRef && HoldsRank(cfg, structure, q, rank)
    ensures var s := RoundRobin(cfg, structure, q, ch, clk, |q.queues|);
      && s.q.isInRef && HoldsRank(cfg, structure, s.q, rank) && s.q.pimQueue == q.pimQueue
      && (s.answer.Ready? ==> s.answer.cmd.Rank() != rank)
  {
    hide GetReadyCommand, QueueIndex, NumQueues, RankOf, RoundRobin, AllStay, SilentTurns, Free, Exits, Silent;
    var t, n := RoundIsFirstFit(cfg, structure, q, ch, clk);
    var s := RoundRobin(cfg, structure, q, ch, clk, |q.queues|);
    if s.answer.Abort? {
      ExitKeepsHold(cfg, structure, q, ch, clk, |q.queues|);
    } else if s.answer.Ready? {
      var i := Turn(q.queueIdx, |q.queues|, t);
      assert NormalEntry(cfg, structure, q.queues[i][n], i);
      IndexInRange(cfg, structure, q.queues[i][n].addr);
      RaisedFor(cfg, structure, ch, q.queues[i][n], clk, i);
    }
  }

  lemma {:induction false} ExitKeepsHold(cfg: Config, structure: Structure, q: NQueue, ch: Channel, clk: int, left: nat)
    requires ch.Valid(cfg) && ValidQueue(cfg, structure, q)
    ensures var s := RoundRobin(cfg, structure, q, ch, clk, left);
      && s.q.isInRef == q.isInRef && s.q.refQIndices == q.refQIndices && s.q.pimQueue == q.pimQueue
      && |s.q.queues| == |q.queues|
    decreases left
  {
    hide FirstReady, NumQueues, NormalEntry;
    if left > 0 {
      ExitKeepsHold(cfg, structure, q.(queueIdx := NextIndex(q.queueIdx, |q.queues|)), ch, clk, left - 1);
    }
  }

  /** While a refresh waits nothing else serves its rank and no PIM work starts; once it issues, everything it held, the
      reserved row, the slack and the skipping of PIM work are released. */
  lemma RefreshHoldsItsRank(cfg: Config, structure: Structure, q: NQueue, ch: Channel, clk: int, remain: int,
                            latency: int)
    requires ch.Valid(cfg) && ch.refreshQ != [] && ValidQueue(cfg, structure, q)
    requires q.isInRef || q.refQIndices == {}
    requires HoldsRank(cfg, structure, q, ch.refreshQ[0].Rank())
    ensures var rank, s := ch.refreshQ[0].Rank(), CycleSelection(cfg, structure, q, ch, clk, remain, latency);
      var asked := GetReadyCommand(cfg, ch, ch.refreshQ[0], clk);
      && s.q.pimQueue == q.pimQueue
      && (asked.Ready? ==> s.answer == asked)
      && (asked.NotReady? && s.answer.Ready? ==> s.answer.cmd.Rank() != rank)
      && (if asked.Ready? && asked.cmd.kind == Refresh
          then !s.q.isInRef && !s.q.skipPim && s.q.remainSlack == 0 && s.q.reservedRow == -1
          else s.q.isInRef && HoldsRank(cfg, structure, s.q, rank))
  {
    hide GetReadyCommand, RoundRobin, RankOf, NumQueues, QueueIndex;
    LatchHoldsRank(cfg, structure, q, ch, clk);
    var s := FinishRefresh(cfg, structure, q, ch, clk);
    if s.answer == NotReady { HeldRankIsLeftAlone(cfg, structure, s.q, ch, clk, ch.refreshQ[0].Rank()); }
  }

  // ---- joining ----

  /** A command that finds room is the last of its queue, one that does not is gone; no queue outgrows its size, and the
      other queues stay. */
  lemma JoinsIfRoom(cfg: Config, structure: Structure, q: NQueue, size: nat, c: Command)
    requires cfg.Valid() && |q.queues| == NumQueues(cfg, structure) && cfg.Has(IdOf(c.addr)) && |q.pimQueue| <= size
    requires forall i | 0 <= i < |q.queues| :: |q.queues[i]| <= size
    ensures 0 <= QueueIndex(cfg, structure, c.addr) < |q.queues|
    ensures var i, q' := QueueIndex(cfg, structure, c.addr), AddCommand(cfg, structure, q, size, c);
      && |q'.queues| == |q.queues| && |q'.pimQueue| <= size
      && (forall k | 0 <= k < |q.queues| :: |q'.queues[k]| <= size)
      && q' == q.(queues := q'.queues, pimQueue := q'.pimQueue)
      && (forall k | 0 <= k < |q.queues| && k != i :: q'.queues[k] == q.queues[k])
      && (c.kind in {Gwrite, PHeader, CompsReadres} ==>
            q'.queues == q.queues && q'.pimQueue == if |q.pimQueue| == size then q.pimQueue else q.pimQueue + [c])
      && (c.kind !in {Gwrite, PHeader, CompsReadres} ==>
            q'.pimQueue == q.pimQueue
            && q'.queues[i] == if |q.queues[i]| == size then q.queues[i] else q.queues[i] + [c])
  {
    IndexInRange(cfg, structure, c.addr);
    hide QueueIndex, NumQueues;
  }
}
