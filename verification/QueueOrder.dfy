/** Which entry of the DRAM queue goes first. */
module QueueOrder {
  // A selection takes the first entry, of the first queue of the round, that is ready and that nothing makes wait: a
  // write never passes an earlier read of its location, and no row is closed that still has hits to come, before its
  // fourth. A queue that has something to offer comes nearer with every selection.

  import opened Commands
  import opened Banks
  import opened Channels
  import opened Queues
  import opened DramQueue

  // ---- one entry ----

  predicate SamePlace(a: Address, b: Address) { a.(channel := 0) == b.(channel := 0) }

  /** Nothing in the queue makes the answer to entry `n` wait: a precharge is for the first entry of its bank, whose
      open row no entry wants any more or had its four hits; a write comes after no read of its location. */
  predicate Free(ch: Channel, queue: seq<Command>, n: int, c: Command)
    requires 0 <= n < |queue| && IdOf(queue[n].addr) in ch.banks
  {
    var id := IdOf(queue[n].addr);
    && (c.kind == Precharge ==>
          && (forall m | 0 <= m < n :: IdOf(queue[m].addr) != id)
          && (ch.banks[id].rowHits < 4 ==>
                forall m | n <= m < |queue| && IdOf(queue[m].addr) == id ::
                  ch.banks[id].normal != Open(queue[m].Row())))
    && (c.kind == Write ==> forall m | 0 <= m < n && queue[m].kind == Read :: !SamePlace(queue[m].addr, queue[n].addr))
  }

  lemma SameRank(cfg: Config, structure: Structure, a: Address, b: Address)
    requires cfg.Valid() && cfg.Has(IdOf(a)) && cfg.Has(IdOf(b))
    requires QueueIndex(cfg, structure, a) == QueueIndex(cfg, structure, b)
    ensures a.rank == b.rank
  {
    IndexInRange(cfg, structure, a);
    IndexInRange(cfg, structure, b);
  }

  /** The queue's test of an entry is this one. */
  lemma PassesExactly(cfg: Config, structure: Structure, ch: Channel, clk: int, queue: seq<Command>, idx: int, n: int)
    requires ch.Valid(cfg) && ValidEntries(cfg, structure, queue, idx) && 0 <= n < |queue|
    requires GetReadyCommand(cfg, ch, queue[n], clk).Ready?
    ensures var c := GetReadyCommand(cfg, ch, queue[n], clk).cmd;
      Passes(cfg, ch, queue, n, c) <==> Free(ch, queue, n, c)
  {
    forall m | 0 <= m < |queue|
      ensures Entry(cfg, structure, queue[m], idx) && queue[m].addr.rank == queue[n].addr.rank {
      SameRank(cfg, structure, queue[m].addr, queue[n].addr);
    }
    var c := GetReadyCommand(cfg, ch, queue[n], clk).cmd;
    if c.kind == Precharge { PrechargesOpenRow(cfg, structure, ch, clk, queue[n], idx); }
  }

  lemma PrechargesOpenRow(cfg: Config, structure: Structure, ch: Channel, clk: int, c: Command, idx: int)
    requires ch.Valid(cfg) && Entry(cfg, structure, c, idx)
    requires GetReadyCommand(cfg, ch, c, clk).Ready? && GetReadyCommand(cfg, ch, c, clk).cmd.kind == Precharge
    ensures ch.banks[IdOf(c.addr)].normal.Open?
  {
  }

  // ---- one queue ----

  /** Entry `n` is ready as `c` and nothing makes it wait. */
  predicate Goes(cfg: Config, ch: Channel, clk: int, queue: seq<Command>, n: int, c: Command)
    requires ch.Valid(cfg) && 0 <= n < |queue| && cfg.Addressed(queue[n]) && cfg.Has(IdOf(queue[n].addr))
  {
    GetReadyCommand(cfg, ch, queue[n], clk) == Ready(c) && Free(ch, queue, n, c)
  }

  /** Entry `n` has to wait. */
  predicate Stays(cfg: Config, ch: Channel, clk: int, queue: seq<Command>, n: int)
    requires ch.Valid(cfg) && 0 <= n < |queue| && cfg.Addressed(queue[n]) && cfg.Has(IdOf(queue[n].addr))
  {
    var answer := GetReadyCommand(cfg, ch, queue[n], clk);
    answer.Ready? ==> !Free(ch, queue, n, answer.cmd)
  }

  ghost predicate AllStay(cfg: Config, structure: Structure, ch: Channel, clk: int, queue: seq<Command>, idx: int,
                          from: int, to: int)
    requires ch.Valid(cfg) && ValidEntries(cfg, structure, queue, idx) && 0 <= from <= to <= |queue|
  {
    forall n | from <= n < to :: Stays(cfg, ch, clk, queue, n)
  }

  lemma {:induction false} FirstGoes(cfg: Config, structure: Structure, ch: Channel, clk: int, queue: seq<Command>,
                                     idx: int, from: int) returns (n: int)
    requires ch.Valid(cfg) && ValidEntries(cfg, structure, queue, idx) && 0 <= from <= |queue|
    ensures var answer := FirstReady(cfg, structure, ch, clk, queue, idx, from);
      && from <= n <= |queue| && AllStay(cfg, structure, ch, clk, queue, idx, from, n)
      && answer != Abort && (answer.NotReady? <==> n == |queue|)
      && (answer.Ready? ==> Goes(cfg, ch, clk, queue, n, answer.cmd))
    decreases |queue| - from
  {
    hide GetReadyCommand, Passes, Free;
    n := from;
    if from < |queue| {
      QueriesNeverAbort(cfg, ch, queue[from], clk);
      if GetReadyCommand(cfg, ch, queue[from], clk).Ready? {
        PassesExactly(cfg, structure, ch, clk, queue, idx, from);
      }
      if Stays(cfg, ch, clk, queue, from) { n := FirstGoes(cfg, structure, ch, clk, queue, idx, from + 1); }
    }
  }

  /** The first entry with the hex address and kind of a command leaves; the others keep their order. */
  predicate LeavesFrom(queue: seq<Command>, c: Command, rest: seq<Command>, n: int) {
    && 0 <= n < |queue| && queue[n].hexAddr == c.hexAddr && queue[n].kind == c.kind
    && (forall m | 0 <= m < n :: queue[m].hexAddr != c.hexAddr || queue[m].kind != c.kind)
    && rest == queue[..n] + queue[n + 1..]
  }

  lemma {:induction false} OneLeaves(queue: seq<Command>, c: Command, at: int) returns (n: int)
    requires 0 <= at < |queue| && queue[at] == c
    ensures LeavesFrom(queue, c, Erased(queue, c), n)
  {
    if queue[0].hexAddr == c.hexAddr && queue[0].kind == c.kind {
      n := 0;
    } else {
      var k := OneLeaves(queue[1..], c, at - 1);
      n := k + 1;
      assert queue[..n] == [queue[0]] + queue[1..][..k];
      assert queue[1..][k + 1..] == queue[n + 1..];
    }
  }

  // ---- the round ----

  predicate Withheld(q: DQueue, i: int) { q.isInRef && i in q.refQIndices }

  /** Queue `i` is held back by a refresh or all its entries wait. */
  ghost predicate Silent(cfg: Config, structure: Structure, q: DQueue, ch: Channel, clk: int, i: int)
    requires ch.Valid(cfg) && ValidQueue(cfg, structure, q) && 0 <= i < |q.queues|
  {
    Withheld(q, i) || AllStay(cfg, structure, ch, clk, q.queues[i], i, 0, |q.queues[i]|)
  }

  /** The queues of the first `t` turns after `idx` are silent. */
  ghost predicate SilentTurns(cfg: Config, structure: Structure, q: DQueue, ch: Channel, clk: int, idx: int, t: int)
    requires ch.Valid(cfg) && ValidQueue(cfg, structure, q) && 0 <= idx < |q.queues| && t <= |q.queues|
  {
    forall u | 1 <= u <= t :: Silent(cfg, structure, q, ch, clk, Turn(idx, |q.queues|, u))
  }

  /** The command comes from entry `n` of the queue of turn `t`, the first in both that goes; a read or write leaves. */
  ghost predicate FirstFit(cfg: Config, structure: Structure, q: DQueue, ch: Channel, clk: int, s: Selection, t: int,
                           n: int)
    requires ch.Valid(cfg) && ValidQueue(cfg, structure, q) && 1 <= t <= |q.queues|
  {
    var i := Turn(q.queueIdx, |q.queues|, t);
    && SilentTurns(cfg, structure, q, ch, clk, q.queueIdx, t - 1)
    && !Withheld(q, i) && s.answer.Ready? && 0 <= n < |q.queues[i]|
    && AllStay(cfg, structure, ch, clk, q.queues[i], i, 0, n)
    && Goes(cfg, ch, clk, q.queues[i], n, s.answer.cmd)
    && |s.q.queues| == |q.queues|
    && s.q == q.(queueIdx := i, queues := q.queues[i := s.q.queues[i]])
    && (if s.answer.cmd.kind in {Read, Write} then
          exists k :: LeavesFrom(q.queues[i], q.queues[i][n], s.q.queues[i], k)
        else s.q.queues[i] == q.queues[i])
  }

  lemma TurnFits(cfg: Config, structure: Structure, q: DQueue, ch: Channel, clk: int) returns (n: int)
    requires ch.Valid(cfg) && ValidQueue(cfg, structure, q)
    ensures var i := NextIndex(q.queueIdx, |q.queues|);
      var s := ServeQueue(cfg, structure, q.(queueIdx := i), ch, clk);
      && (s.answer.Ready? && !Withheld(q, i) ==> FirstFit(cfg, structure, q, ch, clk, s, 1, n))
      && (s.answer.NotReady? ==> Silent(cfg, structure, q, ch, clk, i) && s.q == q.(queueIdx := i))
      && s.answer != Abort && Turn(q.queueIdx, |q.queues|, 1) == i
  {
    hide GetReadyCommand, FirstReady, Free;
    var i := NextIndex(q.queueIdx, |q.queues|);
    n := FirstGoes(cfg, structure, ch, clk, q.queues[i], i, 0);
    var s := ServeQueue(cfg, structure, q.(queueIdx := i), ch, clk);
    if s.answer.Ready? {
      EntryAnswers(cfg, structure, ch, clk, q.queues[i][n], i);
      if s.answer.cmd.IsReadWrite() { var k := OneLeaves(q.queues[i], q.queues[i][n], n); }
    }
  }

  lemma {:induction false} RoundFits(cfg: Config, structure: Structure, q: DQueue, ch: Channel, clk: int, left: nat)
    returns (t: int, n: int)
    requires ch.Valid(cfg) && ValidQueue(cfg, structure, q) && left <= |q.queues|
    ensures var s := RoundRobin(cfg, structure, q, ch, clk, left);
      && s.answer != Abort
      && (s.answer.Ready? ==> 1 <= t <= left && FirstFit(cfg, structure, q, ch, clk, s, t, n))
      && (s.answer.NotReady? ==> SilentTurns(cfg, structure, q, ch, clk, q.queueIdx, left))
      && (s.answer.NotReady? ==> s.q == q.(queueIdx := Turn(q.queueIdx, |q.queues|, left)))
    decreases left
  {
    hide NumQueues, Entry, FirstReady, GetReadyCommand, Free, ServeQueue, AllStay, Goes, LeavesFrom;
    t, n := 1, 0;
    if left > 0 {
      n := TurnFits(cfg, structure, q, ch, clk);
      var i := NextIndex(q.queueIdx, |q.queues|);
      var q1 := q.(queueIdx := i);
      if Withheld(q, i) || ServeQueue(cfg, structure, q1, ch, clk).answer.NotReady? {
        t, n := RoundFits(cfg, structure, q1, ch, clk, left - 1);
        t := t + 1;
        forall u | 1 <= u < |q.queues| ensures Turn(i, |q.queues|, u) == Turn(q.queueIdx, |q.queues|, u + 1) {}
        SilentLater(cfg, structure, q, ch, clk, left - 1);
        SilentLater(cfg, structure, q, ch, clk, if t <= left then t - 2 else 0);
      }
    }
  }

  lemma SilentLater(cfg: Config, structure: Structure, q: DQueue, ch: Channel, clk: int, t: int)
    requires ch.Valid(cfg) && ValidQueue(cfg, structure, q) && t < |q.queues|
    requires Silent(cfg, structure, q, ch, clk, NextIndex(q.queueIdx, |q.queues|))
    ensures var i := NextIndex(q.queueIdx, |q.queues|);
      SilentTurns(cfg, structure, q.(queueIdx := i), ch, clk, i, t) ==>
        SilentTurns(cfg, structure, q, ch, clk, q.queueIdx, t + 1)
  {
    hide AllStay;
    var i := NextIndex(q.queueIdx, |q.queues|);
    var q1 := q.(queueIdx := i);
    if SilentTurns(cfg, structure, q1, ch, clk, i, t) {
      forall u | 1 <= u <= t + 1 ensures Silent(cfg, structure, q, ch, clk, Turn(q.queueIdx, |q.queues|, u)) {
        if u > 1 {
          assert Turn(i, |q.queues|, u - 1) == Turn(q.queueIdx, |q.queues|, u);
          assert Silent(cfg, structure, q1, ch, clk, Turn(i, |q.queues|, u - 1));
        }
      }
    }
  }

  /** How many turns after `idx` queue `i` is asked. */
  function TurnsUntil(idx: int, i: int, count: int): int { if idx < i then i - idx else i - idx + count }

  /** A selection takes the first entry that goes from the first queue of the round that has one; it finds nothing
      exactly when every queue is silent. */
  lemma SelectionIsFirstFit(cfg: Config, structure: Structure, q: DQueue, ch: Channel, clk: int)
    returns (t: int, n: int)
    requires ch.Valid(cfg) && ValidQueue(cfg, structure, q)
    ensures var s := GetCommandToIssue(cfg, structure, q, ch, clk);
      && s.answer != Abort
      && (s.answer.Ready? ==> 1 <= t <= |q.queues| && FirstFit(cfg, structure, q, ch, clk, s, t, n))
      && (s.answer.NotReady? <==> forall i | 0 <= i < |q.queues| :: Silent(cfg, structure, q, ch, clk, i))
      && (s.answer.NotReady? ==> s.q == q)
  {
    hide RoundRobin, AllStay, Goes, LeavesFrom, NumQueues, Entry;
    t, n := RoundFits(cfg, structure, q, ch, clk, |q.queues|);
    var s := GetCommandToIssue(cfg, structure, q, ch, clk);
    if s.answer.Ready? {
      var i := Turn(q.queueIdx, |q.queues|, t);
      assert ValidEntries(cfg, structure, q.queues[i], i);
      GoesOrStays(cfg, structure, ch, clk, q.queues[i], i, n, s.answer.cmd);
      assert !Silent(cfg, structure, q, ch, clk, i);
    } else {
      forall i | 0 <= i < |q.queues| ensures Silent(cfg, structure, q, ch, clk, i) {
        assert Turn(q.queueIdx, |q.queues|, TurnsUntil(q.queueIdx, i, |q.queues|)) == i;
      }
    }
  }

  lemma GoesOrStays(cfg: Config, structure: Structure, ch: Channel, clk: int, queue: seq<Command>, idx: int, n: int,
                    c: Command)
    requires ch.Valid(cfg) && ValidEntries(cfg, structure, queue, idx) && 0 <= n < |queue|
    requires Goes(cfg, ch, clk, queue, n, c)
    ensures !AllStay(cfg, structure, ch, clk, queue, idx, 0, |queue|)
  {
    assert !Stays(cfg, ch, clk, queue, n);
  }

  /** A queue with something to offer is served or comes nearer with every selection, so it waits for fewer selections
      than there are queues. */
  lemma OffersComeNearer(cfg: Config, structure: Structure, q: DQueue, ch: Channel, clk: int, i: int)
    requires ch.Valid(cfg) && ValidQueue(cfg, structure, q) && 0 <= i < |q.queues|
    requires !Silent(cfg, structure, q, ch, clk, i)
    ensures var s := GetCommandToIssue(cfg, structure, q, ch, clk);
      && s.answer.Ready? && |s.q.queues| == |q.queues|
      && (s.q.queueIdx != i ==>
            s.q.queues[i] == q.queues[i]
            && TurnsUntil(s.q.queueIdx, i, |q.queues|) < TurnsUntil(q.queueIdx, i, |q.queues|) <= |q.queues|)
  {
    hide GetCommandToIssue, Silent, AllStay, Goes, LeavesFrom, NumQueues, Entry;
    var t, n := SelectionIsFirstFit(cfg, structure, q, ch, clk);
    var u := TurnsUntil(q.queueIdx, i, |q.queues|);
    assert Turn(q.queueIdx, |q.queues|, u) == i;
    assert t <= u;
  }
}
