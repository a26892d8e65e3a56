/** Building runs of the NeuPIMs queue step by step. */
module DualBufferReach {
  // A run is extended by one cycle, as the refresh unit and the latency estimate determine it, or by one command after
  // a cycle; a GWRITE is done a fixed delay after its issue. With nothing queued a cycle only passes.

  import opened Commands
  import opened Banks
  import opened Channels
  import opened Queues
  import opened NeuPims
  import opened DualBuffer
  import opened DualBufferDriven
  import opened Refreshes
  import Runs = ChannelRuns

  /** A channel, its queue, the refresh interval, the cycles a GWRITE takes from its issue, and the estimated latency of
      the operation at the head. */
  datatype Setup = Setup(cfg: Config, table: TimingTable, structure: Structure, size: nat, interval: nat,
                         gwriteDelay: nat, estimate: (Channel, Command) -> int)
  {
    predicate Valid() { cfg.Valid() && size > 0 && interval > 1 }
  }

  function Head(q: NQueue): Command { if q.pimQueue == [] then NO_COMMAND else q.pimQueue[0] }

  /** The cycle that follows in world `w`. */
  function NextTick(s: Setup, w: World): Action
    requires s.Valid() && w.clk >= 0
  {
    Tick(s.cfg.ranks, s.interval, w.clk, s.estimate(w.ch, Head(w.q)))
  }

  /** The cycles in which the GWRITEs issued and not yet done will be, in the order of their issue. */
  ghost function Due(s: Setup, run: seq<Action>): seq<int>
    requires s.Valid() && Admitted(s.cfg, s.table, s.structure, s.size, run)
    decreases |run|
  {
    if run == [] then []
    else
      var before, a := run[..|run| - 1], run[|run| - 1];
      var w, due := Exec(s.cfg, s.table, s.structure, s.size, before), Due(s, before);
      match a
      case Cycle(_, _, _) => due + Begun(s, w, Selected(s.cfg, s.structure, w, a))
      case Add(_) => due
      case GwriteDone => if due == [] then [] else due[1..]
  }

  function Begun(s: Setup, w: World, answer: Answer): seq<int> {
    if answer.Ready? && answer.cmd.IsGwrite() then [w.clk + s.gwriteDelay] else []
  }

  /** Every cycle uses the estimate for the operation then at the head, and every GWRITE is done once its delay has
      passed, before the cycle in which it has. */
  ghost predicate Controlled(s: Setup, run: seq<Action>)
    requires s.Valid() && Admitted(s.cfg, s.table, s.structure, s.size, run)
    decreases |run|
  {
    run == [] ||
      var before, a := run[..|run| - 1], run[|run| - 1];
      var w, due := Exec(s.cfg, s.table, s.structure, s.size, before), Due(s, before);
      && Controlled(s, before)
      && (a.Cycle? ==> a.latency == s.estimate(w.ch, Head(w.q)) && forall t <- due :: t > w.clk)
      && (a.GwriteDone? ==> due != [] && due[0] <= w.clk)
  }

  /** An admitted run as the controller drives it. */
  ghost predicate Occurs(s: Setup, run: seq<Action>)
    requires s.Valid()
  {
    && Admitted(s.cfg, s.table, s.structure, s.size, run) && Controlled(s, run)
    && Driven(s.cfg.ranks, s.interval, run)
  }

  /** Such a run ends in `w`, with the GWRITEs `due` not yet done. */
  ghost predicate Reached(s: Setup, run: seq<Action>, w: World, due: seq<int>)
    requires s.Valid()
  {
    && Occurs(s, run) && Exec(s.cfg, s.table, s.structure, s.size, run) == w && Due(s, run) == due
    && w.clk == Cycles(run)
  }

  /** The last cycle of such a run exits. */
  ghost predicate Exits(s: Setup, run: seq<Action>)
    requires s.Valid()
  {
    && Occurs(s, run) && run != [] && run[|run| - 1].Cycle?
    && var w := Exec(s.cfg, s.table, s.structure, s.size, run[..|run| - 1]);
    Selected(s.cfg, s.structure, w, run[|run| - 1]) == Abort
  }

  lemma ReachedIsSafe(s: Setup, run: seq<Action>, w: World, due: seq<int>)
    requires s.Valid() && Reached(s, run, w, due)
    ensures w.clk >= 0 && Inv(s.cfg, s.structure, w) && ValidWorld(s.cfg, s.structure, w)
  {
  }

  lemma StartReached(s: Setup)
    requires s.Valid()
    ensures Reached(s, [], Start(s.cfg, s.structure), [])
  {
  }

  /** The step may follow the run. */
  ghost predicate May(s: Setup, run: seq<Action>, w: World, due: seq<int>, a: Action)
    requires s.Valid() && ValidWorld(s.cfg, s.structure, w) && w.clk >= 0
  {
    && Admissible(s.cfg, s.structure, s.size, w, a)
    && ((a == NextTick(s, w) && forall t <- due :: t > w.clk) || (a.Add? && run != [] && run[|run| - 1].Cycle?))
  }

  lemma MayOccur(s: Setup, run: seq<Action>, w: World, due: seq<int>, a: Action)
    requires s.Valid() && Reached(s, run, w, due) && ValidWorld(s.cfg, s.structure, w) && w.clk >= 0
    requires May(s, run, w, due, a)
    ensures Occurs(s, run + [a]) && (run + [a])[..|run|] == run
    ensures Cycles(run + [a]) == w.clk + if a.Cycle? then 1 else 0
    ensures Due(s, run + [a]) == due + if a.Cycle? then Begun(s, w, Selected(s.cfg, s.structure, w, a)) else []
    ensures Exec(s.cfg, s.table, s.structure, s.size, run + [a]) == Step(s.cfg, s.table, s.structure, s.size, w, a)
  {
    hide Step, Admissible, Inv, CycleSelection, ArrivalAt, Countdown;
    var longer := run + [a];
    assert longer[..|longer| - 1] == run && longer[|longer| - 1] == a;
    OnTimeAppends(s.cfg.ranks, s.interval, run, a, 0);
  }

  lemma Extends(s: Setup, run: seq<Action>, w: World, due: seq<int>, a: Action)
    requires s.Valid() && Reached(s, run, w, due) && ValidWorld(s.cfg, s.structure, w) && w.clk >= 0
    requires May(s, run, w, due, a) && (a.Cycle? ==> Selected(s.cfg, s.structure, w, a) != Abort)
    ensures Reached(s, run + [a], Step(s.cfg, s.table, s.structure, s.size, w, a),
                    due + if a.Cycle? then Begun(s, w, Selected(s.cfg, s.structure, w, a)) else [])
  {
    hide Step, Admissible, Inv, CycleSelection, ArrivalAt, Countdown, Occurs, Due;
    MayOccur(s, run, w, due, a);
    StepTakesACycle(s, w, a);
  }

  /** An aborting cycle ends the run in the exit. */
  lemma AbortExits(s: Setup, run: seq<Action>, w: World, due: seq<int>)
    requires s.Valid() && Reached(s, run, w, due) && ValidWorld(s.cfg, s.structure, w) && w.clk >= 0
    requires (forall t <- due :: t > w.clk) && Selected(s.cfg, s.structure, w, NextTick(s, w)) == Abort
    ensures Exits(s, run + [NextTick(s, w)])
  {
    hide Step, CycleSelection, ArrivalAt, Countdown;
    assert Admissible(s.cfg, s.structure, s.size, w, NextTick(s, w));
    MayOccur(s, run, w, due, NextTick(s, w));
  }

  lemma StepTakesACycle(s: Setup, w: World, a: Action)
    requires s.Valid() && ValidWorld(s.cfg, s.structure, w) && (a.Cycle? || a.Add?)
    requires a.Cycle? ==> Selected(s.cfg, s.structure, w, a) != Abort
    ensures Step(s.cfg, s.table, s.structure, s.size, w, a).clk == w.clk + if a.Cycle? then 1 else 0
  {
    hide CycleSelection;
  }

  // ---- a command arrives ----

  lemma PimArrives(s: Setup, run: seq<Action>, w: World, due: seq<int>, c: Command) returns (w': World)
    requires s.Valid() && Reached(s, run, w, due) && run != [] && run[|run| - 1].Cycle?
    requires PimEntry(s.cfg, c) && w.q.pimQueue == [] && StreamOk(w.phase, [c])
    ensures Reached(s, run + [Add(c)], w', due) && w' == w.(q := w.q.(pimQueue := [c]))
  {
    ReachedIsSafe(s, run, w, due);
    var none: seq<Command> := [];
    assert none + [c] == [c];
    assert due + [] == due;
    Extends(s, run, w, due, Add(c));
    w' := Step(s.cfg, s.table, s.structure, s.size, w, Add(c));
  }

  ghost predicate NoneQueued(q: NQueue) { forall i | 0 <= i < |q.queues| :: q.queues[i] == [] }

  /** A read arrives at a queue; the others stay as they are. */
  lemma ReadArrives(s: Setup, run: seq<Action>, w: World, due: seq<int>, c: Command) returns (w': World, i: int)
    requires s.Valid() && Reached(s, run, w, due) && run != [] && run[|run| - 1].Cycle?
    requires c.IsRead() && s.cfg.Has(IdOf(c.addr)) && c.Row() >= 0 && !c.isLastComps && c.numComps == 0
    requires NoneQueued(w.q)
    ensures 0 <= i < |w.q.queues| && Reached(s, run + [Add(c)], w', due)
    ensures w' == w.(q := w.q.(queues := w.q.queues[i := [c]]))
  {
    ReachedIsSafe(s, run, w, due);
    IndexInRange(s.cfg, s.structure, c.addr);
    i := QueueIndex(s.cfg, s.structure, c.addr);
    var none: seq<Command> := [];
    assert none + [c] == [c];
    assert due + [] == due;
    Extends(s, run, w, due, Add(c));
    w' := Step(s.cfg, s.table, s.structure, s.size, w, Add(c));
  }

  // ---- a cycle ----

  /** Equal but for the position of the round. */
  predicate Alike(q: NQueue, q': NQueue) { q' == q.(queueIdx := q'.queueIdx) }

  lemma {:induction false} EmptyRound(cfg: Config, structure: Structure, q: NQueue, ch: Channel, clk: int, left: nat)
    requires ch.Valid(cfg) && ValidQueue(cfg, structure, q) && NoneQueued(q)
    ensures var s := RoundRobin(cfg, structure, q, ch, clk, left); s.answer == NotReady && Alike(q, s.q)
    decreases left
  {
    if left > 0 {
      var q1 := q.(queueIdx := NextIndex(q.queueIdx, |q.queues|));
      EmptyRound(cfg, structure, q1, ch, clk, left - 1);
      assert FirstReady(cfg, structure, q1, ch, clk, q1.queues[q1.queueIdx], q1.queueIdx, 0)
        == (NotReady, q1.remainSlack);
    }
  }

  /** With nothing queued but a PIM operation, a cycle answers for that operation. */
  lemma PimAnswers(cfg: Config, structure: Structure, q: NQueue, ch: Channel, clk: int, remain: int, latency: int)
    requires ch.Valid(cfg) && ValidQueue(cfg, structure, q) && NoneQueued(q) && ch.refreshQ == []
    requires !q.skipPim && !q.isInRef && q.pimQueue != []
    ensures var pim := ReadyInPim(cfg, q, ch, clk, remain, latency);
      var s := CycleSelection(cfg, structure, q, ch, clk, remain, latency);
      && s.answer == pim.answer != Abort
      && Alike(if pim.answer.Ready? && (pim.answer.cmd.IsPimCommand() || pim.answer.cmd.IsPimHeader())
               then pim.q.(pimQueue := Erased(pim.q.pimQueue, pim.answer.cmd)) else pim.q, s.q)
  {
    hide GetReadyCommand, RoundRobin;
    assert PimEntry(cfg, q.pimQueue[0]);
    QueriesNeverAbort(cfg, ch, q.pimQueue[0], clk);
    var pim := ReadyInPim(cfg, q, ch, clk, remain, latency);
    EmptyRound(cfg, structure, pim.q, ch, clk, |q.queues|);
  }

  /** Without even that a cycle has nothing to do. */
  lemma NothingAnswers(cfg: Config, structure: Structure, q: NQueue, ch: Channel, clk: int, remain: int, latency: int)
    requires ch.Valid(cfg) && ValidQueue(cfg, structure, q) && NoneQueued(q) && q.pimQueue == []
    ensures var s := GetCommandToIssue(cfg, structure, q, ch, clk, remain, latency);
      s.answer == NotReady && Alike(q, s.q)
  {
    hide RoundRobin;
    EmptyRound(cfg, structure, q, ch, clk, |q.queues|);
  }

  /** The operation at the head comes before anything queued. */
  lemma PimComesFirst(cfg: Config, structure: Structure, q: NQueue, ch: Channel, clk: int, remain: int, latency: int)
    requires ch.Valid(cfg) && ValidQueue(cfg, structure, q) && ch.refreshQ == []
    requires !q.skipPim && !q.isInRef && q.pimQueue != []
    requires ReadyInPim(cfg, q, ch, clk, remain, latency).answer.Ready?
    ensures var pim := ReadyInPim(cfg, q, ch, clk, remain, latency);
      CycleSelection(cfg, structure, q, ch, clk, remain, latency) ==
        Selection(pim.answer, if pim.answer.cmd.IsPimCommand() || pim.answer.cmd.IsPimHeader()
                              then pim.q.(pimQueue := Erased(pim.q.pimQueue, pim.answer.cmd)) else pim.q)
  {
    hide GetReadyCommand, RoundRobin;
  }

  /** The next cycle, given what it selects. */
  lemma Ticks(s: Setup, run: seq<Action>, w: World, due: seq<int>, ch: Channel, answer: Answer, q: NQueue)
    returns (run': seq<Action>, w': World)
    requires s.Valid() && Reached(s, run, w, due) && w.clk >= 0 && ValidWorld(s.cfg, s.structure, w)
    requires ch == Arrived(s.cfg, w.ch, NextTick(s, w).arrival) && forall t <- due :: t > w.clk
    requires ch.Valid(s.cfg) && CycleSelection(s.cfg, s.structure, w.q, ch, w.clk, NextTick(s, w).remainToRefresh,
                                               NextTick(s, w).latency) == Selection(answer, q)
    requires answer != Abort && (w.phase.Idle? || !answer.Ready? || !answer.cmd.IsRefresh())
    ensures run' == run + [NextTick(s, w)] && Reached(s, run', w', due + Begun(s, w, answer))
    ensures w'.clk == w.clk + 1 && w'.q == q
    ensures answer.NotReady? ==> w'.ch == ch && w'.phase == w.phase
    ensures answer.Ready? ==> w'.phase == PhaseAfter(w.phase, answer.cmd)
    ensures answer.Ready? && answer.cmd.IsPimHeader() ==> w'.ch == ch
    ensures answer.Ready? && !answer.cmd.IsPimHeader() ==>
      s.cfg.Addressed(answer.cmd) && !UpdateAborts(ch, answer.cmd)
      && w'.ch == Issue(s.cfg, s.table, ch, answer.cmd, w.clk)
  {
    var a := NextTick(s, w);
    SelectedIsIssuable(s.cfg, s.structure, w.q, ch, w.clk, a.remainToRefresh, a.latency);
    hide CycleSelection, Issue, UpdateAborts, Reached, ArrivalAt, Countdown;
    Extends(s, run, w, due, a);
    run' := run + [a];
    w' := Step(s.cfg, s.table, s.structure, s.size, w, a);
  }

  /** The same with no GWRITE underway, for anything but a GWRITE. */
  lemma Passes(s: Setup, run: seq<Action>, w: World, ch: Channel, answer: Answer, q: NQueue)
    returns (run': seq<Action>, w': World)
    requires s.Valid() && Reached(s, run, w, []) && w.clk >= 0 && ValidWorld(s.cfg, s.structure, w)
    requires ch == Arrived(s.cfg, w.ch, NextTick(s, w).arrival)
    requires ch.Valid(s.cfg) && CycleSelection(s.cfg, s.structure, w.q, ch, w.clk, NextTick(s, w).remainToRefresh,
                                               NextTick(s, w).latency) == Selection(answer, q)
    requires answer != Abort && (w.phase.Idle? || !answer.Ready? || !answer.cmd.IsRefresh())
    requires answer.Ready? ==> !answer.cmd.IsGwrite()
    ensures run' == run + [NextTick(s, w)] && Reached(s, run', w', []) && w'.clk == w.clk + 1 && w'.q == q
    ensures answer.NotReady? ==> w'.ch == ch && w'.phase == w.phase
    ensures answer.Ready? ==> w'.phase == PhaseAfter(w.phase, answer.cmd)
    ensures answer.Ready? && answer.cmd.IsPimHeader() ==> w'.ch == ch
    ensures answer.Ready? && !answer.cmd.IsPimHeader() ==>
      s.cfg.Addressed(answer.cmd) && !UpdateAborts(ch, answer.cmd)
      && w'.ch == Issue(s.cfg, s.table, ch, answer.cmd, w.clk)
  {
    hide CycleSelection, Issue, UpdateAborts, Reached, ArrivalAt, Countdown;
    run', w' := Ticks(s, run, w, [], ch, answer, q);
    assert [] + Begun(s, w, answer) == [];
  }

  // ---- when refreshes arrive ----

  /** Cycle `clk` lies in the first two intervals and brings no refresh. */
  predicate Calm(s: Setup, clk: int) { 0 <= clk < s.interval || s.interval < clk < 2 * s.interval }

  lemma CalmArrival(s: Setup, w: World)
    requires s.Valid() && Calm(s, w.clk)
    ensures NextTick(s, w).arrival == -1 && Arrived(s.cfg, w.ch, NextTick(s, w).arrival) == w.ch
    ensures w.clk + 1 < s.interval ==> NextTick(s, w).remainToRefresh == s.interval - (w.clk + 1)
    ensures s.interval < w.clk < 2 * s.interval - 1 ==> NextTick(s, w).remainToRefresh == 2 * s.interval - (w.clk + 1)
  {
    var n := if w.clk < s.interval then 0 else 1;
    Reports(s.cfg.ranks, s.interval, w.clk, n, w.clk - n * s.interval);
    hide ArrivalAt, Countdown;
  }

  lemma FirstArrival(s: Setup, w: World)
    requires s.Valid() && w.clk == s.interval
    ensures NextTick(s, w).arrival == 0
  {
    Reports(s.cfg.ranks, s.interval, w.clk, 1, 0);
    hide ArrivalAt, Countdown;
  }

  /** Nothing is queued, pending or withheld. */
  ghost predicate Still(w: World) {
    NoneQueued(w.q) && w.q.pimQueue == [] && w.ch.refreshQ == [] && !w.q.isInRef && !w.q.skipPim
  }

  /** With nothing queued cycles pass without effect, up to cycle `until`. */
  lemma {:induction false} Waits(s: Setup, run: seq<Action>, w: World, until: int)
    returns (run': seq<Action>, w': World)
    requires s.Valid() && Reached(s, run, w, []) && Still(w) && w.clk < until
    requires 0 <= w.clk && (until <= s.interval || (s.interval < w.clk && until <= 2 * s.interval))
    ensures run' != [] && run'[|run'| - 1].Cycle? && Reached(s, run', w', [])
    ensures w'.clk == until && w'.ch == w.ch && w'.phase == w.phase && Alike(w.q, w'.q)
    decreases until - w.clk
  {
    hide Reached, GetCommandToIssue;
    ReachedIsSafe(s, run, w, []);
    CalmArrival(s, w);
    var a := NextTick(s, w);
    NothingAnswers(s.cfg, s.structure, w.q, w.ch, w.clk, a.remainToRefresh, a.latency);
    var q := GetCommandToIssue(s.cfg, s.structure, w.q, w.ch, w.clk, a.remainToRefresh, a.latency).q;
    run', w' := Passes(s, run, w, w.ch, NotReady, q);
    if w'.clk < until { run', w' := Waits(s, run', w', until); }
  }

  // ---- delays ----

  const ANY: set<CommandType> :=
    {Read, Write, Activate, Precharge, Refresh, Gwrite, GAct, PimPrecharge, PHeader, CompsReadres, Size}

  /** No command of a kind in `issued` delays one of a kind in `delayed` by more than `longest`; compute commands of up
      to six computations take the same time. */
  ghost predicate Within(cfg: Config, table: TimingTable, issued: set<CommandType>, delayed: set<CommandType>,
                         longest: nat)
  {
    forall c: Command, id, e | c.numComps <= 6 && c.kind in issued && e in Entries(cfg, table, c, id)
      && e.0 in delayed :: e.1 <= longest
  }

  /** From cycle `free` on no delay holds back a command of a kind in `kinds`. */
  ghost predicate FreeFrom(ch: Channel, kinds: set<CommandType>, free: int) {
    forall id, kind | id in ch.banks && kind in kinds :: ch.banks[id].Earliest(kind) <= free
  }

  lemma {:induction false} DelayedFree(b: Bank, delays: Delays, clk: int, kind: CommandType, longest: nat, free: int)
    requires (forall e <- delays :: e.0 == kind ==> e.1 <= longest) && clk + longest <= free && b.Earliest(kind) <= free
    ensures Delayed(b, delays, clk).Earliest(kind) <= free
    decreases |delays|
  {
    if delays != [] {
      assert delays[0] in delays;
      DelayedFree(b.UpdateTiming(delays[0].0, clk + delays[0].1), delays[1..], clk, kind, longest, free);
    }
  }

  lemma IssueFree(cfg: Config, table: TimingTable, ch: Channel, c: Command, clk: int, kinds: set<CommandType>,
                  longest: nat, free: int)
    requires ch.Valid(cfg) && cfg.Addressed(c) && !UpdateAborts(ch, c) && c.numComps <= 6
    requires Within(cfg, table, {c.kind}, kinds, longest) && FreeFrom(ch, kinds, free)
    ensures FreeFrom(Issue(cfg, table, ch, c, clk), kinds, Max(free, clk + longest))
  {
    hide Entries, Delayed;
    var mid := UpdateState(ch, c);
    var ch' := Issue(cfg, table, ch, c, clk);
    forall id, kind | id in ch'.banks && kind in kinds
      ensures ch'.banks[id].Earliest(kind) <= Max(free, clk + longest)
    {
      assert id in ch.banks;
      if Affects(c, id) { UpdateKeepsTiming(ch.banks[id], c); }
      assert ch.banks[id].Earliest(kind) <= free && mid.banks[id].timing == ch.banks[id].timing;
      DelayedFree(mid.banks[id], Entries(cfg, table, c, id), clk, kind, longest, Max(free, clk + longest));
    }
  }

  lemma FreeSooner(ch: Channel, kinds: set<CommandType>, free: int, clk: int)
    requires FreeFrom(ch, kinds, free) && free <= clk
    ensures FreeFrom(ch, kinds, clk)
  {
  }

  lemma AnyIsAll(kind: CommandType)
    ensures kind in ANY
  {
    match kind
    case Read => case Write => case Activate => case Precharge => case Refresh => case Gwrite => case GAct =>
    case PimPrecharge => case PHeader => case CompsReadres => case Size =>
  }

  lemma FewerKinds(ch: Channel, kinds: set<CommandType>, free: int)
    requires FreeFrom(ch, ANY, free)
    ensures FreeFrom(ch, kinds, free)
  {
    forall id, kind | id in ch.banks && kind in kinds ensures ch.banks[id].Earliest(kind) <= free { AnyIsAll(kind); }
  }

  /** A command issued for a request carries no more computations than the request. */
  lemma ServesComps(cfg: Config, ch: Channel, clk: int, req: Command, c: Command)
    requires ch.Valid(cfg) && Serves(cfg, ch, clk, req, c) && 0 <= req.numComps <= 6
    ensures c.numComps <= 6
  {
    if req.IsChannelCmd() || req.IsPimHeader() || req.IsRankCmd() {
      var i, iHi := if req.IsRankCmd() then req.Rank() else 0, if req.IsRankCmd() then req.Rank() + 1 else cfg.ranks;
      QueryIsScan(cfg, ch, req, clk);
      ScanFromStart(cfg, ch, req, clk, iHi, i);
      if c != req { BankComps(ch.banks[IdOf(c.addr)], req, clk); }
    } else {
      BankComps(ch.banks[IdOf(req.addr)], req, clk);
    }
  }

  lemma BankComps(b: Bank, req: Command, clk: int)
    requires b.GetReady(req, clk).Ready?
    ensures b.GetReady(req, clk).cmd.numComps in {0, req.numComps}
  {
  }

  // ---- every table has a longest delay ----

  function Longest(delays: Delays): nat {
    if delays == [] then 0 else Max(delays[0].1, Longest(delays[1..]))
  }

  lemma {:induction false} LongestBounds(delays: Delays, e: (CommandType, int))
    requires e in delays
    ensures e.1 <= Longest(delays)
  {
    if e != delays[0] { assert e in delays[1..]; LongestBounds(delays[1..], e); }
  }

  /** Every delay a command of kind `k` can impose. */
  function AllDelays(table: TimingTable, k: CommandType): Delays {
    table.sameBank(k) + table.otherBanksSameBankgroup(k) + table.otherBankgroupsSameRank(k) + table.otherRanks(k)
    + table.sameRank(k)
  }

  function LongestDelay(cfg: Config, table: TimingTable): nat {
    Longest(AllDelays(table, Read) + AllDelays(table, Write) + AllDelays(table, Activate) + AllDelays(table, Precharge)
            + AllDelays(table, Refresh) + AllDelays(table, Gwrite) + AllDelays(table, GAct)
            + AllDelays(table, PimPrecharge) + AllDelays(table, CompsReadres)
            + [(CompsReadres, ComputeDelay(cfg, NO_COMMAND))])
  }

  lemma LongestDelayBounds(cfg: Config, table: TimingTable, issued: set<CommandType>, delayed: set<CommandType>)
    ensures Within(cfg, table, issued, delayed, LongestDelay(cfg, table))
  {
    hide Longest;
    forall c: Command, id, e | c.numComps <= 6 && e in Entries(cfg, table, c, id)
      ensures e.1 <= LongestDelay(cfg, table)
    {
      var compute := (CompsReadres, ComputeDelay(cfg, NO_COMMAND));
      if c.kind == CompsReadres && e == (CompsReadres, ComputeDelay(cfg, c)) { assert e == compute; }
      else { assert e in AllDelays(table, c.kind); }
      LongestBounds(AllDelays(table, Read) + AllDelays(table, Write) + AllDelays(table, Activate)
                    + AllDelays(table, Precharge) + AllDelays(table, Refresh) + AllDelays(table, Gwrite)
                    + AllDelays(table, GAct) + AllDelays(table, PimPrecharge) + AllDelays(table, CompsReadres)
                    + [compute], e);
    }
  }
}
