/** Latched refreshes over whole runs. */
module RefreshProgress {
  // Once a refresh is latched, its rank only closes: over any run of cycles and arriving commands, with either queue
  // structure and with or without dual issue, no buffer of the rank opens until REFRESH issues, every precharge for
  // the rank closes one, and REFRESH issues only when all of them are closed.

  import opened Commands
  import opened Banks
  import opened Channels
  import opened Queues
  import opened DramQueue
  import Runs = ChannelRuns

  datatype World = World(ch: Channel, q: DQueue, clk: int)

  datatype Action = Tick(arrival: int) | Add(cmd: Command)

  /** The latch and the held-back queues belong to the refresh at the front of the refresh queue. */
  ghost predicate Linked(cfg: Config, structure: Structure, w: World) {
    && w.ch.Valid(cfg) && ValidQueue(cfg, structure, w.q)
    && (w.q.isInRef ==> w.ch.refreshQ != [] && w.q.refQIndices == RefQIndices(cfg, structure, w.ch.refreshQ[0].Rank()))
    && (!w.q.isInRef ==> w.q.refQIndices == {})
  }

  ghost predicate Latched(cfg: Config, structure: Structure, w: World, rank: int) {
    Linked(cfg, structure, w) && w.q.isInRef && w.ch.refreshQ[0].Rank() == rank
  }

  /** The open row buffers of a rank: (bank, false) for a normal one, (bank, true) for a PIM one. */
  ghost function OpenBuffers(cfg: Config, ch: Channel, rank: int): set<(BankId, bool)>
    requires ch.Valid(cfg)
  {
    (set id | id in ch.banks && id.rank == rank && ch.banks[id].normal.Open? :: (id, false))
    + (set id | id in ch.banks && id.rank == rank && ch.banks[id].pim.Open? :: (id, true))
  }

  lemma RefQIndicesCover(cfg: Config, structure: Structure, a: Address, rank: int)
    requires cfg.Valid() && cfg.Has(IdOf(a)) && QueueIndex(cfg, structure, a) !in RefQIndices(cfg, structure, rank)
    ensures a.rank != rank
  {
    IndexInRange(cfg, structure, a);
  }

  /** What a command other than a refresh does to a rank's open buffers. */
  lemma IssueOnRank(cfg: Config, table: TimingTable, ch: Channel, c: Command, clk: int, rank: int)
    requires ch.Valid(cfg) && cfg.Addressed(c) && !UpdateAborts(ch, c)
    requires c.kind in {Read, Write, Activate, Precharge, PimPrecharge}
    ensures Issue(cfg, table, ch, c, clk).Valid(cfg)
    ensures Issue(cfg, table, ch, c, clk).refreshQ == ch.refreshQ
    ensures c.Rank() != rank ==> OpenBuffers(cfg, Issue(cfg, table, ch, c, clk), rank) == OpenBuffers(cfg, ch, rank)
    ensures c.Rank() == rank && c.kind in {Precharge, PimPrecharge} ==>
      OpenBuffers(cfg, Issue(cfg, table, ch, c, clk), rank) < OpenBuffers(cfg, ch, rank)
  {
    hide Issue;
    Runs.IssueFrame(cfg, table, ch, c, clk);
    Runs.IssueRows(cfg, table, ch, c, clk);
    var before, after := OpenBuffers(cfg, ch, rank), OpenBuffers(cfg, Issue(cfg, table, ch, c, clk), rank);
    if c.Rank() == rank && c.kind in {Precharge, PimPrecharge} {
      var id := IdOf(c.addr);
      assert id in ch.banks && !ch.banks[id].UpdateAborts(c);
      assert (id, c.kind == PimPrecharge) in before;
      assert (id, c.kind == PimPrecharge) !in after;
    }
  }

  /** While a rank's queues are held back, nothing selected from the queues addresses the rank. */
  lemma HeldRankIsLeftAlone(cfg: Config, table: TimingTable, structure: Structure, q: DQueue, ch: Channel, clk: int,
                            rank: int)
    requires ch.Valid(cfg) && ValidQueue(cfg, structure, q)
    requires q.isInRef && q.refQIndices == RefQIndices(cfg, structure, rank)
    ensures var s := GetCommandToIssue(cfg, structure, q, ch, clk);
      && ValidQueue(cfg, structure, s.q) && s.q.isInRef && s.q.refQIndices == q.refQIndices
      && (s.answer.Ready? ==>
            && cfg.Addressed(s.answer.cmd) && !UpdateAborts(ch, s.answer.cmd)
            && s.answer.cmd.kind in {Read, Write, Activate, Precharge, PimPrecharge}
            && s.answer.cmd.Rank() != rank)
  {
    NextIsIssuable(cfg, table, structure, q, ch, clk);
    var i, n := RoundRobinOrigin(cfg, structure, q, ch, clk, |q.queues|);
    if GetCommandToIssue(cfg, structure, q, ch, clk).answer.Ready? {
      var entry := q.queues[i][n];
      assert Entry(cfg, structure, entry, i);
      RefQIndicesCover(cfg, structure, entry.addr, rank);
    }
  }

  lemma OpenBufferHasOpenBank(cfg: Config, ch: Channel, rank: int)
    requires ch.Valid(cfg)
    ensures OpenBuffers(cfg, ch, rank) != {} ==> OpenBanks(cfg, ch, rank) != {}
  {
    if OpenBuffers(cfg, ch, rank) != {} {
      var b :| b in OpenBuffers(cfg, ch, rank);
      assert b.0 in OpenBanks(cfg, ch, rank);
    }
  }

  /** The first command of a cycle with a refresh pending. */
  lemma FirstCommandWithRefresh(cfg: Config, table: TimingTable, structure: Structure, w: World)
    requires Linked(cfg, structure, w) && w.ch.refreshQ != []
    ensures var s := FirstCommand(cfg, structure, w.q, w.ch, w.clk);
      var rank := w.ch.refreshQ[0].Rank();
      && ValidQueue(cfg, structure, s.q)
      && (s.answer.Ready? && s.answer.cmd.IsRefresh() ==>
            s.answer.cmd.Rank() == rank && OpenBuffers(cfg, w.ch, rank) == {} && !s.q.isInRef && s.q.refQIndices == {})
      && (!(s.answer.Ready? && s.answer.cmd.IsRefresh()) ==>
            s.q.isInRef && s.q.refQIndices == RefQIndices(cfg, structure, rank))
      && (s.answer.Ready? && !s.answer.cmd.IsRefresh() ==>
            && cfg.Addressed(s.answer.cmd) && !UpdateAborts(w.ch, s.answer.cmd)
            && s.answer.cmd.kind in {Read, Write, Activate, Precharge, PimPrecharge}
            && (s.answer.cmd.Rank() == rank ==> s.answer.cmd.kind in {Precharge, PimPrecharge}))
  {
    var ref := w.ch.refreshQ[0];
    var rank := ref.Rank();
    assert ref.IsRefresh() && cfg.Addressed(ref);
    FirstIsIssuable(cfg, table, structure, w.q, w.ch, w.clk);
    var s := FinishRefresh(cfg, structure, w.q, w.ch, w.clk);
    QueriesNeverAbort(cfg, w.ch, ref, w.clk);
    if s.answer.Ready? {
      RefreshAnswers(cfg, w.ch, ref, w.clk);
      if s.answer.cmd.IsRefresh() {
        OpenBufferHasOpenBank(cfg, w.ch, rank);
      }
    } else {
      HeldRankIsLeftAlone(cfg, table, structure, s.q, w.ch, w.clk, rank);
    }
  }

  /** Progress of one cycle towards the pending refresh of `rank`. */
  ghost predicate Progress(cfg: Config, structure: Structure, before: Channel, r: Cycle, rank: int)
    requires before.Valid(cfg) && r.ch.Valid(cfg)
  {
    && (r.second.Ready? ==> !r.second.cmd.IsRefresh())
    && if r.first.Ready? && r.first.cmd.IsRefresh() then
         r.first.cmd.Rank() == rank && OpenBuffers(cfg, before, rank) == {}
       else
         && r.q.isInRef && r.q.refQIndices == RefQIndices(cfg, structure, rank)
         && r.ch.refreshQ == before.refreshQ
         && OpenBuffers(cfg, r.ch, rank) <= OpenBuffers(cfg, before, rank)
         && (r.first.Ready? && r.first.cmd.Rank() == rank ==>
             OpenBuffers(cfg, r.ch, rank) < OpenBuffers(cfg, before, rank))
  }

  lemma CycleKeepsValid(cfg: Config, table: TimingTable, structure: Structure, dual: bool, q: DQueue, ch: Channel,
                        clk: int)
    requires ch.Valid(cfg) && ValidQueue(cfg, structure, q)
    ensures var r := RunCycle(cfg, table, structure, dual, q, ch, clk);
      r.ch.Valid(cfg) && ValidQueue(cfg, structure, r.q)
  {
    FirstIsIssuable(cfg, table, structure, q, ch, clk);
    var s := FirstCommand(cfg, structure, q, ch, clk);
    if s.answer.Ready? { NextIsIssuable(cfg, table, structure, s.q, Issue(cfg, table, ch, s.answer.cmd, clk), clk); }
  }

  lemma CycleProgress(cfg: Config, table: TimingTable, structure: Structure, dual: bool, w: World)
    requires Linked(cfg, structure, w) && w.ch.refreshQ != []
    ensures var r := RunCycle(cfg, table, structure, dual, w.q, w.ch, w.clk);
      r.ch.Valid(cfg) && Progress(cfg, structure, w.ch, r, w.ch.refreshQ[0].Rank())
  {
    hide GetCommandToIssue, FirstCommand, Issue, OpenBuffers;
    var rank := w.ch.refreshQ[0].Rank();
    CycleKeepsValid(cfg, table, structure, dual, w.q, w.ch, w.clk);
    FirstCommandWithRefresh(cfg, table, structure, w);
    var s := FirstCommand(cfg, structure, w.q, w.ch, w.clk);
    if s.answer.Ready? {
      FirstIsIssuable(cfg, table, structure, w.q, w.ch, w.clk);
      var ch1 := Issue(cfg, table, w.ch, s.answer.cmd, w.clk);
      NextIsIssuable(cfg, table, structure, s.q, ch1, w.clk);
      if !s.answer.cmd.IsRefresh() {
        IssueOnRank(cfg, table, w.ch, s.answer.cmd, w.clk, rank);
        HeldRankIsLeftAlone(cfg, table, structure, s.q, ch1, w.clk, rank);
        var s2 := GetCommandToIssue(cfg, structure, s.q, ch1, w.clk);
        if s2.answer.Ready? { IssueOnRank(cfg, table, ch1, s2.answer.cmd, w.clk, rank); }
      }
    }
  }

  // ---- runs ----

  ghost predicate Enters(cfg: Config, structure: Structure, size: nat, w: World, c: Command) {
    var i := QueueIndex(cfg, structure, c.addr);
    0 <= i < |w.q.queues| && Entry(cfg, structure, c, i) && |w.q.queues[i]| < size
  }

  function Step(cfg: Config, table: TimingTable, structure: Structure, dual: bool, size: nat, w: World,
                a: Action): World
    requires w.ch.Valid(cfg) && ValidQueue(cfg, structure, w.q)
  {
    match a
    case Tick(arrival) =>
      var r := RunCycle(cfg, table, structure, dual, w.q, Arrived(cfg, w.ch, arrival), w.clk);
      World(r.ch, r.q, w.clk + 1)
    case Add(c) =>
      var i := QueueIndex(cfg, structure, c.addr);
      if 0 <= i < |w.q.queues| && Entry(cfg, structure, c, i) && |w.q.queues[i]| < size
      then w.(q := w.q.(queues := w.q.queues[i := w.q.queues[i] + [c]])) else w
  }

  /** The step issues REFRESH. */
  ghost predicate Refreshes(cfg: Config, table: TimingTable, structure: Structure, dual: bool, w: World, a: Action)
    requires w.ch.Valid(cfg) && ValidQueue(cfg, structure, w.q)
  {
    a.Tick? && var r := RunCycle(cfg, table, structure, dual, w.q, Arrived(cfg, w.ch, a.arrival), w.clk);
    r.first.Ready? && r.first.cmd.IsRefresh()
  }

  lemma CommandsWithoutRefresh(cfg: Config, table: TimingTable, structure: Structure, dual: bool, q: DQueue,
                               ch: Channel, clk: int)
    requires ch.Valid(cfg) && ValidQueue(cfg, structure, q) && ch.refreshQ == []
    ensures var r := RunCycle(cfg, table, structure, dual, q, ch, clk);
      && r.ch.Valid(cfg) && ValidQueue(cfg, structure, r.q)
      && r.ch.refreshQ == [] && r.q.isInRef == q.isInRef && r.q.refQIndices == q.refQIndices
  {
    hide GetCommandToIssue, ValidQueue, UpdateAborts;
    CycleKeepsValid(cfg, table, structure, dual, q, ch, clk);
    NextIsIssuable(cfg, table, structure, q, ch, clk);
    var i := TakenFrom(cfg, structure, q, ch, clk);
    var s := GetCommandToIssue(cfg, structure, q, ch, clk);
    if s.answer.Ready? {
      var ch1 := Issue(cfg, table, ch, s.answer.cmd, clk);
      NextIsIssuable(cfg, table, structure, s.q, ch1, clk);
      i := TakenFrom(cfg, structure, s.q, ch1, clk);
    }
  }

  /** A step keeps the link between latch and refresh queue. */
  lemma StepKeepsLink(cfg: Config, table: TimingTable, structure: Structure, dual: bool, size: nat, w: World, a: Action)
    requires Linked(cfg, structure, w)
    ensures Linked(cfg, structure, Step(cfg, table, structure, dual, size, w, a))
  {
    if a.Tick? {
      var w1 := w.(ch := Arrived(cfg, w.ch, a.arrival));
      CycleKeepsValid(cfg, table, structure, dual, w1.q, w1.ch, w1.clk);
      if w1.ch.refreshQ == [] {
        CommandsWithoutRefresh(cfg, table, structure, dual, w1.q, w1.ch, w1.clk);
      } else {
        CycleProgress(cfg, table, structure, dual, w1);
        if Refreshes(cfg, table, structure, dual, w, a) {
          FirstCommandWithRefresh(cfg, table, structure, w1);
          RefreshLeavesUnlatched(cfg, table, structure, dual, w1);
        }
      }
    } else {
      AddKeepsEntries(cfg, structure, size, w, a.cmd);
    }
  }

  lemma AddKeepsEntries(cfg: Config, structure: Structure, size: nat, w: World, c: Command)
    requires ValidQueue(cfg, structure, w.q)
    ensures Enters(cfg, structure, size, w, c) ==>
      var i := QueueIndex(cfg, structure, c.addr);
      ValidQueue(cfg, structure, w.q.(queues := w.q.queues[i := w.q.queues[i] + [c]]))
  {
  }

  /** A cycle that refreshes leaves no latch behind, also if it issues a second command. */
  lemma RefreshLeavesUnlatched(cfg: Config, table: TimingTable, structure: Structure, dual: bool, w: World)
    requires Linked(cfg, structure, w) && w.ch.refreshQ != []
    requires var s := FirstCommand(cfg, structure, w.q, w.ch, w.clk); s.answer.Ready? && s.answer.cmd.IsRefresh()
    ensures var r := RunCycle(cfg, table, structure, dual, w.q, w.ch, w.clk); !r.q.isInRef && r.q.refQIndices == {}
  {
    hide GetReadyCommand, FirstCommand, Issue, RoundRobin;
    FirstCommandWithRefresh(cfg, table, structure, w);
    FirstIsIssuable(cfg, table, structure, w.q, w.ch, w.clk);
    var s := FirstCommand(cfg, structure, w.q, w.ch, w.clk);
    var ch1 := Issue(cfg, table, w.ch, s.answer.cmd, w.clk);
    var i, n := RoundRobinOrigin(cfg, structure, s.q, ch1, w.clk, |s.q.queues|);
  }

  ghost function Follow(cfg: Config, table: TimingTable, structure: Structure, dual: bool, size: nat, w: World,
                        actions: seq<Action>): (w': World)
    requires Linked(cfg, structure, w)
    ensures Linked(cfg, structure, w')
    decreases |actions|
  {
    if actions == [] then w
    else
      StepKeepsLink(cfg, table, structure, dual, size, w, actions[0]);
      Follow(cfg, table, structure, dual, size, Step(cfg, table, structure, dual, size, w, actions[0]), actions[1..])
  }

  ghost predicate NoRefreshIn(cfg: Config, table: TimingTable, structure: Structure, dual: bool, size: nat, w: World,
                              actions: seq<Action>)
    requires Linked(cfg, structure, w)
    decreases |actions|
  {
    actions == [] ||
      (StepKeepsLink(cfg, table, structure, dual, size, w, actions[0]);
       !Refreshes(cfg, table, structure, dual, w, actions[0])
       && NoRefreshIn(cfg, table, structure, dual, size, Step(cfg, table, structure, dual, size, w, actions[0]),
                      actions[1..]))
  }

  lemma LatchedStep(cfg: Config, table: TimingTable, structure: Structure, dual: bool, size: nat, w: World, a: Action,
                    rank: int)
    requires Latched(cfg, structure, w, rank) && !Refreshes(cfg, table, structure, dual, w, a)
    ensures var w' := Step(cfg, table, structure, dual, size, w, a);
      Latched(cfg, structure, w', rank) && OpenBuffers(cfg, w'.ch, rank) <= OpenBuffers(cfg, w.ch, rank)
  {
    StepKeepsLink(cfg, table, structure, dual, size, w, a);
    if a.Tick? {
      var w1 := w.(ch := Arrived(cfg, w.ch, a.arrival));
      assert w1.ch.refreshQ[0] == w.ch.refreshQ[0];
      CycleProgress(cfg, table, structure, dual, w1);
    }
  }

  /** Over any run from a latched refresh to before its REFRESH, no buffer of the rank opens and the latch holds. */
  lemma {:induction false} RefreshProgress(cfg: Config, table: TimingTable, structure: Structure, dual: bool, size: nat,
                                           w: World, actions: seq<Action>, rank: int)
    requires Latched(cfg, structure, w, rank) && NoRefreshIn(cfg, table, structure, dual, size, w, actions)
    ensures var w' := Follow(cfg, table, structure, dual, size, w, actions);
      Latched(cfg, structure, w', rank) && OpenBuffers(cfg, w'.ch, rank) <= OpenBuffers(cfg, w.ch, rank)
    decreases |actions|
  {
    if actions != [] {
      LatchedStep(cfg, table, structure, dual, size, w, actions[0], rank);
      RefreshProgress(cfg, table, structure, dual, size, Step(cfg, table, structure, dual, size, w, actions[0]),
                      actions[1..], rank);
    }
  }

  ghost function Start(cfg: Config, structure: Structure): (w: World)
    requires cfg.Valid()
    ensures Linked(cfg, structure, w)
  {
    Positive(cfg.bankgroups, cfg.banksPerGroup);
    Positive(cfg.ranks, cfg.bankgroups * cfg.banksPerGroup);
    World(Initial(cfg), EmptyQueue(cfg, structure), 0)
  }

  /** In every run, each cycle with a refresh pending closes a buffer of the rank if its first command addresses
      the rank, opens none, and issues REFRESH only when all of them are closed. */
  lemma EveryCycleProgresses(cfg: Config, table: TimingTable, structure: Structure, dual: bool, size: nat,
                             actions: seq<Action>, arrival: int)
    requires cfg.Valid()
    ensures var w := Follow(cfg, table, structure, dual, size, Start(cfg, structure), actions);
      var ch := Arrived(cfg, w.ch, arrival);
      ch.refreshQ != [] ==>
        var r := RunCycle(cfg, table, structure, dual, w.q, ch, w.clk);
        r.ch.Valid(cfg) && Progress(cfg, structure, ch, r, ch.refreshQ[0].Rank())
  {
    var w := Follow(cfg, table, structure, dual, size, Start(cfg, structure), actions);
    var w1 := w.(ch := Arrived(cfg, w.ch, arrival));
    if w1.ch.refreshQ != [] { CycleProgress(cfg, table, structure, dual, w1); }
  }
}
