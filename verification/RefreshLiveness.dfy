/** A waiting refresh issues within a bounded number of cycles, in every run. */
module RefreshLiveness {
  // The bound counts the rank's open buffers and the longest delay of a precharge or refresh. It needs that commands of
  // one rank put no such delay on another, as in the original's table, whose lists for other ranks name only commands
  // that move data.

  import opened Commands
  import opened Banks
  import opened Channels
  import opened Queues
  import opened DramQueue
  import opened RefreshProgress
  import TimingTables

  /** What a waiting refresh asks of a bank. */
  const CLOSING := {Precharge, PimPrecharge, Refresh}

  /** No command delays a precharge or a refresh of another rank. */
  ghost predicate RanksApart(table: TimingTable) {
    forall k, e | k in {Read, Write, Activate, Precharge} && e in table.otherRanks(k) :: e.0 !in CLOSING
  }

  /** The table the simulator computes keeps them apart. */
  lemma OriginalRanksApart(cfg: Config, p: TimingTables.Parameters)
    ensures RanksApart(TimingTables.TableOf(cfg, p))
  {
  }

  predicate Within(delays: Delays, longest: nat) { forall e <- delays :: e.0 in CLOSING ==> e.1 <= longest }

  /** No command the queue issues delays a precharge or a refresh by more than `longest`. */
  ghost predicate DelaysWithin(table: TimingTable, longest: nat) {
    forall k | k in {Read, Write, Activate, Precharge, PimPrecharge, Refresh} ::
      && Within(table.sameBank(k), longest) && Within(table.otherBanksSameBankgroup(k), longest)
      && Within(table.otherBankgroupsSameRank(k), longest) && Within(table.otherRanks(k), longest)
      && Within(table.sameRank(k), longest)
  }

  /** From `clk` on no delay keeps the rank from precharging or refreshing. */
  ghost predicate FreeFrom(ch: Channel, rank: int, clk: int) {
    forall id, kind | id in ch.banks && id.rank == rank && kind in CLOSING :: ch.banks[id].Earliest(kind) <= clk
  }

  // ---- without delays a refresh is answered ----

  lemma FreeBankAnswers(ch: Channel, id: BankId, ref: Command, clk: int)
    requires ref.IsRefresh() && id in ch.banks && id.rank == ref.Rank() && FreeFrom(ch, ref.Rank(), clk)
    ensures ch.banks[id].GetReady(ref, clk).Ready?
  {
    var b := ch.banks[id];
    assert b.Earliest(Precharge) <= clk && b.Earliest(PimPrecharge) <= clk && b.Earliest(Refresh) <= clk;
  }

  lemma FreeRankAnswers(cfg: Config, ch: Channel, ref: Command, clk: int)
    requires ch.Valid(cfg) && cfg.Addressed(ref) && ref.IsRefresh() && FreeFrom(ch, ref.Rank(), clk)
    ensures GetReadyCommand(cfg, ch, ref, clk).Ready?
  {
    hide Bank.GetReady, GetReadyCommand;
    forall id | id in ch.banks && Gated(ref, id) ensures ch.banks[id].GetReady(ref, clk).Ready? {
      FreeBankAnswers(ch, id, ref, clk);
    }
    QueryAnswers(cfg, ch, ref, clk);
  }

  // ---- what an issue delays ----

  lemma {:induction false} DelayedWithin(b: Bank, delays: Delays, clk: int, longest: nat, kind: CommandType)
    requires kind in CLOSING && Within(delays, longest)
    ensures Delayed(b, delays, clk).Earliest(kind) <= Max(b.Earliest(kind), clk + longest)
    ensures (forall e <- delays :: e.0 != kind) ==> Delayed(b, delays, clk).Earliest(kind) == b.Earliest(kind)
    decreases |delays|
  {
    if delays != [] {
      assert delays[0] in delays;
      DelayedWithin(b.UpdateTiming(delays[0].0, clk + delays[0].1), delays[1..], clk, longest, kind);
    }
  }

  lemma EntriesWithin(cfg: Config, table: TimingTable, c: Command, id: BankId, longest: nat)
    requires DelaysWithin(table, longest)
    requires c.kind in {Read, Write, Activate, Precharge, PimPrecharge, Refresh}
    ensures Within(Entries(cfg, table, c, id), longest)
    ensures RanksApart(table) && c.Rank() != id.rank ==> forall e <- Entries(cfg, table, c, id) :: e.0 !in CLOSING
  {
  }

  /** An issue puts the rank off by at most the longest delay, and not at all if it addresses another rank. */
  lemma IssueFrees(cfg: Config, table: TimingTable, ch: Channel, c: Command, clk: int, longest: nat, rank: int,
                   free: int)
    requires ch.Valid(cfg) && cfg.Addressed(c) && !UpdateAborts(ch, c) && DelaysWithin(table, longest)
    requires c.kind in {Read, Write, Activate, Precharge, PimPrecharge, Refresh} && FreeFrom(ch, rank, free)
    ensures FreeFrom(Issue(cfg, table, ch, c, clk), rank, Max(free, clk + longest))
    ensures RanksApart(table) && c.Rank() != rank ==> FreeFrom(Issue(cfg, table, ch, c, clk), rank, free)
  {
    hide Entries, Delayed, DelaysWithin, RanksApart, Within;
    var mid := UpdateState(ch, c);
    var ch' := Issue(cfg, table, ch, c, clk);
    forall id, kind | id in ch'.banks && id.rank == rank && kind in CLOSING
      ensures ch'.banks[id].Earliest(kind) <= Max(free, clk + longest)
      ensures RanksApart(table) && c.Rank() != rank ==> ch'.banks[id].Earliest(kind) <= free
    {
      EntriesWithin(cfg, table, c, id, longest);
      if Affects(c, id) { UpdateKeepsTiming(ch.banks[id], c); }
      assert ch.banks[id].Earliest(kind) <= free;
      DelayedWithin(mid.banks[id], Entries(cfg, table, c, id), clk, longest, kind);
    }
  }

  // ---- one cycle ----

  /** A cycle in which the waiting refresh does not issue: its first command closes a buffer of the rank, or the
      rank was not free yet; either way nothing else delays the rank. */
  lemma CycleFrees(cfg: Config, table: TimingTable, structure: Structure, dual: bool, w: World, longest: nat, free: int)
    requires Linked(cfg, structure, w) && w.ch.refreshQ != [] && RanksApart(table) && DelaysWithin(table, longest)
    requires var s := FirstCommand(cfg, structure, w.q, w.ch, w.clk); !(s.answer.Ready? && s.answer.cmd.IsRefresh())
    requires FreeFrom(w.ch, w.ch.refreshQ[0].Rank(), free)
    ensures var r := RunCycle(cfg, table, structure, dual, w.q, w.ch, w.clk);
      var rank := w.ch.refreshQ[0].Rank();
      if r.first.Ready? && r.first.cmd.Rank() == rank then FreeFrom(r.ch, rank, Max(free, w.clk + longest))
      else free > w.clk && FreeFrom(r.ch, rank, free)
  {
    hide GetCommandToIssue, FirstCommand, Issue, FreeFrom, RanksApart, DelaysWithin, UpdateAborts;
    var rank := w.ch.refreshQ[0].Rank();
    FirstCommandWithRefresh(cfg, table, structure, w);
    FirstIsIssuable(cfg, table, structure, w.q, w.ch, w.clk);
    if free <= w.clk { FreeMeansServed(cfg, structure, w, free); }
    var s := FirstCommand(cfg, structure, w.q, w.ch, w.clk);
    if s.answer.Ready? {
      var later := if s.answer.cmd.Rank() == rank then Max(free, w.clk + longest) else free;
      var ch1 := Issue(cfg, table, w.ch, s.answer.cmd, w.clk);
      IssueFrees(cfg, table, w.ch, s.answer.cmd, w.clk, longest, rank, free);
      NextIsIssuable(cfg, table, structure, s.q, ch1, w.clk);
      HeldRankIsLeftAlone(cfg, table, structure, s.q, ch1, w.clk, rank);
      var s2 := GetCommandToIssue(cfg, structure, s.q, ch1, w.clk);
      if s2.answer.Ready? { IssueFrees(cfg, table, ch1, s2.answer.cmd, w.clk, longest, rank, later); }
    }
  }

  lemma FreeSooner(ch: Channel, rank: int, free: int, clk: int)
    requires FreeFrom(ch, rank, free) && free <= clk
    ensures FreeFrom(ch, rank, clk)
  {
  }

  /** Once the rank is free, a cycle serves the waiting refresh first. */
  lemma FreeMeansServed(cfg: Config, structure: Structure, w: World, free: int)
    requires w.ch.Valid(cfg) && ValidQueue(cfg, structure, w.q) && w.ch.refreshQ != []
    requires FreeFrom(w.ch, w.ch.refreshQ[0].Rank(), free) && free <= w.clk
    ensures var answer := FirstCommand(cfg, structure, w.q, w.ch, w.clk).answer;
      answer.Ready? && answer.cmd.Rank() == w.ch.refreshQ[0].Rank()
  {
    hide GetCommandToIssue, GetReadyCommand, FreeFrom;
    var ref := w.ch.refreshQ[0];
    assert ref.IsRefresh() && cfg.Addressed(ref);
    FreeSooner(w.ch, ref.Rank(), free, w.clk);
    FreeRankAnswers(cfg, w.ch, ref, w.clk);
    RefreshAnswers(cfg, w.ch, ref, w.clk);
  }

  // ---- runs ----

  function Ticks(actions: seq<Action>): nat {
    if actions == [] then 0 else (if actions[0].Tick? then 1 else 0) + Ticks(actions[1..])
  }

  /** Cycles a refresh can wait with `open` buffers to close if the rank is free in `wait` cycles. */
  function Bound(wait: nat, open: nat, longest: nat): nat { wait + open * Max(longest, 1) }

  lemma BoundShrinks(wait: nat, open: nat, longest: nat, open': nat)
    requires open' <= open
    ensures wait > 0 ==> Bound(wait - 1, open', longest) < Bound(wait, open, longest)
    ensures open' < open ==> Bound(Max(Max(wait, longest) - 1, 0), open', longest) < Bound(wait, open, longest)
  {
    var m := Max(longest, 1);
    if open' < open { assert open' * m <= (open - 1) * m == open * m - m; }
    assert open' * m <= open * m;
  }

  lemma FewerBuffers(a: set<(BankId, bool)>, b: set<(BankId, bool)>)
    ensures a <= b ==> |a| <= |b|
    ensures a < b ==> |a| < |b|
  {
    if a <= b { assert |b| == |a| + |b - a| by { assert b == a + (b - a); } }
    if a < b { var x :| x in b && x !in a; assert x in b - a; }
  }

  /** As long as the waiting refresh has not issued, no more cycles have passed than the bound. */
  lemma {:induction false} WaitIsBounded(cfg: Config, table: TimingTable, structure: Structure, dual: bool, size: nat,
                                         w: World, actions: seq<Action>, rank: int, longest: nat, wait: nat)
    requires Linked(cfg, structure, w) && w.ch.refreshQ != [] && w.ch.refreshQ[0].Rank() == rank
    requires RanksApart(table) && DelaysWithin(table, longest) && FreeFrom(w.ch, rank, w.clk + wait)
    requires NoRefreshIn(cfg, table, structure, dual, size, w, actions)
    ensures Ticks(actions) <= Bound(wait, |OpenBuffers(cfg, w.ch, rank)|, longest)
    decreases |actions|
  {
    if actions != [] {
      var a := actions[0];
      StepKeepsLink(cfg, table, structure, dual, size, w, a);
      var w' := Step(cfg, table, structure, dual, size, w, a);
      var next := StepFrees(cfg, table, structure, dual, size, w, a, rank, longest, wait);
      WaitIsBounded(cfg, table, structure, dual, size, w', actions[1..], rank, longest, next);
    }
  }

  lemma CycleShrinks(cfg: Config, table: TimingTable, structure: Structure, dual: bool, w: World, rank: int,
                     longest: nat, wait: nat)
    returns (next: nat)
    requires Linked(cfg, structure, w) && w.ch.refreshQ != [] && w.ch.refreshQ[0].Rank() == rank
    requires RanksApart(table) && DelaysWithin(table, longest) && FreeFrom(w.ch, rank, w.clk + wait)
    requires var s := FirstCommand(cfg, structure, w.q, w.ch, w.clk); !(s.answer.Ready? && s.answer.cmd.IsRefresh())
    ensures var r := RunCycle(cfg, table, structure, dual, w.q, w.ch, w.clk);
      && r.ch.Valid(cfg) && r.ch.refreshQ == w.ch.refreshQ && FreeFrom(r.ch, rank, w.clk + 1 + next)
      && Bound(next, |OpenBuffers(cfg, r.ch, rank)|, longest) < Bound(wait, |OpenBuffers(cfg, w.ch, rank)|, longest)
  {
    hide Bound, OpenBuffers, FreeFrom, RanksApart, DelaysWithin, FirstCommand;
    CycleProgress(cfg, table, structure, dual, w);
    CycleFrees(cfg, table, structure, dual, w, longest, w.clk + wait);
    FirstOfCycle(cfg, table, structure, dual, w);
    var r := RunCycle(cfg, table, structure, dual, w.q, w.ch, w.clk);
    hide RunCycle;
    FewerBuffers(OpenBuffers(cfg, r.ch, rank), OpenBuffers(cfg, w.ch, rank));
    BoundShrinks(wait, |OpenBuffers(cfg, w.ch, rank)|, longest, |OpenBuffers(cfg, r.ch, rank)|);
    if r.first.Ready? && r.first.cmd.Rank() == rank {
      next := Max(Max(wait, longest) - 1, 0);
      FreeSooner(r.ch, rank, Max(w.clk + wait, w.clk + longest), w.clk + 1 + next);
    } else {
      next := wait - 1;
    }
  }

  lemma FirstOfCycle(cfg: Config, table: TimingTable, structure: Structure, dual: bool, w: World)
    requires w.ch.Valid(cfg) && ValidQueue(cfg, structure, w.q)
    ensures RunCycle(cfg, table, structure, dual, w.q, w.ch, w.clk).first
         == FirstCommand(cfg, structure, w.q, w.ch, w.clk).answer
  {
    hide FirstCommand, GetCommandToIssue, Issue;
  }

  lemma StepFrees(cfg: Config, table: TimingTable, structure: Structure, dual: bool, size: nat, w: World, a: Action,
                  rank: int, longest: nat, wait: nat)
    returns (next: nat)
    requires Linked(cfg, structure, w) && w.ch.refreshQ != [] && w.ch.refreshQ[0].Rank() == rank
    requires RanksApart(table) && DelaysWithin(table, longest) && FreeFrom(w.ch, rank, w.clk + wait)
    requires !Refreshes(cfg, table, structure, dual, w, a)
    ensures var w' := Step(cfg, table, structure, dual, size, w, a);
      && Linked(cfg, structure, w') && w'.ch.refreshQ != [] && w'.ch.refreshQ[0].Rank() == rank
      && FreeFrom(w'.ch, rank, w'.clk + next)
      && Bound(next, |OpenBuffers(cfg, w'.ch, rank)|, longest) + (if a.Tick? then 1 else 0)
         <= Bound(wait, |OpenBuffers(cfg, w.ch, rank)|, longest)
  {
    hide Linked, Bound, OpenBuffers, FreeFrom, RanksApart, DelaysWithin, FirstCommand, RunCycle;
    StepKeepsLink(cfg, table, structure, dual, size, w, a);
    next := wait;
    if a.Tick? {
      var w1 := w.(ch := Arrived(cfg, w.ch, a.arrival));
      ArrivedStillWaits(cfg, structure, w, a.arrival);
      LinkedIsValid(cfg, structure, w1);
      FirstOfCycle(cfg, table, structure, dual, w1);
      next := CycleShrinks(cfg, table, structure, dual, w1, rank, longest, wait);
    }
  }

  lemma LinkedIsValid(cfg: Config, structure: Structure, w: World)
    requires Linked(cfg, structure, w)
    ensures w.ch.Valid(cfg) && ValidQueue(cfg, structure, w.q)
  {
  }

  lemma ArrivedStillWaits(cfg: Config, structure: Structure, w: World, arrival: int)
    requires Linked(cfg, structure, w) && w.ch.refreshQ != []
    ensures var w1 := w.(ch := Arrived(cfg, w.ch, arrival));
      && Linked(cfg, structure, w1) && w1.ch.refreshQ != [] && w1.ch.refreshQ[0] == w.ch.refreshQ[0]
      && (forall rank, free :: FreeFrom(w1.ch, rank, free) == FreeFrom(w.ch, rank, free))
      && (forall rank :: OpenBuffers(cfg, w1.ch, rank) == OpenBuffers(cfg, w.ch, rank))
  {
  }

  /** No rank is ever put off by more than the longest delay. */
  lemma {:induction false} NeverLongPutOff(cfg: Config, table: TimingTable, structure: Structure, dual: bool, size: nat,
                                           w: World, actions: seq<Action>, rank: int, longest: nat)
    requires Linked(cfg, structure, w) && DelaysWithin(table, longest) && FreeFrom(w.ch, rank, w.clk + longest)
    ensures var w' := Follow(cfg, table, structure, dual, size, w, actions); FreeFrom(w'.ch, rank, w'.clk + longest)
    decreases |actions|
  {
    if actions != [] {
      StepKeepsLink(cfg, table, structure, dual, size, w, actions[0]);
      var w' := Step(cfg, table, structure, dual, size, w, actions[0]);
      StepPutsOff(cfg, table, structure, dual, size, w, actions[0], rank, longest);
      NeverLongPutOff(cfg, table, structure, dual, size, w', actions[1..], rank, longest);
    }
  }

  lemma ArrivedIsFree(cfg: Config, ch: Channel, arrival: int, rank: int, free: int)
    requires FreeFrom(ch, rank, free)
    ensures FreeFrom(Arrived(cfg, ch, arrival), rank, free)
  {
  }

  lemma StepPutsOff(cfg: Config, table: TimingTable, structure: Structure, dual: bool, size: nat, w: World, a: Action,
                    rank: int, longest: nat)
    requires Linked(cfg, structure, w) && DelaysWithin(table, longest) && FreeFrom(w.ch, rank, w.clk + longest)
    ensures var w' := Step(cfg, table, structure, dual, size, w, a); FreeFrom(w'.ch, rank, w'.clk + longest)
  {
    hide FirstCommand, GetCommandToIssue, Issue, DelaysWithin, FreeFrom;
    if a.Tick? {
      var ch, clk, free := Arrived(cfg, w.ch, a.arrival), w.clk, w.clk + longest;
      ArrivedIsFree(cfg, w.ch, a.arrival, rank, free);
      FirstIsIssuable(cfg, table, structure, w.q, ch, clk);
      var s := FirstCommand(cfg, structure, w.q, ch, clk);
      if s.answer.Ready? {
        IssueFrees(cfg, table, ch, s.answer.cmd, clk, longest, rank, free);
        var ch1 := Issue(cfg, table, ch, s.answer.cmd, clk);
        NextIsIssuable(cfg, table, structure, s.q, ch1, clk);
        var s2 := GetCommandToIssue(cfg, structure, s.q, ch1, clk);
        if s2.answer.Ready? { IssueFrees(cfg, table, ch1, s2.answer.cmd, clk, longest, rank, free); }
      }
      FreeSooner(Step(cfg, table, structure, dual, size, w, a).ch, rank, free, free + 1);
    }
  }

  /** In every run, whatever else arrives, a refresh at the front of the refresh queue has issued once more cycles have
      passed than the longest delay taken once and again for each open buffer of its rank. */
  lemma RefreshIsPrompt(cfg: Config, table: TimingTable, structure: Structure, dual: bool, size: nat,
                        actions: seq<Action>, more: seq<Action>, longest: nat)
    requires cfg.Valid() && RanksApart(table) && DelaysWithin(table, longest)
    ensures var w := Follow(cfg, table, structure, dual, size, Start(cfg, structure), actions);
      w.ch.refreshQ != []
        && Ticks(more) > Bound(longest, |OpenBuffers(cfg, w.ch, w.ch.refreshQ[0].Rank())|, longest) ==>
        !NoRefreshIn(cfg, table, structure, dual, size, w, more)
  {
    var w := Follow(cfg, table, structure, dual, size, Start(cfg, structure), actions);
    if w.ch.refreshQ != [] && NoRefreshIn(cfg, table, structure, dual, size, w, more) {
      var rank := w.ch.refreshQ[0].Rank();
      NeverLongPutOff(cfg, table, structure, dual, size, Start(cfg, structure), actions, rank, longest);
      WaitIsBounded(cfg, table, structure, dual, size, w, more, rank, longest, longest);
    }
  }
}
