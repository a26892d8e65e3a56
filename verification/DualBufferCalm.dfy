/** Runs that never reach the exit of the NeuPIMs queue. */
module DualBufferCalm {
  // With one rank, or as long as no refresh arrives, every open PIM row is the reserved one, or the header that
  // reserved another row still waits at the head. No admitted run of either kind trips the assertion.

  import opened Commands
  import opened Banks
  import opened Channels
  import opened Queues
  import opened NeuPims
  import opened DualBuffer
  import opened DualBufferExit
  import Runs = ChannelRuns

  /** Every open PIM row is `row`. */
  ghost predicate Covered(ch: Channel, row: int) {
    forall id | id in ch.banks && ch.banks[id].pim.Open? :: ch.banks[id].pim.row == row
  }

  /** The header that made the reservation still waits at the head. */
  predicate HeaderPending(q: NQueue) {
    q.pimQueue != [] && q.pimQueue[0].IsPimHeader() && q.reservedRow == q.pimQueue[0].Row() && !q.isGwriting
  }

  ghost predicate AllWithheld(q: NQueue) { forall i | 0 <= i < |q.queues| :: i in q.refQIndices }

  /** A refresh waits or is latched only with a single rank, and then it holds back every queue. */
  ghost predicate Undisturbed(cfg: Config, ch: Channel, q: NQueue) {
    && (ch.refreshQ != [] || q.isInRef ==> cfg.ranks == 1)
    && (q.isInRef ==> AllWithheld(q))
  }

  predicate Spent(q: NQueue) { q.skipPim ==> q.remainSlack <= 0 }

  ghost predicate Calm(cfg: Config, structure: Structure, w: World) {
    && Inv(cfg, structure, w)
    && Undisturbed(cfg, w.ch, w.q)
    && Spent(w.q)
    && (Covered(w.ch, w.q.reservedRow) || HeaderPending(w.q))
  }

  /** No refresh arrives, or the channel has one rank. */
  predicate NoForeignRefresh(cfg: Config, a: Action) {
    cfg.ranks == 1 || (a.Cycle? ==> !(0 <= a.arrival < cfg.ranks))
  }

  lemma StartIsCalm(cfg: Config, structure: Structure)
    requires cfg.Valid()
    ensures Calm(cfg, structure, Start(cfg, structure))
  {
    StartIsSafe(cfg, structure);
  }

  // ---- a calm cycle does not exit ----

  /** While a header is not ready, no bank could go ahead with a precharge for it. */
  lemma {:induction false} ScanNotReady(cfg: Config, ch: Channel, cmd: Command, clk: int, iHi: int, i: int, j: int,
                                        k: int,
                                        ready: int, total: int, last: Command, id: BankId)
    requires ch.Valid(cfg) && id in ch.banks && Pending(cfg, iHi, i, j, k, id)
    requires 0 <= i <= iHi <= cfg.ranks && 0 <= j <= cfg.bankgroups && 0 <= k <= cfg.banksPerGroup
    requires Scan(cfg, ch, cmd, clk, iHi, i, j, k, ready, total, last) == NotReady
    ensures ch.banks[id].GetReady(cmd, clk).Ready? ==> ch.banks[id].GetReady(cmd, clk).cmd.kind == cmd.kind
    decreases iHi - i, cfg.bankgroups - j, cfg.banksPerGroup - k
  {
    hide Bank.GetReady;
    if j == cfg.bankgroups {
      ScanNotReady(cfg, ch, cmd, clk, iHi, i + 1, 0, 0, ready, total, last, id);
    } else if k == cfg.banksPerGroup {
      ScanNotReady(cfg, ch, cmd, clk, iHi, i, j + 1, 0, ready, total, last, id);
    } else if id != BankId(i, j, k) {
      var own := ch.banks[BankId(i, j, k)].GetReady(cmd, clk);
      if own == NotReady {
        ScanNotReady(cfg, ch, cmd, clk, iHi, i, j, k + 1, ready, total, last, id);
      } else {
        ScanNotReady(cfg, ch, cmd, clk, iHi, i, j, k + 1, ready + 1, total, own.cmd, id);
      }
    }
  }

  lemma WaitingHeaderBlocks(cfg: Config, ch: Channel, header: Command, c: Command, clk: int)
    requires ch.Valid(cfg) && header.IsPimHeader() && cfg.Has(IdOf(c.addr)) && c.IsReadWrite()
    requires GetReadyCommand(cfg, ch, header, clk) == NotReady && NeedsPimPrecharge(cfg, ch, clk, c)
    ensures c.Row() == header.Row()
  {
    var id := IdOf(c.addr);
    assert id in ch.banks;
    NeedsOwnRow(cfg, ch, c, clk);
    ScanNotReady(cfg, ch, header, clk, cfg.ranks, 0, 0, 0, 0, cfg.ranks * (cfg.bankgroups * cfg.banksPerGroup),
                 NO_COMMAND, id);
  }

  /** PIM_PRECHARGE is needed when the wanted row is in the PIM buffer. */
  lemma NeedsOwnRow(cfg: Config, ch: Channel, c: Command, clk: int)
    requires ch.Valid(cfg) && cfg.Has(IdOf(c.addr)) && c.IsReadWrite() && NeedsPimPrecharge(cfg, ch, clk, c)
    ensures IdOf(c.addr) in ch.banks
    ensures ch.banks[IdOf(c.addr)].pim == Open(c.Row()) && clk >= ch.banks[IdOf(c.addr)].Earliest(PimPrecharge)
  {
  }

  /** What a round starts with when PIM work waits, slack is left and no refresh is latched. */
  lemma RoundAfterPim(cfg: Config, structure: Structure, q: NQueue, ch: Channel, clk: int, remain: int, latency: int)
    requires ch.Valid(cfg) && ValidQueue(cfg, structure, q) && Spent(q) && !q.isInRef
    requires Covered(ch, q.reservedRow) || HeaderPending(q)
    ensures var start := StartAfterPim(cfg, structure, q, ch, clk, remain, latency);
      start.Round? && start.q.pimQueue != [] && start.q.remainSlack > 0 ==>
        || Covered(ch, start.q.reservedRow)
        || (HeaderPending(start.q) && GetReadyCommand(cfg, ch, start.q.pimQueue[0], clk) == NotReady)
  {
    hide GetReadyCommand, Covered;
    if q.pimQueue != [] { assert PimEntry(cfg, q.pimQueue[0]); }
  }

  lemma CalmNeverExits(cfg: Config, structure: Structure, w: World, a: Action)
    requires Calm(cfg, structure, w) && a.Cycle? && NoForeignRefresh(cfg, a)
    ensures Selected(cfg, structure, w, a) != Abort
  {
    hide GetReadyCommand, CycleSelection, PassedOver, AllPassedOver, StartAfterPim;
    ExitExactly(cfg, structure, w, a);
    if Selected(cfg, structure, w, a) == Abort {
      var ch := Arrived(cfg, w.ch, a.arrival);
      var start := StartOfRound(cfg, structure, w.q, ch, w.clk, a.remainToRefresh, a.latency);
      var q := start.q;
      var t :| 1 <= t <= |q.queues| && ExitsAtTurn(cfg, structure, q, ch, w.clk, t);
      var i := Turn(q.queueIdx, |q.queues|, t);
      var m :| 0 <= m < |q.queues[i]| && Trips(cfg, q, ch, w.clk, q.queues[i][m]);
      assert NormalEntry(cfg, structure, q.queues[i][m], i);
      RefreshWithholds(cfg, structure, w.q, ch, w.clk, a.remainToRefresh, a.latency);
      RoundAfterPim(cfg, structure, w.q, ch, w.clk, a.remainToRefresh, a.latency);
      NeedsOwnRow(cfg, ch, q.queues[i][m], w.clk);
      if !Covered(ch, q.reservedRow) { WaitingHeaderBlocks(cfg, ch, q.pimQueue[0], q.queues[i][m], w.clk); }
    }
  }

  /** A round that starts with a refresh waiting has every queue withheld. */
  lemma RefreshWithholds(cfg: Config, structure: Structure, q: NQueue, ch: Channel, clk: int, remain: int, latency: int)
    requires ch.Valid(cfg) && ValidQueue(cfg, structure, q) && Undisturbed(cfg, ch, q)
    ensures var start := StartOfRound(cfg, structure, q, ch, clk, remain, latency);
      start.Round? && (ch.refreshQ != [] || q.isInRef) ==> start.q.isInRef && AllWithheld(start.q)
  {
    hide GetReadyCommand;
    if ch.refreshQ != [] {
      assert ch.refreshQ[0].IsRefresh() && cfg.Addressed(ch.refreshQ[0]);
      OnlyRankCovers(cfg, structure);
    }
  }

  lemma OnlyRankCovers(cfg: Config, structure: Structure)
    requires cfg.Valid() && cfg.ranks == 1
    ensures forall i | 0 <= i < NumQueues(cfg, structure) :: i in RefQIndices(cfg, structure, 0)
  {
    if structure.PerBank? {
      var banks := cfg.bankgroups * cfg.banksPerGroup;
      forall i | 0 <= i < NumQueues(cfg, structure) ensures RankOf(cfg, structure, i) == 0 {
        Quotient(0, banks, i);
      }
    }
  }

  // ---- calm is kept ----

  predicate ConsumesHeader(answer: Answer) { answer.Ready? && answer.cmd.IsPimHeader() }

  /** What a selection does to the reservation and the latch when no refresh issues. */
  ghost predicate KeepsReservation(q: NQueue, q': NQueue, answer: Answer) {
    && |q'.queues| == |q.queues|
    && (Spent(q) ==> Spent(q'))
    && (!ConsumesHeader(answer) ==>
          && (q'.reservedRow == q.reservedRow || HeaderPending(q'))
          && (HeaderPending(q) ==> HeaderPending(q')))
  }

  lemma {:induction false} FirstReadySpends(cfg: Config, structure: Structure, q: NQueue, ch: Channel, clk: int,
                                            queue: seq<Command>, idx: int, n: int)
    requires ch.Valid(cfg) && ValidNormal(cfg, structure, queue, idx) && 0 <= n <= |queue|
    ensures q.remainSlack <= 0 ==> FirstReady(cfg, structure, q, ch, clk, queue, idx, n).1 <= 0
    decreases |queue| - n
  {
    hide GetReadyCommand, ArbitratePrecharge, HasRWDependency;
    if n < |queue| { FirstReadySpends(cfg, structure, q, ch, clk, queue, idx, n + 1); }
  }

  lemma {:induction false} RoundSpends(cfg: Config, structure: Structure, q: NQueue, ch: Channel, clk: int, left: nat)
    requires ch.Valid(cfg) && ValidQueue(cfg, structure, q)
    ensures var s := RoundRobin(cfg, structure, q, ch, clk, left);
      && (q.remainSlack <= 0 ==> s.q.remainSlack <= 0)
      && s.q.refQIndices == q.refQIndices && |s.q.queues| == |q.queues|
    decreases left
  {
    hide FirstReady;
    if left > 0 {
      var q1 := q.(queueIdx := NextIndex(q.queueIdx, |q.queues|));
      FirstReadySpends(cfg, structure, q1, ch, clk, q1.queues[q1.queueIdx], q1.queueIdx, 0);
      RoundSpends(cfg, structure, q1, ch, clk, left - 1);
    }
  }

  lemma PimStageKeeps(cfg: Config, structure: Structure, q: NQueue, ch: Channel, clk: int, remain: int, latency: int)
    requires ch.Valid(cfg) && ValidQueue(cfg, structure, q)
    ensures var s := GetCommandToIssue(cfg, structure, q, ch, clk, remain, latency);
      && KeepsReservation(q, s.q, s.answer) && s.q.isInRef == q.isInRef && s.q.refQIndices == q.refQIndices
      && (s.answer.Ready? ==> !s.answer.cmd.IsRefresh())
  {
    hide GetReadyCommand, RoundRobin;
    if !q.skipPim && q.pimQueue != [] && !q.isInRef {
      assert PimEntry(cfg, q.pimQueue[0]);
      var s := ReadyInPim(cfg, q, ch, clk, remain, latency);
      ReadyInPimShape(cfg, structure, q, ch, clk, remain, latency);
      RoundRobinShape(cfg, structure, s.q, ch, clk);
      RoundSpends(cfg, structure, s.q, ch, clk, |s.q.queues|);
      if s.answer.Ready? { PimQueueKinds(cfg, ch, clk, q.pimQueue[0], s.answer.cmd); }
    } else {
      RoundRobinShape(cfg, structure, q, ch, clk);
      RoundSpends(cfg, structure, q, ch, clk, |q.queues|);
    }
  }

  lemma CycleKeepsQueueCalm(cfg: Config, structure: Structure, q: NQueue, ch: Channel, clk: int, remain: int,
                            latency: int)
    requires ch.Valid(cfg) && ValidQueue(cfg, structure, q) && Undisturbed(cfg, ch, q)
    ensures var s := CycleSelection(cfg, structure, q, ch, clk, remain, latency);
      && (s.q.isInRef ==> cfg.ranks == 1 && AllWithheld(s.q))
      && (if s.answer.Ready? && s.answer.cmd.IsRefresh() then cfg.ranks == 1 && Spent(s.q)
          else KeepsReservation(q, s.q, s.answer))
  {
    hide GetReadyCommand, GetCommandToIssue;
    if ch.refreshQ == [] {
      PimStageKeeps(cfg, structure, q, ch, clk, remain, latency);
    } else {
      assert ch.refreshQ[0].IsRefresh() && cfg.Addressed(ch.refreshQ[0]);
      OnlyRankCovers(cfg, structure);
      var s := FinishRefresh(cfg, structure, q, ch, clk);
      PimStageKeeps(cfg, structure, s.q, ch, clk, remain, latency);
      if s.answer.Ready? { PimQueueKinds(cfg, ch, clk, ch.refreshQ[0], s.answer.cmd); }
    }
  }

  /** An issue opens PIM rows only by a group activation. */
  lemma IssueKeepsCovered(cfg: Config, table: TimingTable, ch: Channel, c: Command, clk: int, row: int)
    requires ch.Valid(cfg) && cfg.Addressed(c) && !UpdateAborts(ch, c)
    requires Covered(ch, row) || (c.IsRefresh() && cfg.ranks == 1)
    requires c.kind == GAct ==> c.Row() == row
    ensures Covered(Issue(cfg, table, ch, c, clk), row)
  {
    Runs.IssueRows(cfg, table, ch, c, clk);
    hide Issue;
    if c.IsRefresh() && cfg.ranks == 1 {
      forall id | id in ch.banks ensures ch.banks[id].pim.Closed? {
        assert Affects(c, id) && !ch.banks[id].UpdateAborts(c);
      }
    }
  }

  lemma IssueKeepsRefreshes(cfg: Config, table: TimingTable, ch: Channel, c: Command, clk: int)
    requires ch.Valid(cfg) && cfg.Addressed(c) && !UpdateAborts(ch, c)
    ensures Issue(cfg, table, ch, c, clk).refreshQ != [] ==> ch.refreshQ != []
  {
    hide Entries, Delayed;
  }

  lemma CycleKeepsUndisturbed(cfg: Config, table: TimingTable, structure: Structure, size: nat, w: World, a: Action)
    requires Calm(cfg, structure, w) && a.Cycle? && NoForeignRefresh(cfg, a)
    ensures var w' := Step(cfg, table, structure, size, w, a); Undisturbed(cfg, w'.ch, w'.q) && Spent(w'.q)
  {
    hide CycleSelection, UpdateAborts, AllWithheld, ValidQueue, StreamOk, HeaderPending, Covered, Exclusive, Reserved;
    var ch := Arrived(cfg, w.ch, a.arrival);
    CycleKeepsQueueCalm(cfg, structure, w.q, ch, w.clk, a.remainToRefresh, a.latency);
    SelectedIsIssuable(cfg, structure, w.q, ch, w.clk, a.remainToRefresh, a.latency);
    var answer := Selected(cfg, structure, w, a);
    if answer.Ready? && !answer.cmd.IsPimHeader() { IssueKeepsRefreshes(cfg, table, ch, answer.cmd, w.clk); }
    hide Issue;
  }

  /** A cycle keeps the open PIM rows on the reserved row, or the header that reserves another one at the head. */
  lemma CycleKeepsCoverage(cfg: Config, table: TimingTable, structure: Structure, size: nat, w: World, a: Action)
    requires Calm(cfg, structure, w) && a.Cycle? && NoForeignRefresh(cfg, a)
    ensures var w' := Step(cfg, table, structure, size, w, a); Covered(w'.ch, w'.q.reservedRow) || HeaderPending(w'.q)
  {
    hide CycleSelection, UpdateAborts, AllWithheld, ValidQueue, StreamOk, HeaderPending, Exclusive, Reserved, Issue;
    var ch := Arrived(cfg, w.ch, a.arrival);
    CycleKeepsQueueCalm(cfg, structure, w.q, ch, w.clk, a.remainToRefresh, a.latency);
    SelectedIsIssuable(cfg, structure, w.q, ch, w.clk, a.remainToRefresh, a.latency);
    CoveredArrived(cfg, w.ch, a.arrival, w.q.reservedRow);
    hide Covered, Arrived;
    var answer := Selected(cfg, structure, w, a);
    if answer.Ready? {
      var c := answer.cmd;
      SelectedInPhase(cfg, structure, w, a);
      var s := CycleSelection(cfg, structure, w.q, ch, w.clk, a.remainToRefresh, a.latency);
      if c.IsPimHeader() {
        HeaderCovers(cfg, structure, w, a);
      } else if c.IsRefresh() || (Covered(ch, w.q.reservedRow) && s.q.reservedRow == w.q.reservedRow) {
        IssueKeepsCovered(cfg, table, ch, c, w.clk, s.q.reservedRow);
      }
    }
  }

  lemma CoveredArrived(cfg: Config, ch: Channel, rank: int, row: int)
    ensures Covered(Arrived(cfg, ch, rank), row) <==> Covered(ch, row)
  {
  }

  /** A consumed header leaves every open PIM row on its own row, which is the one reserved. */
  lemma HeaderCovers(cfg: Config, structure: Structure, w: World, a: Action)
    requires Inv(cfg, structure, w) && a.Cycle? && ConsumesHeader(Selected(cfg, structure, w, a))
    ensures var ch := Arrived(cfg, w.ch, a.arrival);
      var s := CycleSelection(cfg, structure, w.q, ch, w.clk, a.remainToRefresh, a.latency);
      Covered(ch, s.q.reservedRow)
  {
    hide CycleSelection;
    var ch := Arrived(cfg, w.ch, a.arrival);
    CycleOrigin(cfg, structure, w.q, ch, w.clk, a.remainToRefresh, a.latency);
    HeaderReserves(cfg, ch, w.clk, SourceOf(cfg, structure, w, a), Selected(cfg, structure, w, a).cmd);
  }

  lemma StepKeepsCalm(cfg: Config, table: TimingTable, structure: Structure, size: nat, w: World, a: Action)
    requires Calm(cfg, structure, w) && Admissible(cfg, structure, size, w, a) && NoForeignRefresh(cfg, a)
    ensures Calm(cfg, structure, Step(cfg, table, structure, size, w, a))
  {
    StepKeepsInv(cfg, table, structure, size, w, a);
    if a.Cycle? {
      CycleKeepsUndisturbed(cfg, table, structure, size, w, a);
      CycleKeepsCoverage(cfg, table, structure, size, w, a);
      hide Step, Undisturbed, Covered, HeaderPending, Inv;
    }
  }

  // ---- the claim over runs ----

  lemma {:induction false} RunsStayCalm(cfg: Config, table: TimingTable, structure: Structure, size: nat,
                                        actions: seq<Action>)
    requires cfg.Valid() && Admitted(cfg, table, structure, size, actions)
    requires forall a <- actions :: NoForeignRefresh(cfg, a)
    ensures Calm(cfg, structure, Exec(cfg, table, structure, size, actions))
    decreases |actions|
  {
    hide Calm, Step, Admissible;
    if actions == [] {
      StartIsCalm(cfg, structure);
    } else {
      var before := actions[..|actions| - 1];
      RunsStayCalm(cfg, table, structure, size, before);
      StepKeepsCalm(cfg, table, structure, size, Exec(cfg, table, structure, size, before), actions[|actions| - 1]);
    }
  }

  /** An admitted run never reaches the exit if the channel has one rank or no refresh arrives. */
  lemma NeverExits(cfg: Config, table: TimingTable, structure: Structure, size: nat, actions: seq<Action>, a: Action)
    requires cfg.Valid() && Admitted(cfg, table, structure, size, actions) && a.Cycle?
    requires cfg.ranks == 1 || forall b <- actions + [a] :: b.Cycle? ==> !(0 <= b.arrival < cfg.ranks)
    ensures Selected(cfg, structure, Exec(cfg, table, structure, size, actions), a) != Abort
  {
    assert a in actions + [a];
    forall b <- actions ensures NoForeignRefresh(cfg, b) { assert b in actions + [a]; }
    hide Calm;
    RunsStayCalm(cfg, table, structure, size, actions);
    CalmNeverExits(cfg, structure, Exec(cfg, table, structure, size, actions), a);
  }
}
