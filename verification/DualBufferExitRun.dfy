/** Runs into the exit of the NeuPIMs queue. */
module DualBufferExitRun {
  // With more than one rank, whatever the structure and the estimates: a header and its compute open every PIM buffer
  // on row 7; the first refresh drops the reservation and closes rank 0 only. A GWRITE of rank 0 then sets the slack
  // and activates its row. While it waits, or while a header waits for it to be done, a read of row 7 in rank 1 needs
  // PIM_PRECHARGE.

  import opened Commands
  import opened Banks
  import opened Channels
  import opened Queues
  import opened NeuPims
  import opened DualBuffer
  import opened DualBufferDriven
  import opened DualBufferReach
  import opened DualBufferExit
  import opened Refreshes
  import DualBufferCalm
  import Runs = ChannelRuns

  const HEADER7 := Command(PHeader, Address(0, -1, 0, 0, 7, 0), 1, false, 1)
  const COMPUTE := Command(CompsReadres, Address(0, -1, -1, -1, 7, 1), 2, true, 1)
  const GWRITE := Command(Gwrite, Address(0, 0, 0, 0, 3, 0), 3, false, 0)
  const HEADER9 := Command(PHeader, Address(0, -1, 0, 0, 9, 0), 4, false, 1)
  const READ := Command(Read, Address(0, 1, 0, 0, 7, 0), 5, false, 0)
  const REFRESH := RefreshCommand(0)
  const A := BankId(0, 0, 0)
  const B := BankId(1, 0, 0)

  ghost predicate NormalClosed(ch: Channel) { forall id <- ch.banks :: ch.banks[id].normal.Closed? }

  ghost predicate NoActivations(cfg: Config, ch: Channel)
    requires ch.Valid(cfg)
  {
    forall r | 0 <= r < cfg.ranks :: ch.fourAw[r] == [] && ch.thirtyTwoAw[r] == []
  }

  /** Every PIM buffer of the rank holds row 7. */
  ghost predicate PimOpen(ch: Channel, rank: int) {
    forall id | id in ch.banks && id.rank == rank :: ch.banks[id].pim == Open(7)
  }

  /** The bank groups, by rank, with a closed PIM buffer. */
  ghost function Shut(ch: Channel): set<(int, int)> {
    set id | id in ch.banks && ch.banks[id].pim.Closed? :: (id.rank, id.bankgroup)
  }

  /** The banks of rank 0 with an open PIM buffer. */
  ghost function OpenInFirst(ch: Channel): set<(int, int)> {
    set id | id in ch.banks && id.rank == 0 && ch.banks[id].pim.Open? :: (id.bankgroup, id.bank)
  }

  /** What an issue other than an activation or a refresh leaves alone. */
  lemma IssueKeeps(s: Setup, ch: Channel, req: Command, c: Command, clk: int, longest: nat, free: int)
    requires s.Valid() && ch.Valid(s.cfg) && s.cfg.Addressed(c) && !UpdateAborts(ch, c)
    requires Serves(s.cfg, ch, clk, req, c) && 0 <= req.numComps <= 6
    requires Within(s.cfg, s.table, ANY, ANY, longest) && FreeFrom(ch, ANY, free) && free <= clk + longest
    ensures var ch' := Issue(s.cfg, s.table, ch, c, clk);
      && ch'.Valid(s.cfg) && ch'.banks.Keys == ch.banks.Keys
      && FreeFrom(ch', ANY, clk + longest)
      && (!c.IsRefresh() ==> ch'.refreshQ == ch.refreshQ)
      && (c.kind != Activate && NoActivations(s.cfg, ch) ==> NoActivations(s.cfg, ch'))
  {
    ServesComps(s.cfg, ch, clk, req, c);
    WithinFewer(s.cfg, s.table, {c.kind}, ANY, longest);
    IssueFree(s.cfg, s.table, ch, c, clk, ANY, longest, free);
    Runs.IssueFrame(s.cfg, s.table, ch, c, clk);
    Runs.IssueKeepsValid(s.cfg, s.table, ch, c, clk);
    hide Issue, UpdateAborts, Within, FreeFrom;
    forall r | 0 <= r < s.cfg.ranks
      ensures var ch' := Issue(s.cfg, s.table, ch, c, clk);
        c.kind != Activate ==> ch'.fourAw[r] == ch.fourAw[r] && ch'.thirtyTwoAw[r] == ch.thirtyTwoAw[r]
    {
      Runs.IssueWindows(s.cfg, s.table, ch, c, clk, r);
    }
  }

  lemma WithinFewer(cfg: Config, table: TimingTable, issued: set<CommandType>, delayed: set<CommandType>, longest: nat)
    requires Within(cfg, table, ANY, ANY, longest)
    ensures Within(cfg, table, issued, delayed, longest)
  {
    hide Entries;
    forall kind ensures kind in ANY { AnyIsAll(kind); }
    forall c: Command, id, e | c.numComps <= 6 && c.kind in issued && e in Entries(cfg, table, c, id) && e.0 in delayed
      ensures e.1 <= longest
    {
      assert c.kind in ANY && e.0 in ANY;
    }
  }

  /** Cycles that `n` issues and the waits before them take. */
  function Budget(n: nat, longest: nat): (cycles: nat)
    ensures cycles >= 1
  {
    1 + n * (longest + 1)
  }

  lemma BudgetStep(n: nat, m: nat, longest: nat)
    requires m < n
    ensures Budget(m, longest) + longest + 1 <= Budget(n, longest)
  {
    assert m * (longest + 1) <= (n - 1) * (longest + 1) == n * (longest + 1) - (longest + 1);
  }

  lemma Fewer(a: set<(int, int)>, b: set<(int, int)>)
    requires a < b
    ensures |a| < |b|
  {
    assert b == a + (b - a);
    var x :| x in b && x !in a;
    assert x in b - a;
  }

  lemma {:induction false} InGrid(pairs: set<(int, int)>, rows: nat, columns: nat)
    requires forall p <- pairs :: 0 <= p.0 < rows && 0 <= p.1 < columns
    ensures |pairs| <= rows * columns
    decreases rows
  {
    if rows == 0 {
      assert pairs == {};
    } else {
      var last, rest := set p <- pairs | p.0 == rows - 1, set p <- pairs | p.0 < rows - 1;
      InGrid(rest, rows - 1, columns);
      InRow(last, rows - 1, columns);
      assert pairs == last + rest;
      assert rows * columns == (rows - 1) * columns + columns;
    }
  }

  lemma {:induction false} InRow(pairs: set<(int, int)>, row: int, columns: nat)
    requires forall p <- pairs :: p.0 == row && 0 <= p.1 < columns
    ensures |pairs| <= columns
    decreases columns
  {
    if columns == 0 {
      assert pairs == {};
    } else {
      var rest := pairs - {(row, columns - 1)};
      InRow(rest, row, columns - 1);
      assert pairs <= rest + {(row, columns - 1)};
    }
  }

  // ---- header and compute ----

  lemma FreshHeader(cfg: Config, clk: int)
    requires cfg.Valid()
    ensures Initial(cfg).Valid(cfg) && GetReadyCommand(cfg, Initial(cfg), HEADER7, clk) == Ready(HEADER7)
  {
    hide GetReadyCommand;
    var ch := Initial(cfg);
    forall id | id in ch.banks ensures ch.banks[id].GetReady(HEADER7, clk) == Ready(HEADER7) {}
    QueryAnswers(cfg, ch, HEADER7, clk);
    QueryIsScan(cfg, ch, HEADER7, clk);
    ScanFromStart(cfg, ch, HEADER7, clk, cfg.ranks, 0);
  }

  /** The first header passes at once. */
  lemma HeaderPasses(s: Setup) returns (run: seq<Action>, w: World)
    requires s.Valid() && s.interval > s.estimate(Initial(s.cfg), HEADER7) + 2 && s.interval > 2
    ensures Reached(s, run, w, []) && run != [] && run[|run| - 1].Cycle? && w.clk == 2
    ensures w.ch == Initial(s.cfg) && w.phase == Gemv(7) && Still(w) && !w.q.isGwriting
  {
    hide Reached, GetReadyCommand, CycleSelection;
    StartReached(s);
    run, w := Waits(s, [], Start(s.cfg, s.structure), 1);
    w := PimArrives(s, run, w, [], HEADER7);
    run := run + [Add(HEADER7)];
    ReachedIsSafe(s, run, w, []);
    FreshHeader(s.cfg, 1);
    CalmArrival(s, w);
    var a := NextTick(s, w);
    PimAnswers(s.cfg, s.structure, w.q, w.ch, 1, a.remainToRefresh, a.latency);
    var t := CycleSelection(s.cfg, s.structure, w.q, w.ch, 1, a.remainToRefresh, a.latency);
    run, w := Passes(s, run, w, w.ch, t.answer, t.q);
  }

  /** The compute waits for the PIM buffers of every bank. */
  ghost predicate Computing(s: Setup, w: World) {
    && w.phase == Gemv(7) && w.q.pimQueue == [COMPUTE] && NoneQueued(w.q) && !w.q.isGwriting && !w.q.isInRef
    && !w.q.skipPim && w.ch.Valid(s.cfg) && w.ch.refreshQ == [] && NormalClosed(w.ch) && NoActivations(s.cfg, w.ch)
  }

  /** The compute has issued. */
  ghost predicate Opened(s: Setup, w: World) {
    && w.phase == Idle && Still(w) && !w.q.isGwriting && w.ch.Valid(s.cfg)
    && NormalClosed(w.ch) && NoActivations(s.cfg, w.ch)
    && forall id <- w.ch.banks :: w.ch.banks[id].pim == Open(7)
  }

  /** What a G_ACT and the compute wait for. */
  const GEMV: set<CommandType> := {GAct, CompsReadres}

  lemma ComputeAnswers(cfg: Config, ch: Channel, clk: int)
    requires ch.Valid(cfg) && NormalClosed(ch) && Reserved(ch, 7)
    ensures FreeFrom(ch, GEMV, clk) ==> GetReadyCommand(cfg, ch, COMPUTE, clk).Ready?
    ensures var answer := GetReadyCommand(cfg, ch, COMPUTE, clk);
      answer.Ready? ==>
        || (answer.cmd == COMPUTE && forall id <- ch.banks :: ch.banks[id].pim == Open(7))
        || (answer.cmd.kind == GAct && (answer.cmd.addr.rank, answer.cmd.addr.bankgroup) in Shut(ch))
  {
    hide GetReadyCommand;
    if FreeFrom(ch, GEMV, clk) {
      forall id | id in ch.banks ensures ch.banks[id].GetReady(COMPUTE, clk).Ready? {
        var b := ch.banks[id];
        assert b.Earliest(GAct) <= clk && b.Earliest(CompsReadres) <= clk;
      }
      forall id | id in ch.banks { BankNeverAborts(ch.banks[id], COMPUTE, clk); }
      QueryAnswers(cfg, ch, COMPUTE, clk);
    }
    if GetReadyCommand(cfg, ch, COMPUTE, clk).Ready? {
      var c := GetReadyCommand(cfg, ch, COMPUTE, clk).cmd;
      QueryIsScan(cfg, ch, COMPUTE, clk);
      ScanFromStart(cfg, ch, COMPUTE, clk, cfg.ranks, 0);
      ReadyIsCertified(cfg, ch, COMPUTE, clk);
      if c == COMPUTE {
        forall id <- ch.banks ensures ch.banks[id].pim == Open(7) {
          assert Gated(c, id);
          ComputeNeedsOpenPim(ch.banks[id], COMPUTE, clk);
        }
      } else {
        assert IdOf(c.addr) in ch.banks && ch.banks[IdOf(c.addr)].pim.Closed?;
      }
    }
  }

  /** One cycle: the next group activation or the compute issues, or one of them has to wait. */
  lemma ComputeTick(s: Setup, run: seq<Action>, w: World, longest: nat, gap: nat, free: int)
    returns (run': seq<Action>, w': World)
    requires s.Valid() && Reached(s, run, w, []) && Computing(s, w) && 0 <= w.clk < s.interval
    requires Within(s.cfg, s.table, ANY, ANY, longest) && FreeFrom(w.ch, ANY, w.clk + longest)
    requires Within(s.cfg, s.table, {GAct}, GEMV, gap) && FreeFrom(w.ch, GEMV, free) && free <= w.clk + gap
    ensures Reached(s, run', w', []) && w'.clk == w.clk + 1 && FreeFrom(w'.ch, ANY, w'.clk + longest)
    ensures || (w.clk < free && Computing(s, w') && w'.ch == w.ch)
            || (Computing(s, w') && Shut(w'.ch) < Shut(w.ch) && FreeFrom(w'.ch, GEMV, w.clk + gap))
            || Opened(s, w')
  {
    hide Reached, GetReadyCommand, CycleSelection, Issue, UpdateAborts, FreeFrom, Exclusive, Within;
    ReachedIsSafe(s, run, w, []);
    CalmArrival(s, w);
    var a := NextTick(s, w);
    PimAnswers(s.cfg, s.structure, w.q, w.ch, w.clk, a.remainToRefresh, a.latency);
    var t := CycleSelection(s.cfg, s.structure, w.q, w.ch, w.clk, a.remainToRefresh, a.latency);
    ComputeAnswers(s.cfg, w.ch, w.clk);
    run', w' := Passes(s, run, w, w.ch, t.answer, t.q);
    if t.answer.NotReady? {
      if free <= w.clk { FreeSooner(w.ch, GEMV, free, w.clk); }
      FreeSooner(w'.ch, ANY, w.clk + longest, w'.clk + longest);
    } else {
      IssueKeeps(s, w.ch, COMPUTE, t.answer.cmd, w.clk, longest, w.clk + longest);
      FreeSooner(w'.ch, ANY, w.clk + longest, w'.clk + longest);
      ComputeIssued(s, w.ch, t.answer.cmd, w.clk);
      if t.answer.cmd.kind == GAct {
        ServesComps(s.cfg, w.ch, w.clk, COMPUTE, t.answer.cmd);
        IssueFree(s.cfg, s.table, w.ch, t.answer.cmd, w.clk, GEMV, gap, free);
      }
    }
  }

  /** What the group activations and the compute do to the banks. */
  lemma ComputeIssued(s: Setup, ch: Channel, c: Command, clk: int)
    requires s.Valid() && ch.Valid(s.cfg) && s.cfg.Addressed(c) && !UpdateAborts(ch, c) && NormalClosed(ch)
    requires c == COMPUTE || (c.kind == GAct && (c.addr.rank, c.addr.bankgroup) in Shut(ch))
    ensures var ch' := Issue(s.cfg, s.table, ch, c, clk);
      && NormalClosed(ch')
      && (c == COMPUTE ==> forall id <- ch'.banks :: id in ch.banks && ch'.banks[id].pim == ch.banks[id].pim)
      && (c.kind == GAct ==> Shut(ch') < Shut(ch))
  {
    Runs.IssueRows(s.cfg, s.table, ch, c, clk);
    Runs.IssueFrame(s.cfg, s.table, ch, c, clk);
    hide Issue;
    var ch' := Issue(s.cfg, s.table, ch, c, clk);
    if c.kind == GAct {
      forall p <- Shut(ch') ensures p in Shut(ch) && p != (c.addr.rank, c.addr.bankgroup) {
        var id :| id in ch'.banks && ch'.banks[id].pim.Closed? && p == (id.rank, id.bankgroup);
        assert id in ch.banks && !Affects(c, id);
      }
    }
  }

  lemma {:induction false} ComputeIssues(s: Setup, run: seq<Action>, w: World, longest: nat, gap: nat, free: int)
    returns (run': seq<Action>, w': World)
    requires s.Valid() && Reached(s, run, w, []) && Computing(s, w) && 0 <= w.clk
    requires Within(s.cfg, s.table, ANY, ANY, longest) && FreeFrom(w.ch, ANY, w.clk + longest)
    requires Within(s.cfg, s.table, {GAct}, GEMV, gap) && FreeFrom(w.ch, GEMV, free) && free <= w.clk + gap
    requires Max(w.clk, free) + Budget(|Shut(w.ch)|, gap) <= s.interval
    ensures Reached(s, run', w', []) && Opened(s, w') && FreeFrom(w'.ch, ANY, w'.clk + longest)
    ensures w.clk < w'.clk <= Max(w.clk, free) + Budget(|Shut(w.ch)|, gap)
    decreases Shut(w.ch), Max(free - w.clk, 0)
  {
    hide Reached, FreeFrom, Within, Budget, Shut;
    run', w' := ComputeTick(s, run, w, longest, gap, free);
    if Opened(s, w') {
    } else if w'.ch == w.ch {
      run', w' := ComputeIssues(s, run', w', longest, gap, free);
    } else {
      Fewer(Shut(w'.ch), Shut(w.ch));
      BudgetStep(|Shut(w.ch)|, |Shut(w'.ch)|, gap);
      run', w' := ComputeIssues(s, run', w', longest, gap, w.clk + gap);
    }
  }

  // ---- the refresh of rank 0 ----

  /** The refresh of rank 0 arrives or waits; every PIM buffer of rank 1 holds row 7. */
  ghost predicate Refreshing(s: Setup, w: World)
    requires s.Valid() && w.clk >= 0
  {
    var ch := Arrived(s.cfg, w.ch, NextTick(s, w).arrival);
    && w.phase == Idle && NoneQueued(w.q) && w.q.pimQueue == [] && !w.q.skipPim && !w.q.isGwriting
    && ch.Valid(s.cfg) && ch.refreshQ == [REFRESH] && NormalClosed(ch) && PimOpen(ch, 1) && NoActivations(s.cfg, ch)
  }

  /** It has issued: nothing is reserved, and rank 1 still holds row 7. */
  ghost predicate Refreshed(s: Setup, w: World) {
    && w.phase == Idle && Still(w) && !w.q.isGwriting && w.q.reservedRow == -1 && w.ch.Valid(s.cfg)
    && NormalClosed(w.ch) && PimOpen(w.ch, 1) && OpenInFirst(w.ch) == {} && NoActivations(s.cfg, w.ch)
  }

  /** The open banks of rank 0 can be precharged now. */
  ghost predicate ReadyToClose(ch: Channel, clk: int) {
    forall id | id in ch.banks && id.rank == 0 && ch.banks[id].pim.Open? :: ch.banks[id].Earliest(PimPrecharge) <= clk
  }

  lemma RefreshAnswersFirst(cfg: Config, ch: Channel, clk: int)
    requires ch.Valid(cfg) && NormalClosed(ch)
    ensures var answer := GetReadyCommand(cfg, ch, REFRESH, clk);
      && (OpenInFirst(ch) == {} && FreeFrom(ch, ANY, clk) ==> answer.Ready?)
      && (OpenInFirst(ch) != {} && ReadyToClose(ch, clk) ==> answer.Ready?)
      && (answer.Ready? ==>
            || (answer.cmd == REFRESH && OpenInFirst(ch) == {})
            || (answer.cmd.kind == PimPrecharge && answer.cmd.addr.rank == 0 && IdOf(answer.cmd.addr) in ch.banks
                && (answer.cmd.addr.bankgroup, answer.cmd.addr.bank) in OpenInFirst(ch)))
  {
    hide GetReadyCommand;
    QueryIsScan(cfg, ch, REFRESH, clk);
    if OpenInFirst(ch) == {} && FreeFrom(ch, ANY, clk) {
      forall id | id in ch.banks && Gated(REFRESH, id) ensures ch.banks[id].GetReady(REFRESH, clk).Ready? {
        var b := ch.banks[id];
        assert (id.bankgroup, id.bank) !in OpenInFirst(ch);
        assert b.Earliest(Refresh) <= clk;
      }
      QueryAnswers(cfg, ch, REFRESH, clk);
    }
    if OpenInFirst(ch) != {} && ReadyToClose(ch, clk) { OpenBankAnswers(cfg, ch, clk); }
    if GetReadyCommand(cfg, ch, REFRESH, clk).Ready? {
      var c := GetReadyCommand(cfg, ch, REFRESH, clk).cmd;
      ScanFromStart(cfg, ch, REFRESH, clk, 1, 0);
      ReadyIsCertified(cfg, ch, REFRESH, clk);
      if c == REFRESH {
        forall id | id in ch.banks && id.rank == 0 ensures ch.banks[id].pim.Closed? { assert Gated(c, id); }
      } else {
        assert IdOf(c.addr) in ch.banks && ch.banks[IdOf(c.addr)].pim.Open?;
      }
    }
  }

  lemma OpenBankAnswers(cfg: Config, ch: Channel, clk: int)
    requires ch.Valid(cfg) && NormalClosed(ch) && OpenInFirst(ch) != {} && ReadyToClose(ch, clk)
    ensures GetReadyCommand(cfg, ch, REFRESH, clk).Ready?
  {
    hide Scan;
    QueryIsScan(cfg, ch, REFRESH, clk);
    QueriesNeverAbort(cfg, ch, REFRESH, clk);
    var p :| p in OpenInFirst(ch);
    var id :| id in ch.banks && id.rank == 0 && ch.banks[id].pim.Open? && p == (id.bankgroup, id.bank);
    assert ch.banks[id].GetReady(REFRESH, clk).Ready? && ch.banks[id].GetReady(REFRESH, clk).cmd.kind == PimPrecharge;
    if GetReadyCommand(cfg, ch, REFRESH, clk) == NotReady {
      DualBufferCalm.ScanNotReady(cfg, ch, REFRESH, clk, 1, 0, 0, 0, 0, cfg.bankgroups * cfg.banksPerGroup, NO_COMMAND,
                                  id);
    }
  }

  lemma RefreshSelects(s: Setup, q: NQueue, ch: Channel, clk: int, remain: int, latency: int)
    requires s.Valid() && ch.Valid(s.cfg) && ValidQueue(s.cfg, s.structure, q) && ch.refreshQ == [REFRESH]
    requires NoneQueued(q) && q.pimQueue == []
    ensures var t := CycleSelection(s.cfg, s.structure, q, ch, clk, remain, latency);
      && t.answer == GetReadyCommand(s.cfg, ch, REFRESH, clk) != Abort
      && NoneQueued(t.q) && t.q.pimQueue == [] && t.q.isGwriting == q.isGwriting
      && (!(t.answer.Ready? && t.answer.cmd.IsRefresh()) ==> t.q.skipPim == q.skipPim)
      && (t.answer.Ready? && t.answer.cmd.IsRefresh() ==>
            !t.q.isInRef && !t.q.skipPim && t.q.reservedRow == -1)
  {
    hide GetReadyCommand, GetCommandToIssue;
    QueriesNeverAbort(s.cfg, ch, REFRESH, clk);
    NothingAnswers(s.cfg, s.structure, FinishRefresh(s.cfg, s.structure, q, ch, clk).q, ch, clk, remain, latency);
  }

  lemma RefreshIssued(s: Setup, ch: Channel, c: Command, clk: int)
    requires s.Valid() && ch.Valid(s.cfg) && s.cfg.Addressed(c) && !UpdateAborts(ch, c)
    requires NormalClosed(ch) && PimOpen(ch, 1) && ch.refreshQ == [REFRESH]
    requires c == REFRESH || (c.kind == PimPrecharge && c.addr.rank == 0 && IdOf(c.addr) in ch.banks
                              && (c.addr.bankgroup, c.addr.bank) in OpenInFirst(ch))
    ensures var ch' := Issue(s.cfg, s.table, ch, c, clk);
      && NormalClosed(ch') && PimOpen(ch', 1)
      && (c == REFRESH ==> ch'.refreshQ == [] && OpenInFirst(ch') == OpenInFirst(ch))
      && (c.kind == PimPrecharge ==> OpenInFirst(ch') < OpenInFirst(ch))
  {
    Runs.IssueRows(s.cfg, s.table, ch, c, clk);
    Runs.IssueFrame(s.cfg, s.table, ch, c, clk);
    var ch' := Issue(s.cfg, s.table, ch, c, clk);
    assert c == REFRESH ==> ch'.refreshQ == RankRefreshed(ch.refreshQ, 0);
    hide Issue;
    if c.kind == PimPrecharge {
      forall p <- OpenInFirst(ch') ensures p in OpenInFirst(ch) && p != (c.addr.bankgroup, c.addr.bank) {
        var id :| id in ch'.banks && id.rank == 0 && ch'.banks[id].pim.Open? && p == (id.bankgroup, id.bank);
        assert id in ch.banks && !Affects(c, id);
      }
    }
  }

  /** A PIM_PRECHARGE delays no other bank. */
  lemma ClosingKeepsReady(s: Setup, ch: Channel, c: Command, clk: int)
    requires s.Valid() && ch.Valid(s.cfg) && s.cfg.Addressed(c) && !UpdateAborts(ch, c)
    requires c.kind == PimPrecharge && ReadyToClose(ch, clk)
    ensures ReadyToClose(Issue(s.cfg, s.table, ch, c, clk), clk + 1)
  {
    Runs.IssueRows(s.cfg, s.table, ch, c, clk);
    var ch' := Issue(s.cfg, s.table, ch, c, clk);
    forall id | id in ch'.banks && id.rank == 0 && ch'.banks[id].pim.Open?
      ensures ch'.banks[id].Earliest(PimPrecharge) <= clk + 1
    {
      assert id in ch.banks && !Affects(c, id) && Entries(s.cfg, s.table, c, id) == [];
    }
  }

  lemma SameBanks(ch: Channel, ch': Channel, free: int, clk: int)
    requires ch'.banks == ch.banks
    ensures FreeFrom(ch', ANY, free) == FreeFrom(ch, ANY, free) && OpenInFirst(ch') == OpenInFirst(ch)
    ensures ReadyToClose(ch, clk) ==> ReadyToClose(ch', clk) && ReadyToClose(ch', clk + 1)
  {
  }

  lemma RefreshTick(s: Setup, run: seq<Action>, w: World, longest: nat, free: int)
    returns (run': seq<Action>, w': World)
    requires s.Valid() && Reached(s, run, w, []) && 0 <= w.clk && Refreshing(s, w)
    requires s.interval <= w.clk < 2 * s.interval - 1 && ReadyToClose(w.ch, w.clk)
    requires Within(s.cfg, s.table, ANY, ANY, longest) && FreeFrom(w.ch, ANY, free) && free <= w.clk + longest
    ensures Reached(s, run', w', []) && w'.clk == w.clk + 1 && run' != [] && run'[|run'| - 1].Cycle?
    ensures || (OpenInFirst(w.ch) == {} && w.clk < free && Refreshing(s, w') && w'.ch.banks == w.ch.banks)
            || (Refreshing(s, w') && OpenInFirst(w'.ch) < OpenInFirst(w.ch) && ReadyToClose(w'.ch, w'.clk)
                && FreeFrom(w'.ch, ANY, w.clk + longest))
            || (Refreshed(s, w') && FreeFrom(w'.ch, ANY, w.clk + longest))
  {
    hide Reached, GetReadyCommand, CycleSelection, Issue, UpdateAborts, Within;
    ReachedIsSafe(s, run, w, []);
    var a := NextTick(s, w);
    var ch := Arrived(s.cfg, w.ch, a.arrival);
    SameBanks(w.ch, ch, free, w.clk);
    hide FreeFrom, ReadyToClose, OpenInFirst, PimOpen, NormalClosed, NoActivations;
    RefreshSelects(s, w.q, ch, w.clk, a.remainToRefresh, a.latency);
    var t := CycleSelection(s.cfg, s.structure, w.q, ch, w.clk, a.remainToRefresh, a.latency);
    RefreshAnswersFirst(s.cfg, ch, w.clk);
    run', w' := Passes(s, run, w, ch, t.answer, t.q);
    CalmArrival(s, w');
    if t.answer.NotReady? {
      if free <= w.clk { FreeSooner(ch, ANY, free, w.clk); }
    } else {
      IssueKeeps(s, ch, REFRESH, t.answer.cmd, w.clk, longest, free);
      RefreshIssued(s, ch, t.answer.cmd, w.clk);
      if t.answer.cmd.kind == PimPrecharge { ClosingKeepsReady(s, ch, t.answer.cmd, w.clk); }
    }
  }

  /** Every cycle closes a buffer of rank 0; then REFRESH waits for the last precharge. */
  lemma {:induction false} RefreshIssues(s: Setup, run: seq<Action>, w: World, longest: nat, free: int)
    returns (run': seq<Action>, w': World)
    requires s.Valid() && Reached(s, run, w, []) && s.interval <= w.clk && Refreshing(s, w)
    requires Within(s.cfg, s.table, ANY, ANY, longest) && FreeFrom(w.ch, ANY, free) && free <= w.clk + longest
    requires ReadyToClose(w.ch, w.clk)
    requires Max(free, w.clk + if OpenInFirst(w.ch) == {} then 0 else |OpenInFirst(w.ch)| + longest) + 1
      < 2 * s.interval
    ensures Reached(s, run', w', []) && Refreshed(s, w') && FreeFrom(w'.ch, ANY, w'.clk + longest)
    ensures w.clk < w'.clk
    ensures w'.clk <= Max(free, w.clk + if OpenInFirst(w.ch) == {} then 0 else |OpenInFirst(w.ch)| + longest) + 1
    ensures run' != [] && run'[|run'| - 1].Cycle?
    decreases OpenInFirst(w.ch), Max(free - w.clk, 0)
  {
    hide Reached, Within, Refreshed, Refreshing, FreeFrom, ReadyToClose, OpenInFirst;
    run', w' := RefreshTick(s, run, w, longest, free);
    if OpenInFirst(w.ch) == {} && w.clk < free && Refreshing(s, w') && w'.ch.banks == w.ch.banks {
      SameBanks(w.ch, w'.ch, free, w.clk);
      run', w' := RefreshIssues(s, run', w', longest, free);
    } else if Refreshed(s, w') && FreeFrom(w'.ch, ANY, w.clk + longest) {
      FreeSooner(w'.ch, ANY, w.clk + longest, w'.clk + longest);
    } else {
      Fewer(OpenInFirst(w'.ch), OpenInFirst(w.ch));
      run', w' := RefreshIssues(s, run', w', longest, w.clk + longest);
    }
  }

  // ---- the GWRITE ----

  const ACTIVATE := GWRITE.(kind := Activate)

  predicate Slack(q: NQueue) { q.isGwriting && q.gwriteTarget == GWRITE.addr && q.remainSlack >= 10 }

  /** Rank 1 holds row 7 in a PIM buffer that can be precharged from cycle `free` on; nothing is reserved. */
  ghost predicate RankOneOpen(s: Setup, w: World, free: int) {
    && w.clk >= 0 && w.phase == Idle && w.ch.Valid(s.cfg) && w.ch.refreshQ == [] && !w.q.isInRef && !w.q.skipPim
    && w.q.reservedRow == -1 && B in w.ch.banks && w.ch.banks[B].normal.Closed? && w.ch.banks[B].pim == Open(7)
    && w.ch.banks[B].Earliest(PimPrecharge) <= free
  }

  /** No command of one rank delays a PIM_PRECHARGE of another by activating. */
  ghost predicate Apart(table: TimingTable) { forall e <- table.otherRanks(Activate) :: e.0 != PimPrecharge }

  /** With nothing to wait for, the GWRITE activates its row. */
  lemma GwriteAnswers(s: Setup, ch: Channel, clk: int)
    requires s.Valid() && ch.Valid(s.cfg) && A in ch.banks && ch.banks[A] == ch.banks[IdOf(GWRITE.addr)]
    requires ch.banks[A].normal.Closed? && ch.banks[A].pim.Closed? && NoActivations(s.cfg, ch) && FreeFrom(ch, ANY, clk)
    ensures GetReadyCommand(s.cfg, ch, GWRITE, clk) == Ready(ACTIVATE)
  {
    var b := ch.banks[A];
    assert b.Earliest(Activate) <= clk;
    assert ActivationWindowOk(s.cfg, ch, 0, clk);
  }

  /** The GWRITE's commands leave rank 1 alone. */
  lemma GwriteIssued(s: Setup, ch: Channel, c: Command, clk: int)
    requires s.Valid() && ch.Valid(s.cfg) && s.cfg.Addressed(c) && !UpdateAborts(ch, c) && Apart(s.table)
    requires c in {GWRITE, ACTIVATE} && A in ch.banks && B in ch.banks
    ensures var ch' := Issue(s.cfg, s.table, ch, c, clk);
      && A in ch'.banks && (c == ACTIVATE ==> ch'.banks[A].normal == Open(3))
      && ch'.Valid(s.cfg) && ch'.refreshQ == ch.refreshQ && B in ch'.banks
      && ch'.banks[B].pim == ch.banks[B].pim && ch'.banks[B].normal == ch.banks[B].normal
      && ch'.banks[B].Earliest(PimPrecharge) <= ch.banks[B].Earliest(PimPrecharge)
  {
    Runs.IssueKeepsValid(s.cfg, s.table, ch, c, clk);
    Runs.IssueRows(s.cfg, s.table, ch, c, clk);
    Runs.IssueFrame(s.cfg, s.table, ch, c, clk);
    var b := UpdateState(ch, c).banks[B];
    assert !Affects(c, B) && b == ch.banks[B];
    NotDelayed(b, Entries(s.cfg, s.table, c, B), clk, PimPrecharge);
    assert Issue(s.cfg, s.table, ch, c, clk).banks[B] == Delayed(b, Entries(s.cfg, s.table, c, B), clk);
  }

  lemma {:induction false} NotDelayed(b: Bank, delays: Delays, clk: int, kind: CommandType)
    requires forall e <- delays :: e.0 != kind
    ensures Delayed(b, delays, clk).Earliest(kind) == b.Earliest(kind)
    decreases |delays|
  {
    if delays != [] {
      assert delays[0] in delays;
      NotDelayed(b.UpdateTiming(delays[0].0, clk + delays[0].1), delays[1..], clk, kind);
    }
  }

  /** The cycle in which the GWRITE sets the slack and activates its row. */
  lemma GwriteActivates(s: Setup, run: seq<Action>, w: World) returns (run': seq<Action>, w': World)
    requires s.Valid() && s.cfg.ranks > 1 && Reached(s, run, w, []) && Apart(s.table)
    requires RankOneOpen(s, w, w.clk) && NoneQueued(w.q) && w.q.pimQueue == [GWRITE] && !w.q.isGwriting
    requires s.interval < w.clk < 2 * s.interval - 1 && FreeFrom(w.ch, ANY, w.clk)
    requires 2 * s.interval - (w.clk + 1) - s.estimate(w.ch, GWRITE) >= 10
    requires A in w.ch.banks && w.ch.banks[A].normal.Closed? && w.ch.banks[A].pim.Closed? && NoActivations(s.cfg, w.ch)
    ensures Reached(s, run', w', []) && run' != [] && run'[|run'| - 1].Cycle? && w'.clk == w.clk + 1
    ensures RankOneOpen(s, w', w.clk) && NoneQueued(w'.q) && w'.q.pimQueue == [GWRITE] && Slack(w'.q)
    ensures A in w'.ch.banks && w'.ch.banks[A].normal == Open(3)
  {
    hide Reached, GetReadyCommand, CycleSelection, Issue, UpdateAborts, FreeFrom, NoActivations, Apart;
    ReachedIsSafe(s, run, w, []);
    CalmArrival(s, w);
    var a := NextTick(s, w);
    PimAnswers(s.cfg, s.structure, w.q, w.ch, w.clk, a.remainToRefresh, a.latency);
    var t := CycleSelection(s.cfg, s.structure, w.q, w.ch, w.clk, a.remainToRefresh, a.latency);
    GwriteAnswers(s, w.ch, w.clk);
    run', w' := Passes(s, run, w, w.ch, t.answer, t.q);
    GwriteIssued(s, w.ch, ACTIVATE, w.clk);
  }

  // ---- the exit ----

  /** A read of row 7 in rank 1 is the only normal entry, and the head of the PIM queue has to wait. */
  ghost predicate Poised(s: Setup, w: World, i: int)
    requires s.Valid()
  {
    && RankOneOpen(s, w, w.clk) && ValidWorld(s.cfg, s.structure, w) && Slack(w.q) && Calm(s, w.clk)
    && w.q.pimQueue != []
    && (w.q.pimQueue[0].IsGwrite() ==> GetReadyCommand(s.cfg, w.ch, w.q.pimQueue[0], w.clk) == NotReady)
    && OnlyRead(w.q, i)
  }

  ghost predicate OnlyRead(q: NQueue, i: int) {
    0 <= i < |q.queues| && q.queues[i] == [READ] && forall j | 0 <= j < |q.queues| && j != i :: q.queues[j] == []
  }

  lemma PoisedExits(s: Setup, w: World, i: int)
    requires s.Valid() && Poised(s, w, i)
    ensures Selected(s.cfg, s.structure, w, NextTick(s, w)) == Abort
  {
    hide GetReadyCommand;
    CalmArrival(s, w);
    ExitExactly(s.cfg, s.structure, w, NextTick(s, w));
    var n := |w.q.queues|;
    var t := if i > w.q.queueIdx then i - w.q.queueIdx else i - w.q.queueIdx + n;
    ReadTrips(s, w, i);
    hide Trips, PassedOver;
    assert Turn(w.q.queueIdx, n, t) == i && w.q.queues[i][0] == READ;
    assert ExitsIn(s.cfg, s.structure, w.q, w.ch, w.clk, w.q.queues[i], i, 0);
    hide ExitsIn;
    assert ExitsAtTurn(s.cfg, s.structure, w.q, w.ch, w.clk, t);
  }

  lemma ReadTrips(s: Setup, w: World, i: int)
    requires s.Valid() && Poised(s, w, i)
    ensures Trips(s.cfg, w.q, w.ch, w.clk, READ)
  {
    var b := w.ch.banks[B];
    assert b.Earliest(PimPrecharge) <= w.clk;
  }

  /** If the GWRITE can issue at once, a header behind it waits for it to be done. */
  lemma GwriteGoes(s: Setup, run: seq<Action>, w: World, i: int, free: int) returns (run': seq<Action>, w': World)
    requires s.Valid() && Reached(s, run, w, []) && s.interval < w.clk < 2 * s.interval && Apart(s.table)
    requires RankOneOpen(s, w, free) && OnlyRead(w.q, i) && w.q.pimQueue == [GWRITE] && Slack(w.q)
    requires A in w.ch.banks
    requires GetReadyCommand(s.cfg, w.ch, GWRITE, w.clk).Ready?
    requires GetReadyCommand(s.cfg, w.ch, GWRITE, w.clk).cmd == GWRITE
    ensures Reached(s, run', w', [w.clk + s.gwriteDelay]) && w'.clk == w.clk + 1
    ensures RankOneOpen(s, w', free) && OnlyRead(w'.q, i) && w'.q.pimQueue == [HEADER9] && Slack(w'.q)
  {
    hide Reached, GetReadyCommand, CycleSelection, Issue, UpdateAborts, Apart;
    ReachedIsSafe(s, run, w, []);
    CalmArrival(s, w);
    var a := NextTick(s, w);
    PimComesFirst(s.cfg, s.structure, w.q, w.ch, w.clk, a.remainToRefresh, a.latency);
    var t := CycleSelection(s.cfg, s.structure, w.q, w.ch, w.clk, a.remainToRefresh, a.latency);
    assert Erased([GWRITE], GWRITE) == [];
    run', w' := Ticks(s, run, w, [], w.ch, t.answer, t.q);
    assert [] + Begun(s, w, t.answer) == [w.clk + s.gwriteDelay];
    GwriteIssued(s, w.ch, GWRITE, w.clk);
    assert StreamOk(Idle, [HEADER9]) && w'.q.pimQueue == [] && w'.phase == Idle;
    w' := PimArrives(s, run', w', [w.clk + s.gwriteDelay], HEADER9);
    run' := run' + [Add(HEADER9)];
  }

  lemma GwriteStage(s: Setup, ch: Channel, clk: int)
    requires s.Valid() && ch.Valid(s.cfg) && A in ch.banks && ch.banks[A].normal == Open(3)
    ensures var answer := GetReadyCommand(s.cfg, ch, GWRITE, clk); answer == NotReady || answer == Ready(GWRITE)
  {
  }

  /** From the activation of the GWRITE's row on. */
  lemma ReadExits(s: Setup, run: seq<Action>, w: World, free: int) returns (exit: seq<Action>)
    requires s.Valid() && s.cfg.ranks > 1 && Reached(s, run, w, []) && run != [] && run[|run| - 1].Cycle?
    requires RankOneOpen(s, w, free) && NoneQueued(w.q) && w.q.pimQueue == [GWRITE] && Slack(w.q) && Apart(s.table)
    requires A in w.ch.banks && w.ch.banks[A].normal == Open(3)
    requires s.interval < w.clk < 2 * s.interval - 1 && free <= w.clk && s.gwriteDelay > 1
    ensures Exits(s, exit)
  {
    hide Reached, Exits, GetReadyCommand, CycleSelection, Apart;
    var w1, i := ReadArrives(s, run, w, [], READ);
    var run1 := run + [Add(READ)];
    ReachedIsSafe(s, run1, w1, []);
    GwriteStage(s, w1.ch, w1.clk);
    if GetReadyCommand(s.cfg, w1.ch, GWRITE, w1.clk) == NotReady {
      PoisedExits(s, w1, i);
      AbortExits(s, run1, w1, []);
      exit := run1 + [NextTick(s, w1)];
    } else {
      var run2, w2 := GwriteGoes(s, run1, w1, i, free);
      ReachedIsSafe(s, run2, w2, [w1.clk + s.gwriteDelay]);
      PoisedExits(s, w2, i);
      AbortExits(s, run2, w2, [w1.clk + s.gwriteDelay]);
      exit := run2 + [NextTick(s, w2)];
    }
  }

  // ---- the whole run ----

  /** Delays at most `longest`, and `gap` after a group activation; an interval with room for a header, its group
      activations and its compute, and then for a refresh and a GWRITE estimated at up to `gwrite` cycles. */
  ghost predicate Roomy(s: Setup, longest: nat, gap: nat, gwrite: int) {
    && s.Valid() && s.gwriteDelay > 1 && Apart(s.table)
    && Within(s.cfg, s.table, ANY, ANY, longest) && Within(s.cfg, s.table, {GAct}, GEMV, gap)
    && (forall ch: Channel | ch.Valid(s.cfg) :: s.estimate(ch, GWRITE) <= gwrite)
    && s.interval > s.estimate(Initial(s.cfg), HEADER7) + 2
    && s.interval >= 2 + Budget(s.cfg.ranks * s.cfg.bankgroups, gap) + longest
    && s.interval > s.cfg.bankgroups * s.cfg.banksPerGroup + 2 * longest + Max(gwrite, 0) + 20
  }

  /** Every table has room in a long enough interval. */
  lemma LongIntervalsAreRoomy(s: Setup, gwrite: int)
    requires s.Valid() && s.gwriteDelay > 1 && Apart(s.table)
    requires forall ch: Channel | ch.Valid(s.cfg) :: s.estimate(ch, GWRITE) <= gwrite
    requires var longest := LongestDelay(s.cfg, s.table);
      s.interval > Max(s.estimate(Initial(s.cfg), HEADER7), 0) + Budget(s.cfg.ranks * s.cfg.bankgroups, longest)
                   + s.cfg.bankgroups * s.cfg.banksPerGroup + 2 * longest + Max(gwrite, 0) + 20
    ensures Roomy(s, LongestDelay(s.cfg, s.table), LongestDelay(s.cfg, s.table), gwrite)
  {
    hide LongestDelay, Within, Apart, Budget;
    assert s.cfg.bankgroups * s.cfg.banksPerGroup >= 0;
    LongestDelayBounds(s.cfg, s.table, ANY, ANY);
    LongestDelayBounds(s.cfg, s.table, {GAct}, GEMV);
  }

  lemma StartIsFree(cfg: Config)
    requires cfg.Valid()
    ensures Initial(cfg).Valid(cfg) && NormalClosed(Initial(cfg)) && NoActivations(cfg, Initial(cfg))
    ensures forall kinds :: FreeFrom(Initial(cfg), kinds, 0)
    ensures Initial(cfg).refreshQ == []
  {
  }

  lemma FewGroups(cfg: Config, ch: Channel, gap: nat)
    requires ch.Valid(cfg)
    ensures Budget(|Shut(ch)|, gap) <= Budget(cfg.ranks * cfg.bankgroups, gap)
    ensures |OpenInFirst(ch)| <= cfg.bankgroups * cfg.banksPerGroup
  {
    InGrid(Shut(ch), cfg.ranks, cfg.bankgroups);
    InGrid(OpenInFirst(ch), cfg.bankgroups, cfg.banksPerGroup);
    if |Shut(ch)| < cfg.ranks * cfg.bankgroups { BudgetStep(cfg.ranks * cfg.bankgroups, |Shut(ch)|, gap); }
  }

  /** From the start to the issued compute. */
  lemma HeaderAndCompute(s: Setup, longest: nat, gap: nat, gwrite: int) returns (run: seq<Action>, w: World)
    requires Roomy(s, longest, gap, gwrite)
    ensures Reached(s, run, w, []) && Opened(s, w) && 0 < w.clk <= s.interval - longest
    ensures FreeFrom(w.ch, ANY, w.clk + longest)
  {
    hide Reached, Within, Budget, CycleSelection, FreeFrom;
    StartIsFree(s.cfg);
    run, w := HeaderPasses(s);
    FewGroups(s.cfg, w.ch, gap);
    w := PimArrives(s, run, w, [], COMPUTE);
    FreeSooner(w.ch, ANY, 0, w.clk + longest);
    run, w := ComputeIssues(s, run + [Add(COMPUTE)], w, longest, gap, 0);
  }

  /** From the issued compute to the issued refresh. */
  lemma RefreshComes(s: Setup, run: seq<Action>, w: World, longest: nat) returns (run': seq<Action>, w': World)
    requires s.Valid() && s.cfg.ranks > 1 && Reached(s, run, w, []) && Opened(s, w) && 0 < w.clk <= s.interval - longest
    requires Within(s.cfg, s.table, ANY, ANY, longest) && FreeFrom(w.ch, ANY, w.clk + longest)
    requires s.interval > s.cfg.bankgroups * s.cfg.banksPerGroup + longest + 1
    ensures Reached(s, run', w', []) && Refreshed(s, w') && FreeFrom(w'.ch, ANY, w'.clk + longest)
    ensures s.interval < w'.clk <= s.interval + s.cfg.bankgroups * s.cfg.banksPerGroup + longest + 1
    ensures run' != [] && run'[|run'| - 1].Cycle?
  {
    hide Reached, Within;
    run', w' := run, w;
    if w.clk < s.interval { run', w' := Waits(s, run, w, s.interval); }
    FirstArrival(s, w');
    FewGroups(s.cfg, w'.ch, 0);
    assert ReadyToClose(w'.ch, s.interval) && FreeFrom(w'.ch, ANY, s.interval);
    run', w' := RefreshIssues(s, run', w', longest, s.interval);
  }

  /** From the issued refresh to the activation of the GWRITE's row, with a wait for every delay to pass. */
  lemma GwriteComes(s: Setup, run: seq<Action>, w: World, longest: nat, gwrite: int)
    returns (run': seq<Action>, w': World)
    requires s.Valid() && s.cfg.ranks > 1 && Reached(s, run, w, []) && Refreshed(s, w) && s.interval < w.clk
    requires FreeFrom(w.ch, ANY, w.clk + longest) && Apart(s.table)
    requires forall ch: Channel | ch.Valid(s.cfg) :: s.estimate(ch, GWRITE) <= gwrite
    requires w.clk + longest + Max(gwrite, 0) + 14 < 2 * s.interval
    ensures Reached(s, run', w', []) && run' != [] && run'[|run'| - 1].Cycle?
    ensures s.interval < w'.clk < 2 * s.interval - 1
    ensures RankOneOpen(s, w', w'.clk - 1) && NoneQueued(w'.q) && w'.q.pimQueue == [GWRITE] && Slack(w'.q)
    ensures A in w'.ch.banks && w'.ch.banks[A].normal == Open(3)
  {
    hide Reached, CycleSelection, Apart;
    run', w' := Waits(s, run, w, w.clk + longest + 1);
    w' := PimArrives(s, run', w', [], GWRITE);
    run' := run' + [Add(GWRITE)];
    assert A in w'.ch.banks && B in w'.ch.banks;
    assert w'.ch.banks[A].pim.Open? ==> (0, 0) in OpenInFirst(w'.ch);
    FreeSooner(w'.ch, ANY, w.clk + longest, w'.clk);
    assert w'.ch.banks[B].Earliest(PimPrecharge) <= w'.clk;
    run', w' := GwriteActivates(s, run', w');
  }

  /** With more than one rank some run ends in the exit. */
  lemma ManyRanksReachTheExit(s: Setup, longest: nat, gap: nat, gwrite: int) returns (exit: seq<Action>)
    requires Roomy(s, longest, gap, gwrite) && s.cfg.ranks > 1
    ensures Exits(s, exit)
  {
    hide Reached, Exits, Within, Budget, CycleSelection, Opened, Refreshed, FreeFrom, Apart, RankOneOpen, NoneQueued;
    var run, w := HeaderAndCompute(s, longest, gap, gwrite);
    run, w := RefreshComes(s, run, w, longest);
    run, w := GwriteComes(s, run, w, longest, gwrite);
    exit := ReadExits(s, run, w, w.clk - 1);
  }

  /** In every roomy setup: some run driven as the controller drives it, whose phases no refresh interrupts, ends in the
      exit exactly when the channel has more than one rank. */
  lemma ExitReachedExactly(s: Setup, longest: nat, gap: nat, gwrite: int)
    requires Roomy(s, longest, gap, gwrite)
    ensures (exists run :: Exits(s, run)) <==> s.cfg.ranks > 1
  {
    if s.cfg.ranks > 1 {
      var run := ManyRanksReachTheExit(s, longest, gap, gwrite);
    } else {
      forall run | Exits(s, run) ensures false { OneRankNeverExits(s, run); }
    }
  }

  lemma OneRankNeverExits(s: Setup, run: seq<Action>)
    requires s.Valid() && s.cfg.ranks == 1
    ensures !Exits(s, run)
  {
    if Exits(s, run) {
      hide CycleSelection, Controlled, Driven;
      DualBufferCalm.NeverExits(s.cfg, s.table, s.structure, s.size, run[..|run| - 1], run[|run| - 1]);
    }
  }
}
