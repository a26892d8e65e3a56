/** Runs of a channel, scope by scope. */
module ChannelScopes {
  // Which earlier command keeps which later one waiting, with every scope spelled out; that a bank waits for nothing
  // else; and what the log says about rows, hits, waiting refreshes and the activation windows.

  import opened Commands
  import opened Banks
  import opened Channels
  import opened ChannelRuns

  /** The banks a command has to wait for. */
  predicate Asks(c: Command, id: BankId) {
    c.kind == CompsReadres || (c.kind == Refresh && id.rank == c.addr.rank) || id == IdOf(c.addr)
  }

  /** Command `c` delays commands of a kind at bank `id` by `d`: the row of the scope that relates the two. */
  predicate Imposed(cfg: Config, table: TimingTable, c: Command, id: BankId, kind: CommandType, d: int) {
    var sameRank := id.rank == c.addr.rank;
    var sameGroup := sameRank && id.bankgroup == c.addr.bankgroup;
    var here := sameGroup && id.bank == c.addr.bank;
    || (here && c.kind in {Read, Write, Activate, Precharge, Gwrite, PimPrecharge}
        && (kind, d) in table.sameBank(c.kind))
    || (sameGroup && !here && c.kind in {Read, Write, Activate, Precharge, Gwrite}
        && (kind, d) in table.otherBanksSameBankgroup(c.kind))
    || (sameRank && !sameGroup && c.kind in {Read, Write, Activate, Precharge, Gwrite}
        && (kind, d) in table.otherBankgroupsSameRank(c.kind))
    || (!sameRank && c.kind in {Read, Write, Activate, Precharge} && (kind, d) in table.otherRanks(c.kind))
    || (sameRank && c.kind == Refresh && (kind, d) in table.sameRank(Refresh))
    || (sameGroup && c.kind == GAct && (kind, d) in table.otherBanksSameBankgroup(GAct))
    || (sameRank && c.kind == GAct && (kind, d) in table.sameRank(GAct))
    || (c.kind == CompsReadres && (kind, d) in table.sameRank(CompsReadres))
    || (c.kind == CompsReadres && kind == CompsReadres && d == UnitsBusy(cfg, c.numComps))
  }

  /** How long a compute of so many computations keeps the compute units busy; filling the pipeline takes six. */
  function UnitsBusy(cfg: Config, numComps: int): int { Max(cfg.burstCycle, cfg.tCCDS) * (Max(numComps, 6) + 1) }

  lemma EntriesAreImposed(cfg: Config, table: TimingTable, c: Command, id: BankId)
    ensures forall kind, d :: (kind, d) in Entries(cfg, table, c, id) <==> Imposed(cfg, table, c, id, kind, d)
  {
  }

  // ---- every delay is waited out ----

  lemma EveryDelayIsWaitedOut(cfg: Config, table: TimingTable, actions: seq<Action>, m: int, n: int, id: BankId, d: int)
    requires cfg.Valid()
    requires var log := Exec(cfg, table, actions).log;
      && 0 <= m < n < |log| && cfg.Has(id) && Asks(log[n].cmd, id)
      && Imposed(cfg, table, log[m].cmd, id, log[n].cmd.kind, d)
    ensures var log := Exec(cfg, table, actions).log; log[n].clk >= log[m].clk + d
  {
    TimingSoundness(cfg, table, actions);
    var log := Exec(cfg, table, actions).log;
    EntriesAreImposed(cfg, table, log[m].cmd, id);
    assert Gated(log[n].cmd, id);
    assert (log[n].cmd.kind, d) in Entries(cfg, table, log[m].cmd, id);
  }

  /** After a command at a bank: the same bank, its bank group, its rank, the other ranks. */
  lemma BankCommandsAreWaitedOut(cfg: Config, table: TimingTable, actions: seq<Action>, m: int, n: int, id: BankId,
                                 d: int)
    requires cfg.Valid()
    requires var log := Exec(cfg, table, actions).log; 0 <= m < n < |log| && cfg.Has(id) && Asks(log[n].cmd, id)
    ensures var log := Exec(cfg, table, actions).log;
      var c, a, e, late := log[m].cmd, log[m].cmd.addr, (log[n].cmd.kind, d), log[n].clk >= log[m].clk + d;
      var sameRank, sameGroup := id.rank == a.rank, id.rank == a.rank && id.bankgroup == a.bankgroup;
      && (id == BankId(a.rank, a.bankgroup, a.bank) ==>
            c.kind in {Read, Write, Activate, Precharge, Gwrite, PimPrecharge} && e in table.sameBank(c.kind) ==> late)
      && (sameGroup && id.bank != a.bank && c.kind in {Read, Write, Activate, Precharge, Gwrite} ==>
            e in table.otherBanksSameBankgroup(c.kind) ==> late)
      && (sameRank && !sameGroup && c.kind in {Read, Write, Activate, Precharge, Gwrite} ==>
            e in table.otherBankgroupsSameRank(c.kind) ==> late)
      && (!sameRank && c.kind in {Read, Write, Activate, Precharge} ==> e in table.otherRanks(c.kind) ==> late)
  {
    var log := Exec(cfg, table, actions).log;
    if Imposed(cfg, table, log[m].cmd, id, log[n].cmd.kind, d) {
      EveryDelayIsWaitedOut(cfg, table, actions, m, n, id, d);
    }
  }

  /** After a refresh: its rank. After a group activation: its bank group and its rank. After a compute: the channel. */
  lemma WideCommandsAreWaitedOut(cfg: Config, table: TimingTable, actions: seq<Action>, m: int, n: int, id: BankId,
                                 d: int)
    requires cfg.Valid()
    requires var log := Exec(cfg, table, actions).log; 0 <= m < n < |log| && cfg.Has(id) && Asks(log[n].cmd, id)
    ensures var log := Exec(cfg, table, actions).log;
      var c, a, e, late := log[m].cmd, log[m].cmd.addr, (log[n].cmd.kind, d), log[n].clk >= log[m].clk + d;
      && (c.kind == Refresh && id.rank == a.rank && e in table.sameRank(Refresh) ==> late)
      && (c.kind == GAct && id.rank == a.rank && id.bankgroup == a.bankgroup ==>
            e in table.otherBanksSameBankgroup(GAct) ==> late)
      && (c.kind == GAct && id.rank == a.rank && e in table.sameRank(GAct) ==> late)
      && (c.kind == CompsReadres && e in table.sameRank(CompsReadres) ==> late)
  {
    var log := Exec(cfg, table, actions).log;
    if Imposed(cfg, table, log[m].cmd, id, log[n].cmd.kind, d) {
      EveryDelayIsWaitedOut(cfg, table, actions, m, n, id, d);
    }
  }

  /** The next compute waits for the compute units. */
  lemma ComputesAreWaitedOut(cfg: Config, table: TimingTable, actions: seq<Action>, m: int, n: int)
    requires cfg.Valid()
    requires var log := Exec(cfg, table, actions).log;
      0 <= m < n < |log| && log[m].cmd.kind == CompsReadres == log[n].cmd.kind
    ensures var log := Exec(cfg, table, actions).log;
      log[n].clk >= log[m].clk + UnitsBusy(cfg, log[m].cmd.numComps)
  {
    var c := Exec(cfg, table, actions).log[m].cmd;
    ComputeImposes(cfg, table, c, BankId(0, 0, 0));
    hide Imposed, Exec, UnitsBusy;
    EveryDelayIsWaitedOut(cfg, table, actions, m, n, BankId(0, 0, 0), UnitsBusy(cfg, c.numComps));
  }

  lemma ComputeImposes(cfg: Config, table: TimingTable, c: Command, id: BankId)
    requires c.kind == CompsReadres
    ensures Imposed(cfg, table, c, id, CompsReadres, UnitsBusy(cfg, c.numComps))
  {
  }

  // ---- and nothing else is ----

  /** The time is 0 or comes from an earlier command's row. */
  ghost predicate Explained(cfg: Config, table: TimingTable, log: seq<Issued>, id: BankId, kind: CommandType, t: int) {
    t == 0 || exists m, d | 0 <= m < |log| && Imposed(cfg, table, log[m].cmd, id, kind, d) :: t == log[m].clk + d
  }

  lemma ExplainedByMore(cfg: Config, table: TimingTable, log: seq<Issued>, x: Issued, id: BankId, kind: CommandType,
                        t: int)
    requires Explained(cfg, table, log, id, kind, t)
    ensures Explained(cfg, table, log + [x], id, kind, t)
  {
    if t != 0 {
      var m, d :| 0 <= m < |log| && Imposed(cfg, table, log[m].cmd, id, kind, d) && t == log[m].clk + d;
      assert (log + [x])[m] == log[m];
    }
  }

  lemma {:induction false} DelayedComesFrom(b: Bank, delays: Delays, clk: int, kind: CommandType)
    ensures var t := Delayed(b, delays, clk).Earliest(kind);
      t == b.Earliest(kind) || exists d | (kind, d) in delays :: t == clk + d
    decreases |delays|
  {
    if delays != [] {
      var b' := b.UpdateTiming(delays[0].0, clk + delays[0].1);
      DelayedComesFrom(b', delays[1..], clk, kind);
      var t := Delayed(b, delays, clk).Earliest(kind);
      if t == b'.Earliest(kind) != b.Earliest(kind) {
        assert delays[0] == (kind, delays[0].1) && delays[0] in delays;
      } else if t != b.Earliest(kind) {
        var d :| (kind, d) in delays[1..] && t == clk + d;
        assert (kind, d) in delays;
      }
    }
  }

  lemma IssueExplained(cfg: Config, table: TimingTable, ch: Channel, c: Command, clk: int, log: seq<Issued>, id: BankId,
                       kind: CommandType)
    requires ch.Valid(cfg) && cfg.Addressed(c) && !UpdateAborts(ch, c) && id in ch.banks
    requires Explained(cfg, table, log, id, kind, ch.banks[id].Earliest(kind))
    ensures var ch' := Issue(cfg, table, ch, c, clk);
      id in ch'.banks && Explained(cfg, table, log + [Issued(c, clk)], id, kind, ch'.banks[id].Earliest(kind))
  {
    hide Entries, Delayed, Imposed;
    var mid, log' := UpdateState(ch, c), log + [Issued(c, clk)];
    if Affects(c, id) { UpdateKeepsTiming(ch.banks[id], c); }
    assert mid.banks[id].Earliest(kind) == ch.banks[id].Earliest(kind);
    DelayedComesFrom(mid.banks[id], Entries(cfg, table, c, id), clk, kind);
    ExplainedByMore(cfg, table, log, Issued(c, clk), id, kind, ch.banks[id].Earliest(kind));
    var t := Delayed(mid.banks[id], Entries(cfg, table, c, id), clk).Earliest(kind);
    assert Issue(cfg, table, ch, c, clk).banks[id].Earliest(kind) == t;
    if t != ch.banks[id].Earliest(kind) {
      var d :| (kind, d) in Entries(cfg, table, c, id) && t == clk + d;
      EntriesAreImposed(cfg, table, c, id);
      assert log'[|log|].cmd == c && Imposed(cfg, table, log'[|log|].cmd, id, kind, d);
    }
  }

  ghost predicate AllExplained(cfg: Config, table: TimingTable, w: World) {
    forall id, kind | id in w.ch.banks :: Explained(cfg, table, w.log, id, kind, w.ch.banks[id].Earliest(kind))
  }

  lemma IssueKeepsExplained(cfg: Config, table: TimingTable, w: World, c: Command, w': World)
    requires w.ch.Valid(cfg) && cfg.Addressed(c) && !UpdateAborts(w.ch, c) && AllExplained(cfg, table, w)
    requires w' == World(Issue(cfg, table, w.ch, c, w.clk), w.clk, w.log + [Issued(c, w.clk)])
    ensures AllExplained(cfg, table, w')
  {
    hide Explained, Issue, UpdateAborts;
    IssueFrame(cfg, table, w.ch, c, w.clk);
    forall id, kind | id in w'.ch.banks
      ensures Explained(cfg, table, w'.log, id, kind, w'.ch.banks[id].Earliest(kind))
    {
      IssueExplained(cfg, table, w.ch, c, w.clk, w.log, id, kind);
    }
  }

  /** In every run a bank's earliest time for a kind is 0 or comes from a row of a scope that relates an issued command
      to the bank. */
  lemma {:induction false} EveryTimeIsExplained(cfg: Config, table: TimingTable, actions: seq<Action>)
    requires cfg.Valid()
    ensures AllExplained(cfg, table, Exec(cfg, table, actions))
    decreases |actions|
  {
    if actions != [] {
      var init, a := actions[..|actions| - 1], actions[|actions| - 1];
      EveryTimeIsExplained(cfg, table, init);
      var w := Exec(cfg, table, init);
      hide Explained, Certified, Issue, UpdateAborts;
      var c := StepShape(cfg, table, w, a);
      if Issues(cfg, w, a, c) {
        CertifiedNeverAborts(cfg, w.ch, a.req, w.clk, c);
        IssueKeepsExplained(cfg, table, w, c, Exec(cfg, table, actions));
      }
    }
  }

  // ---- rows, hits and refreshes as the log tells them ----

  predicate At(c: Command, id: BankId) {
    c.addr.rank == id.rank && c.addr.bankgroup == id.bankgroup && c.addr.bank == id.bank
  }

  /** The row of the last ACTIVATE of the bank, unless a PRECHARGE came after it. */
  function RowAfter(log: seq<Issued>, id: BankId): RowBuffer {
    if log == [] then Closed
    else
      var c := log[|log| - 1].cmd;
      if At(c, id) && c.kind == Activate then Open(c.addr.row)
      else if At(c, id) && c.kind == Precharge then Closed
      else RowAfter(log[..|log| - 1], id)
  }

  /** The row of the last group activation of the bank's group, unless a PIM_PRECHARGE of the bank came after it. */
  function PimRowAfter(log: seq<Issued>, id: BankId): RowBuffer {
    if log == [] then Closed
    else
      var c := log[|log| - 1].cmd;
      if c.kind == GAct && c.addr.rank == id.rank && c.addr.bankgroup == id.bankgroup then Open(c.addr.row)
      else if At(c, id) && c.kind == PimPrecharge then Closed
      else PimRowAfter(log[..|log| - 1], id)
  }

  /** Reads and writes of the bank since its last PRECHARGE. */
  function HitsAfter(log: seq<Issued>, id: BankId): nat {
    if log == [] then 0
    else
      var c := log[|log| - 1].cmd;
      if At(c, id) && c.kind == Precharge then 0
      else HitsAfter(log[..|log| - 1], id) + if At(c, id) && c.kind in {Read, Write} then 1 else 0
  }

  lemma IssueHits(cfg: Config, table: TimingTable, ch: Channel, c: Command, clk: int, id: BankId)
    requires ch.Valid(cfg) && cfg.Addressed(c) && !UpdateAborts(ch, c) && id in ch.banks
    ensures var ch' := Issue(cfg, table, ch, c, clk);
      id in ch'.banks && ch'.banks[id].rowHits ==
        if At(c, id) && c.kind == Precharge then 0
        else ch.banks[id].rowHits + if At(c, id) && c.kind in {Read, Write} then 1 else 0
  {
    hide Entries, Delayed;
    DelayedRecords(UpdateState(ch, c).banks[id], Entries(cfg, table, c, id), clk);
  }

  ghost predicate AllLogged(w: World) {
    forall id | id in w.ch.banks ::
      && w.ch.banks[id].normal == RowAfter(w.log, id)
      && w.ch.banks[id].pim == PimRowAfter(w.log, id)
      && w.ch.banks[id].rowHits == HitsAfter(w.log, id)
  }

  lemma IssueKeepsLogged(cfg: Config, table: TimingTable, w: World, c: Command, w': World)
    requires w.ch.Valid(cfg) && cfg.Addressed(c) && !UpdateAborts(w.ch, c) && AllLogged(w)
    requires w' == World(Issue(cfg, table, w.ch, c, w.clk), w.clk, w.log + [Issued(c, w.clk)])
    ensures AllLogged(w')
  {
    hide Issue, UpdateAborts;
    IssueRows(cfg, table, w.ch, c, w.clk);
    IssueFrame(cfg, table, w.ch, c, w.clk);
    assert w'.log[..|w'.log| - 1] == w.log;
    forall id | id in w'.ch.banks
      ensures w'.ch.banks[id].normal == RowAfter(w'.log, id) && w'.ch.banks[id].pim == PimRowAfter(w'.log, id)
      ensures w'.ch.banks[id].rowHits == HitsAfter(w'.log, id)
    {
      assert cfg.Has(id) && id in w.ch.banks;
      IssueHits(cfg, table, w.ch, c, w.clk, id);
    }
  }

  /** In every run both row buffers and the hit count of a bank are what the log says. */
  lemma {:induction false} RowsAreLogged(cfg: Config, table: TimingTable, actions: seq<Action>)
    requires cfg.Valid()
    ensures AllLogged(Exec(cfg, table, actions))
    decreases |actions|
  {
    if actions != [] {
      var init, a := actions[..|actions| - 1], actions[|actions| - 1];
      RowsAreLogged(cfg, table, init);
      var w := Exec(cfg, table, init);
      hide AllLogged, Certified, Issue, UpdateAborts;
      var c := StepShape(cfg, table, w, a);
      if Issues(cfg, w, a, c) {
        CertifiedNeverAborts(cfg, w.ch, a.req, w.clk, c);
        IssueKeepsLogged(cfg, table, w, c, Exec(cfg, table, actions));
      } else {
        SameBanksLogged(w, Exec(cfg, table, actions));
      }
    }
  }

  lemma SameBanksLogged(w: World, w': World)
    requires AllLogged(w) && w'.ch.banks == w.ch.banks && w'.log == w.log
    ensures AllLogged(w')
  {
  }

  function Waiting(q: seq<Command>, rank: int): nat {
    if q == [] then 0 else Waiting(q[..|q| - 1], rank) + if q[|q| - 1].addr.rank == rank then 1 else 0
  }

  /** An issued refresh takes one waiting refresh of its rank out of the queue, and none of another rank. */
  lemma {:induction false} OneLeaves(q: seq<Command>, rank: int, r: int)
    ensures Waiting(RankRefreshed(q, rank), r)
         == if r == rank && Waiting(q, rank) > 0 then Waiting(q, r) - 1 else Waiting(q, r)
  {
    if q != [] {
      FrontCounts(q, r);
      FrontCounts(q, rank);
      if q[0].Rank() != rank {
        OneLeaves(q[1..], rank, r);
        FrontCounts([q[0]] + RankRefreshed(q[1..], rank), r);
        assert ([q[0]] + RankRefreshed(q[1..], rank))[1..] == RankRefreshed(q[1..], rank);
      }
    }
  }

  lemma {:induction false} FrontCounts(q: seq<Command>, r: int)
    requires q != []
    ensures Waiting(q, r) == Waiting(q[1..], r) + if q[0].addr.rank == r then 1 else 0
  {
    if |q| > 1 {
      FrontCounts(q[..|q| - 1], r);
      assert q[..|q| - 1][1..] == q[1..][..|q| - 2] && q[1..][|q| - 2] == q[|q| - 1];
    } else {
      assert q[1..] == [] && q[..0] == [];
    }
  }

  // ---- exactly when the windows let an ACTIVATE through ----

  /** Fewer than `limit` activations, or the one `limit` ago is `span` cycles back. */
  predicate Spread(acts: seq<int>, limit: nat, span: nat, clk: int)
    requires limit > 0
  {
    |acts| < limit || acts[|acts| - limit] + span <= clk
  }

  lemma WindowIsSpread(window: seq<int>, acts: seq<int>, limit: nat, span: nat, clk: int)
    requires limit > 0 && WindowInv(window, acts, limit, span, clk)
    ensures WindowOpen(window, limit, clk) <==> Spread(acts, limit, span, clk)
  {
    if |acts| >= limit {
      var gone := |acts| - |window|;
      if |acts| - limit < gone {
        assert acts[|acts| - limit] + span <= acts[|acts| - 1] <= clk;
      } else {
        assert window[0] == acts[gone] + span;
      }
    }
  }

  /** In every run an ACTIVATE of a rank passes the windows exactly if the fourth activation back is tFAW away, on GDDR
      also the 32nd t32AW. */
  lemma WindowsPassExactly(cfg: Config, table: TimingTable, actions: seq<Action>, r: int)
    requires cfg.Valid() && 0 <= r < cfg.ranks
    ensures var w := Exec(cfg, table, actions); var acts := Activations(w.log, r);
      ActivationWindowOk(cfg, w.ch, r, w.clk)
      <==> Spread(acts, 4, cfg.tFAW, w.clk) && (cfg.gddr ==> Spread(acts, 32, cfg.t32AW, w.clk))
  {
    var w := Exec(cfg, table, actions);
    ActivationWindows(cfg, table, actions);
    WindowIsSpread(w.ch.fourAw[r], Activations(w.log, r), 4, cfg.tFAW, w.clk);
    if cfg.gddr { WindowIsSpread(w.ch.thirtyTwoAw[r], Activations(w.log, r), 32, cfg.t32AW, w.clk); }
  }
}
