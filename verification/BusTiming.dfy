/** What the computed delays are for. */
module BusTiming {
  // In every run under the computed table: bursts on the shared data bus come in the order of their commands and never
  // overlap, with a gap where the bus changes hands; rows, ranks and groups get the times their commands need; and
  // reads and writes find the row they address open.

  import opened Commands
  import opened Banks
  import opened Channels
  import opened ChannelRuns
  import opened ChannelScopes
  import opened DualIssueTiming
  import opened TimingTables

  ghost function Log(cfg: Config, p: Parameters, actions: seq<Action>): seq<Issued>
    requires cfg.Valid()
  {
    Exec(cfg, TableOf(cfg, p), actions).log
  }

  ghost predicate AllAddressed(cfg: Config, log: seq<Issued>) { forall x <- log :: cfg.Addressed(x.cmd) }

  lemma {:induction false} LogIsAddressed(cfg: Config, table: TimingTable, actions: seq<Action>)
    requires cfg.Valid()
    ensures AllAddressed(cfg, Exec(cfg, table, actions).log)
    decreases |actions|
  {
    if actions != [] {
      var init, a := actions[..|actions| - 1], actions[|actions| - 1];
      LogIsAddressed(cfg, table, init);
      hide GetReadyCommand, Issue;
      var w := Exec(cfg, table, init);
      var c := StepShape(cfg, table, w, a);
    }
  }

  // ---- the data bus ----

  predicate IsColumn(x: Issued) { x.cmd.kind in {Read, Write} }

  /** The first cycle of the burst on the data bus. */
  function BurstStart(t: Latencies, x: Issued): int {
    x.clk + if x.cmd.kind == Read then t.readLatency else t.writeLatency
  }

  function BurstEnd(t: Latencies, x: Issued): int { BurstStart(t, x) + t.burst }

  /** How the bank of the later command is related to that of the earlier one, and the row that says it. */
  lemma ColumnDelay(cfg: Config, p: Parameters, actions: seq<Action>, m: int, n: int) returns (d: int)
    requires cfg.Valid()
    requires var log := Log(cfg, p, actions); 0 <= m < n < |log| && IsColumn(log[m]) && IsColumn(log[n])
    ensures var log := Log(cfg, p, actions);
      var c, e, t := log[m].cmd, log[n].cmd, p.latencies;
      && log[n].clk >= log[m].clk + d
      && (c.kind == Read && e.kind == Read ==> d >= t.burst && (c.Rank() != e.Rank() ==> d == t.burst + t.tRTRS))
      && (c.kind == Read && e.kind == Write ==> d == t.readLatency + t.burst + t.tRTRS - t.writeLatency)
      && (c.kind == Write && e.kind == Write ==> d >= t.burst)
      && (c.kind == Write && e.kind == Read ==>
            if c.Rank() != e.Rank() then d == t.writeLatency + t.burst + t.tRTRS - t.readLatency
            else d >= t.writeLatency + t.burst + (if cfg.bankgroups == 1 then t.tWTRS else
                                                  if c.addr.bankgroup == e.addr.bankgroup then t.tWTRL else t.tWTRS))
  {
    hide Exec;
    var log, table := Log(cfg, p, actions), TableOf(cfg, p);
    LogIsAddressed(cfg, table, actions);
    var c, e := log[m].cmd, log[n].cmd;
    assert cfg.Addressed(log[m].cmd) && cfg.Addressed(log[n].cmd);
    var row := if c.kind == Read then ReadRow(cfg, p.latencies) else WriteRow(cfg, p.latencies);
    var i := if e.kind == Read then 0 else 1;
    var sameGroup := c.Rank() == e.Rank() && c.addr.bankgroup == e.addr.bankgroup;
    var delays := if c.Rank() != e.Rank() then row.3 else if !sameGroup then row.2
                  else if c.addr.bank == e.addr.bank then row.0 else row.1;
    assert delays[i] in delays && delays[i].0 == e.kind;
    d := delays[i].1;
    assert Imposed(cfg, table, c, IdOf(e.addr), e.kind, d);
    EveryDelayIsWaitedOut(cfg, table, actions, m, n, IdOf(e.addr), d);
  }

  /** Bursts come in the order of their commands and never overlap. Between the bursts of reads of two ranks, of a read
      and a write after it, and of a write and a read of another rank the bus rests for tRTRS cycles; a read of the same
      rank waits tWTR after the burst of a write. */
  lemma BurstsNeverOverlap(cfg: Config, p: Parameters, actions: seq<Action>, m: int, n: int)
    requires cfg.Valid()
    requires var log := Log(cfg, p, actions); 0 <= m < n < |log| && IsColumn(log[m]) && IsColumn(log[n])
    ensures var log, t := Log(cfg, p, actions), p.latencies;
      var c, e := log[m].cmd, log[n].cmd;
      && BurstEnd(t, log[m]) <= BurstStart(t, log[n])
      && (c.kind == Read && (e.kind == Write || c.Rank() != e.Rank()) ==>
            BurstEnd(t, log[m]) + t.tRTRS <= BurstStart(t, log[n]))
      && (c.kind == Write && e.kind == Read ==>
            if c.Rank() != e.Rank() then BurstEnd(t, log[m]) + t.tRTRS <= BurstStart(t, log[n])
            else if cfg.bankgroups > 1 && c.addr.bankgroup == e.addr.bankgroup then
              BurstEnd(t, log[m]) + t.tWTRL <= log[n].clk
            else BurstEnd(t, log[m]) + t.tWTRS <= log[n].clk)
  {
    hide Exec;
    var d := ColumnDelay(cfg, p, actions, m, n);
  }

  // ---- rows, ranks and groups ----

  /** The delay, if any, that the parameters set between two commands of one bank. */
  function BankDelay(p: Parameters, m: CommandType, n: CommandType): int {
    match (m, n)
    case (Activate, Activate) => p.tRAS + p.tRP
    case (Activate, Precharge) => p.tRAS
    case (Activate, Write) => p.activateToWrite
    case (Activate, Read) => p.activateToRead
    case (Activate, Gwrite) => p.activateToRead
    case (Precharge, Activate) => p.tRP
    case (Read, Precharge) => p.latencies.readToPrecharge
    case (Write, Precharge) => p.latencies.writeToPrecharge
    case (PimPrecharge, GAct) => p.tRP
    case (Gwrite, Precharge) => (p.latencies.tCCDS + p.latencies.tCCDL) * 32
    case (Gwrite, Read) => (p.latencies.tCCDS + p.latencies.tCCDL) * 32
    case (Gwrite, Write) => (p.latencies.tCCDS + p.latencies.tCCDL) * 32
    case _ => 0
  }

  predicate OfBank(k: CommandType) { k in {Read, Write, Activate, Precharge, Gwrite, PimPrecharge, GAct} }

  lemma BankTimes(cfg: Config, p: Parameters, actions: seq<Action>, m: int, n: int)
    requires cfg.Valid()
    requires var log := Log(cfg, p, actions);
      && 0 <= m < n < |log| && OfBank(log[m].cmd.kind) && OfBank(log[n].cmd.kind)
      && IdOf(log[m].cmd.addr) == IdOf(log[n].cmd.addr) && BankDelay(p, log[m].cmd.kind, log[n].cmd.kind) > 0
    ensures var log := Log(cfg, p, actions);
      log[n].clk >= log[m].clk + BankDelay(p, log[m].cmd.kind, log[n].cmd.kind)
  {
    hide Exec;
    var log, table := Log(cfg, p, actions), TableOf(cfg, p);
    LogIsAddressed(cfg, table, actions);
    var c, e := log[m].cmd, log[n].cmd;
    assert cfg.Addressed(log[n].cmd);
    var d := BankDelay(p, c.kind, e.kind);
    var row := OwnBank(cfg, p, c.kind);
    assert (e.kind, d) in row by { InOwnBank(cfg, p, c.kind, e.kind); }
    assert Imposed(cfg, table, c, IdOf(e.addr), e.kind, d);
    EveryDelayIsWaitedOut(cfg, table, actions, m, n, IdOf(e.addr), d);
  }

  lemma InOwnBank(cfg: Config, p: Parameters, m: CommandType, n: CommandType)
    requires BankDelay(p, m, n) > 0
    ensures (n, BankDelay(p, m, n)) in OwnBank(cfg, p, m)
  {
    var row := OwnBank(cfg, p, m);
    assert |row| > 0 ==> row[0] in row;
    assert |row| > 1 ==> row[1] in row;
    assert |row| > 2 ==> row[2] in row;
    assert |row| > 3 ==> row[3] in row;
    assert |row| > 5 ==> row[5] in row;
  }

  /** The delay, if any, that the parameters set between two commands of one rank. */
  function RankDelay(cfg: Config, p: Parameters, m: CommandType, n: CommandType, sameGroup: bool): int {
    match (m, n)
    case (Activate, Activate) => if sameGroup && cfg.bankgroups > 1 then p.tRRDL else p.tRRDS
    case (Refresh, Activate) => p.tRFC
    case (Refresh, Refresh) => p.tRFC
    case (Refresh, GAct) => p.tRFC
    case (Precharge, Refresh) => p.tRP
    case (PimPrecharge, Refresh) => p.tRP
    case (Precharge, Precharge) => if p.spaced then p.tPPD else 0
    case (GAct, GAct) => p.tFAW
    case (GAct, Activate) => p.tFAW
    case (GAct, CompsReadres) => p.tRCDRD
    case (CompsReadres, GAct) => p.latencies.readToPrecharge + p.tRP
    case (CompsReadres, PimPrecharge) => p.latencies.readToPrecharge
    case (CompsReadres, Read) => p.latencies.burst + p.latencies.tRTRS
    case _ => 0
  }

  /** The bank at which the later command has to wait out the earlier. */
  function MeetingPoint(m: Command, n: Command): BankId {
    if m.kind == Refresh == n.kind then BankId(m.Rank(), 0, 0)
    else if n.kind in {Refresh, CompsReadres} then IdOf(m.addr)
    else IdOf(n.addr)
  }

  lemma RankTimes(cfg: Config, p: Parameters, actions: seq<Action>, m: int, n: int)
    requires cfg.Valid()
    requires var log := Log(cfg, p, actions);
      && 0 <= m < n < |log|
      && (log[m].cmd.kind != CompsReadres && log[n].cmd.kind != CompsReadres ==> log[m].cmd.Rank() == log[n].cmd.Rank())
      && (log[m].cmd.kind in {Activate, Precharge} && log[n].cmd.kind != Refresh ==>
            IdOf(log[m].cmd.addr) != IdOf(log[n].cmd.addr))
    ensures var log := Log(cfg, p, actions);
      var c, e := log[m].cmd, log[n].cmd;
      var d := RankDelay(cfg, p, c.kind, e.kind, c.addr.bankgroup == e.addr.bankgroup);
      d > 0 ==> log[n].clk >= log[m].clk + d
  {
    hide Exec;
    var log, table := Log(cfg, p, actions), TableOf(cfg, p);
    LogIsAddressed(cfg, table, actions);
    var c, e := log[m].cmd, log[n].cmd;
    assert cfg.Addressed(log[m].cmd) && cfg.Addressed(log[n].cmd);
    var d := RankDelay(cfg, p, c.kind, e.kind, c.addr.bankgroup == e.addr.bankgroup);
    if d > 0 {
      var id := MeetingPoint(c, e);
      RankImposes(cfg, p, c, e);
      EveryDelayIsWaitedOut(cfg, table, actions, m, n, id, d);
    }
  }

  lemma RankImposes(cfg: Config, p: Parameters, c: Command, e: Command)
    requires cfg.Valid() && cfg.Addressed(c) && cfg.Addressed(e)
    requires c.kind != CompsReadres && e.kind != CompsReadres ==> c.Rank() == e.Rank()
    requires c.kind in {Activate, Precharge} && e.kind != Refresh ==> IdOf(c.addr) != IdOf(e.addr)
    requires RankDelay(cfg, p, c.kind, e.kind, c.addr.bankgroup == e.addr.bankgroup) > 0
    ensures var id := MeetingPoint(c, e);
      && cfg.Has(id) && Asks(e, id)
      && Imposed(cfg, TableOf(cfg, p), c, id, e.kind,
                 RankDelay(cfg, p, c.kind, e.kind, c.addr.bankgroup == e.addr.bankgroup))
  {
    var wide := SameRank(p, c.kind);
    assert |wide| > 0 ==> wide[0] in wide;
    assert |wide| > 1 ==> wide[1] in wide;
    assert |wide| > 2 ==> wide[2] in wide;
    assert |wide| > 4 ==> wide[3] in wide && wide[4] in wide;
    var own, banks, groups := OwnBank(cfg, p, c.kind), OtherBanks(cfg, p, c.kind), OtherGroups(cfg, p, c.kind);
    assert |own| > 0 ==> own[0] in own;
    assert |own| > 1 ==> own[1] in own;
    assert |banks| > 0 ==> banks[0] in banks;
    assert |groups| > 0 ==> groups[0] in groups;
  }

  // ---- reads and writes find their row ----

  /** The command comes after an ACTIVATE of its row in its bank, with no other ACTIVATE or PRECHARGE of the bank
      between. */
  predicate RowOpened(log: seq<Issued>, n: int, m: int) {
    && 0 <= m < n < |log| && log[m].cmd.kind == Activate
    && IdOf(log[m].cmd.addr) == IdOf(log[n].cmd.addr) && log[m].cmd.Row() == log[n].cmd.Row()
    && forall i | m < i < n && log[i].cmd.kind in {Activate, Precharge} ::
         IdOf(log[i].cmd.addr) != IdOf(log[n].cmd.addr)
  }

  lemma {:induction false} OpenMeansActivated(log: seq<Issued>, id: BankId, row: int) returns (m: int)
    requires RowAfter(log, id) == Open(row)
    ensures 0 <= m < |log| && log[m].cmd.kind == Activate && IdOf(log[m].cmd.addr) == id && log[m].cmd.Row() == row
    ensures forall i | m < i < |log| && log[i].cmd.kind in {Activate, Precharge} :: IdOf(log[i].cmd.addr) != id
  {
    var c := log[|log| - 1].cmd;
    if At(c, id) && c.kind == Activate {
      m := |log| - 1;
    } else {
      m := OpenMeansActivated(log[..|log| - 1], id, row);
    }
  }

  ghost predicate InOpenRows(log: seq<Issued>) {
    forall n | 0 <= n < |log| && log[n].cmd.kind in {Read, Write, Gwrite} ::
      RowAfter(log[..n], IdOf(log[n].cmd.addr)) == Open(log[n].cmd.Row())
  }

  /** A bank certifies a read, write or GWRITE only for the row it has open. */
  lemma CertifiedRow(cfg: Config, ch: Channel, req: Command, clk: int, c: Command)
    requires ch.Valid(cfg) && Certified(cfg, ch, req, clk, c) && c.kind in {Read, Write, Gwrite}
    ensures IdOf(c.addr) in ch.banks && ch.banks[IdOf(c.addr)].normal == Open(c.Row())
  {
    var own := ch.banks[IdOf(c.addr)].GetReady(req, clk);
    assert Gated(c, IdOf(c.addr)) && own.Ready? && own.cmd.kind == c.kind;
  }

  lemma {:induction false} LogInOpenRows(cfg: Config, table: TimingTable, actions: seq<Action>)
    requires cfg.Valid()
    ensures InOpenRows(Exec(cfg, table, actions).log)
    decreases |actions|
  {
    if actions != [] {
      var init, a := actions[..|actions| - 1], actions[|actions| - 1];
      LogInOpenRows(cfg, table, init);
      RowsAreLogged(cfg, table, init);
      hide GetReadyCommand, Issue, Certified, RowAfter, PimRowAfter, HitsAfter, UpdateAborts;
      var w := Exec(cfg, table, init);
      var c := StepShape(cfg, table, w, a);
      if Issues(cfg, w, a, c) {
        if c.kind in {Read, Write, Gwrite} { CertifiedRow(cfg, w.ch, a.req, w.clk, c); }
        OneMoreInOpenRow(w.log, Issued(c, w.clk));
      }
    }
  }

  lemma OneMoreInOpenRow(log: seq<Issued>, x: Issued)
    requires InOpenRows(log)
    requires x.cmd.kind in {Read, Write, Gwrite} ==> RowAfter(log, IdOf(x.cmd.addr)) == Open(x.cmd.Row())
    ensures InOpenRows(log + [x])
  {
    hide RowAfter;
    var more := log + [x];
    forall n | 0 <= n < |more| && more[n].cmd.kind in {Read, Write, Gwrite}
      ensures RowAfter(more[..n], IdOf(more[n].cmd.addr)) == Open(more[n].cmd.Row())
    {
      assert more[..n] == log[..n];
      if n == |log| { assert log[..n] == log; }
    }
  }

  /** Every read and write of a run comes activateToRead or activateToWrite cycles or more after the ACTIVATE of its row
      that nothing has closed since. */
  lemma ColumnsFindTheirRow(cfg: Config, p: Parameters, actions: seq<Action>, n: int) returns (m: int)
    requires cfg.Valid()
    requires var log := Log(cfg, p, actions); 0 <= n < |log| && log[n].cmd.kind in {Read, Write, Gwrite}
    ensures var log := Log(cfg, p, actions);
      && RowOpened(log, n, m)
      && (p.activateToRead > 0 && log[n].cmd.kind != Write ==> log[n].clk >= log[m].clk + p.activateToRead)
      && (p.activateToWrite > 0 && log[n].cmd.kind == Write ==> log[n].clk >= log[m].clk + p.activateToWrite)
  {
    hide Exec, RowAfter;
    var log := Log(cfg, p, actions);
    LogInOpenRows(cfg, TableOf(cfg, p), actions);
    m := OpenMeansActivated(log[..n], IdOf(log[n].cmd.addr), log[n].cmd.Row());
    assert forall i | m < i < n :: log[..n][i] == log[i];
    if BankDelay(p, Activate, log[n].cmd.kind) > 0 { BankTimes(cfg, p, actions, m, n); }
  }
}
