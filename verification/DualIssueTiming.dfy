/** The read and write delays of the timing constructor, and what they mean for dual issue. */
module DualIssueTiming {
  // With the delays computed from the latencies, no run loses a read or write exactly when read and write latency are
  // close enough. The HBM2 values are not: a write and a ready read of the other rank lose the read.

  import opened Commands
  import opened Banks
  import opened Channels
  import opened Queues
  import opened DramQueue
  import opened DualIssueLimits
  import opened DualIssueRuns
  import opened DualIssueLoss
  import opened RefreshProgress

  /** The latencies the read and write rows depend on; `burst` is 0 when perfect bandwidth is simulated. */
  datatype Latencies = Latencies(burst: nat, tCCDL: nat, tCCDS: nat, tRTRS: nat, readLatency: nat, writeLatency: nat,
                                 tWTRL: nat, tWTRS: nat, readToPrecharge: nat, writeToPrecharge: nat, dualBuffer: bool)

  /** Delays within a bank group: the short ones if there is only one group. */
  function WithinGroup(cfg: Config, short: nat, long: nat): nat { if cfg.bankgroups == 1 then short else long }

  function ReadToWrite(t: Latencies): int { t.readLatency + t.burst - t.writeLatency + t.tRTRS }

  function ReadToWriteOther(t: Latencies): int {
    t.readLatency + t.burst + t.burst + t.tRTRS - (t.writeLatency + t.burst)
  }

  function WriteToReadOther(t: Latencies): int {
    t.writeLatency + t.burst + t.burst + t.tRTRS - (t.readLatency + t.burst)
  }

  function ReadRow(cfg: Config, t: Latencies): (row: (Delays, Delays, Delays, Delays)) {
    var l, s := Max(t.burst, WithinGroup(cfg, t.tCCDS, t.tCCDL)), Max(t.burst, t.tCCDS);
    var pim := if t.dualBuffer then 0 else l;
    ([(Read, l), (Write, ReadToWrite(t)), (Precharge, t.readToPrecharge), (Gwrite, l), (CompsReadres, pim)],
     [(Read, l), (Write, ReadToWrite(t)), (Gwrite, l), (CompsReadres, pim)],
     [(Read, s), (Write, ReadToWrite(t)), (Gwrite, s), (CompsReadres, s)],
     [(Read, t.burst + t.tRTRS), (Write, ReadToWriteOther(t))])
  }

  function WriteRow(cfg: Config, t: Latencies): (row: (Delays, Delays, Delays, Delays)) {
    var readL := t.writeLatency + t.burst + WithinGroup(cfg, t.tWTRS, t.tWTRL);
    var readS := t.writeLatency + t.burst + t.tWTRS;
    var l, s := Max(t.burst, WithinGroup(cfg, t.tCCDS, t.tCCDL)), Max(t.burst, t.tCCDS);
    var pim := if t.dualBuffer then 0 else readL;
    ([(Read, readL), (Write, l), (Precharge, t.writeToPrecharge), (Gwrite, readL), (CompsReadres, pim)],
     [(Read, readL), (Write, l), (Gwrite, readL), (CompsReadres, pim)],
     [(Read, readS), (Write, s), (Gwrite, readS), (CompsReadres, readS)],
     [(Read, WriteToReadOther(t)), (Write, t.burst)])
  }

  /** The table has the read and write rows of these latencies; its other rows are arbitrary. */
  ghost predicate HasRows(cfg: Config, t: Latencies, table: TimingTable) {
    && (table.sameBank(Read), table.otherBanksSameBankgroup(Read), table.otherBankgroupsSameRank(Read),
        table.otherRanks(Read))
       == ReadRow(cfg, t)
    && (table.sameBank(Write), table.otherBanksSameBankgroup(Write), table.otherBankgroupsSameRank(Write),
        table.otherRanks(Write))
       == WriteRow(cfg, t)
  }

  /** A read hands the bus to a write in time, and across ranks a write to a read. */
  predicate LatenciesClose(cfg: Config, t: Latencies) {
    && t.writeLatency < t.readLatency + t.burst + t.tRTRS
    && (cfg.ranks > 1 ==> t.readLatency < t.writeLatency + t.burst + t.tRTRS)
  }

  /** A row listing a read and a write delay first is positive for a kind exactly if that delay is. */
  lemma TwoEntries(delays: Delays)
    requires |delays| >= 2 && delays[0].0 == Read && delays[1].0 == Write
    requires forall m | 2 <= m < |delays| :: delays[m].0 !in {Read, Write}
    ensures PositiveFor(delays, Read) <==> delays[0].1 > 0
    ensures PositiveFor(delays, Write) <==> delays[1].1 > 0
  {
    assert delays[0] in delays && delays[1] in delays;
  }

  lemma RowsArePositive(cfg: Config, t: Latencies, table: TimingTable)
    requires cfg.Valid() && HasRows(cfg, t, table) && t.burst > 0
    ensures PositivePair(cfg, table, Read, Read) && PositivePair(cfg, table, Write, Write)
    ensures PositivePair(cfg, table, Read, Write) <==> t.writeLatency < t.readLatency + t.burst + t.tRTRS
    ensures PositivePair(cfg, table, Write, Read)
       <==> (cfg.ranks > 1 ==> t.readLatency < t.writeLatency + t.burst + t.tRTRS)
  {
    hide PositiveFor;
    TwoEntries(table.sameBank(Read));
    TwoEntries(table.otherBanksSameBankgroup(Read));
    TwoEntries(table.otherBankgroupsSameRank(Read));
    TwoEntries(table.otherRanks(Read));
    TwoEntries(table.sameBank(Write));
    TwoEntries(table.otherBanksSameBankgroup(Write));
    TwoEntries(table.otherBankgroupsSameRank(Write));
    TwoEntries(table.otherRanks(Write));
  }

  /** Some run under dual issue loses a read or write exactly when the latencies differ by the burst and the rank switch
      or more; with one rank only a write latency that far above the read latency counts. */
  lemma LossExactlyByLatencies(cfg: Config, t: Latencies, table: TimingTable, structure: Structure, size: nat)
    requires cfg.Valid() && size > 1 && HasRows(cfg, t, table) && t.burst > 0
    ensures (exists interval: nat, run: seq<Action> | interval > 0 :: Loses(cfg, table, structure, size, interval, run))
       <==> !LatenciesClose(cfg, t)
  {
    hide HasRows, PositivePair, Loses;
    LossExactlyAtAGap(cfg, table, structure, size);
    PositiveByLatencies(cfg, t, table);
  }

  lemma PositiveByLatencies(cfg: Config, t: Latencies, table: TimingTable)
    requires cfg.Valid() && HasRows(cfg, t, table) && t.burst > 0
    ensures PositiveReadWrite(cfg, table) <==> LatenciesClose(cfg, t)
  {
    hide HasRows, PositivePair;
    RowsArePositive(cfg, t, table);
    if PositiveReadWrite(cfg, table) {
      assert PositivePair(cfg, table, Read, Write) && PositivePair(cfg, table, Write, Read);
    }
  }

  /** With perfect bandwidth and several ranks something is lost whatever the latencies. */
  lemma PerfectBandwidthLoses(cfg: Config, t: Latencies, table: TimingTable, structure: Structure, size: nat)
    requires cfg.Valid() && size > 1 && HasRows(cfg, t, table) && t.burst == 0 && cfg.ranks > 1
    ensures exists interval: nat, run: seq<Action> | interval > 0 :: Loses(cfg, table, structure, size, interval, run)
  {
    hide Loses;
    LossExactlyAtAGap(cfg, table, structure, size);
    TwoEntries(table.otherRanks(Write));
    assert !PositivePair(cfg, table, Write, Write);
  }

  // ---- the HBM2 values ----

  const HBM2 := Config(2, 4, 4, 30, 330, false, 2, 1, 14, 14)
  const HBM2_LATENCIES := Latencies(2, 2, 1, 2, 14, 4, 8, 6, 5, 22, false)

  /** From the start a run with paced arrivals and refreshes on time, over before the first interval is, ends in a cycle
      that issues a write of rank 0 and takes a read of rank 1 out of its queue without issuing it. */
  lemma Hbm2LosesARead(table: TimingTable, structure: Structure) returns (run: seq<Action>)
    requires HasRows(HBM2, HBM2_LATENCIES, table)
    ensures run != [] && run[|run| - 1].Tick?
    ensures forall interval: nat | interval >= |run| :: Loses(HBM2, table, structure, 8, interval, run)
    ensures Loss(LastCycle(HBM2, table, structure, 8, run), Write, BankId(0, 0, 0), Read, BankId(1, 0, 0))
  {
    hide Loses, LosesSoon, PositiveFor, Loss;
    TwoEntries(table.otherRanks(Write));
    TwoEntries(table.sameBank(Read));
    var actions := TwoQueueGapLoses(HBM2, table, structure, 8, Write, Read, BankId(1, 0, 0));
    run := WholeRun(HBM2, table, structure, 8, actions, Write, ORIGIN, Read, BankId(1, 0, 0));
  }
}
