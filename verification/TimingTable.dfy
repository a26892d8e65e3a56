/** The timing table the simulator computes from its parameters, and its estimate of a PIM operation's latency. */
module TimingTables {
  import opened Commands
  import opened Banks
  import opened Channels
  import opened DualIssueTiming

  /** `spaced` is for the protocols that keep precharges of a rank tPPD apart. */
  datatype Parameters = Parameters(
    latencies: Latencies, tRP: nat, tRAS: nat, activateToRead: nat, activateToWrite: nat, tRCDRD: nat, tRRDL: nat,
    tRRDS: nat, tFAW: nat, tRFC: nat, tPPD: nat, spaced: bool)
  {
    function RowCycle(): nat { tRAS + tRP }
  }

  function GwriteDelay(t: Latencies): nat { (t.tCCDS + t.tCCDL) * 32 }

  function ReadToReadLong(cfg: Config, t: Latencies): int { Max(t.burst, WithinGroup(cfg, t.tCCDS, t.tCCDL)) }

  function ReadToReadShort(t: Latencies): int { Max(t.burst, t.tCCDS) }

  function ActivatesLong(cfg: Config, p: Parameters): nat { WithinGroup(cfg, p.tRRDS, p.tRRDL) }

  /** Between an activation and a group activation of the same bank or group. */
  function ActivatesAcross(cfg: Config, p: Parameters): nat {
    if p.latencies.dualBuffer then ActivatesLong(cfg, p) else p.RowCycle()
  }

  function OwnBank(cfg: Config, p: Parameters, k: CommandType): Delays {
    var g := GwriteDelay(p.latencies);
    match k
    case Read => ReadRow(cfg, p.latencies).0
    case Write => WriteRow(cfg, p.latencies).0
    case Activate =>
      [(Activate, p.RowCycle()), (Read, p.activateToRead), (Write, p.activateToWrite), (Precharge, p.tRAS),
       (GAct, ActivatesAcross(cfg, p)), (Gwrite, p.activateToRead)]
    case Precharge => [(Activate, p.tRP), (Refresh, p.tRP)]
    case PimPrecharge => [(Refresh, p.tRP), (GAct, p.tRP)]
    case Gwrite => [(Read, g), (Write, g), (Precharge, g), (CompsReadres, g)]
    case _ => []
  }

  function OtherBanks(cfg: Config, p: Parameters, k: CommandType): Delays {
    var t, g := p.latencies, GwriteDelay(p.latencies);
    match k
    case Read => ReadRow(cfg, t).1
    case Write => WriteRow(cfg, t).1
    case Activate => [(Activate, ActivatesLong(cfg, p)), (GAct, ActivatesLong(cfg, p))]
    case Precharge => if p.spaced then [(Precharge, p.tPPD)] else []
    case Gwrite => [(Read, ReadToReadLong(cfg, t)), (Write, ReadToWrite(t)), (Gwrite, g), (CompsReadres, g)]
    case GAct =>
      [(Activate, ActivatesAcross(cfg, p)), (GAct, p.RowCycle()), (CompsReadres, p.activateToRead),
       (PimPrecharge, p.tRAS)]
    case _ => []
  }

  function OtherGroups(cfg: Config, p: Parameters, k: CommandType): Delays {
    var t, g := p.latencies, GwriteDelay(p.latencies);
    match k
    case Read => ReadRow(cfg, t).2
    case Write => WriteRow(cfg, t).2
    case Activate => [(Activate, p.tRRDS), (GAct, p.tRRDS)]
    case Precharge => if p.spaced then [(Precharge, p.tPPD)] else []
    case Gwrite => [(Read, ReadToReadShort(t)), (Write, ReadToWrite(t)), (Gwrite, g), (CompsReadres, g)]
    case _ => []
  }

  function OtherRanks(cfg: Config, p: Parameters, k: CommandType): Delays {
    match k
    case Read => ReadRow(cfg, p.latencies).3
    case Write => WriteRow(cfg, p.latencies).3
    case _ => []
  }

  function SameRank(p: Parameters, k: CommandType): Delays {
    var t := p.latencies;
    match k
    case Refresh => [(Activate, p.tRFC), (Refresh, p.tRFC), (GAct, p.tRFC)]
    case GAct => [(Activate, p.tFAW), (GAct, p.tFAW), (CompsReadres, p.tRCDRD)]
    case CompsReadres =>
      [(Read, t.burst + t.tRTRS), (Write, ReadToWriteOther(t)), (Gwrite, ReadToReadShort(t)),
       (GAct, t.readToPrecharge + p.tRP), (PimPrecharge, t.readToPrecharge),
       (Precharge, if t.dualBuffer then 0 else t.readToPrecharge)]
    case _ => []
  }

  function TableOf(cfg: Config, p: Parameters): TimingTable {
    TimingTable(k => OwnBank(cfg, p, k), k => OtherBanks(cfg, p, k), k => OtherGroups(cfg, p, k),
                k => OtherRanks(cfg, p, k), k => SameRank(p, k))
  }

  lemma TableHasRows(cfg: Config, p: Parameters)
    ensures HasRows(cfg, p.latencies, TableOf(cfg, p))
  {
  }

  // ---- the estimate ----

  /** The bank groups, by rank, a header's row still has to be activated in. */
  function ToActivate(ch: Channel, row: int): set<(int, int)> {
    set id | id in ch.banks && ch.banks[id].pim != Open(row) :: (id.rank, id.bankgroup)
  }

  /** The banks whose PIM buffer holds another row. */
  function ToPrecharge(ch: Channel, row: int): set<BankId> {
    set id | id in ch.banks && ch.banks[id].pim.Open? && ch.banks[id].pim != Open(row)
  }

  /** What an operation at the head of the PIM queue is expected to take; a header announces `readres` results. */
  function EstimatedLatency(p: Parameters, ch: Channel, c: Command, readres: nat): int {
    var t := p.latencies;
    if c.IsGwrite() && IdOf(c.addr) in ch.banks then
      var b := ch.banks[IdOf(c.addr)];
      (if b.normal == Open(c.Row()) then 0
       else if b.normal.Open? then t.readToPrecharge + p.tRP + p.tRCDRD else p.tRP + p.tRCDRD)
      + GwriteDelay(t)
    else if c.IsPimHeader() then
      |ToPrecharge(ch, c.Row())| * t.readToPrecharge
      + p.tFAW * (|ToActivate(ch, c.Row())| / 2 - 1) + p.tRCDRD
      + Max(t.burst, t.tCCDS) * Max(c.numComps, 6) + Max(t.burst, t.tCCDL) * (readres - 1)
    else 0
  }
}
