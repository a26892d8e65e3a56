/** The NeuPIMs queue with the values of the dual-buffer HBM2 configuration. */
module DualPim {
  import opened Commands
  import opened Banks
  import opened Channels
  import opened Queues
  import opened DualIssueTiming
  import opened TimingTables
  import opened DualBuffer
  import opened DualBufferReach
  import opened DualBufferExitRun

  const HBM2_DUAL_PIM :=
    Parameters(HBM2_LATENCIES.(dualBuffer := true), 14, 34, 14, 14, 14, 6, 4, 30, 260, 0, false)

  /** Two ranks, one refreshed every 1950 cycles; headers announce one result. */
  function Hbm2Setup(structure: Structure, size: nat): Setup {
    Setup(HBM2, TableOf(HBM2, HBM2_DUAL_PIM), structure, size, 1950, GwriteDelay(HBM2_DUAL_PIM.latencies),
          (ch, c) => EstimatedLatency(HBM2_DUAL_PIM, ch, c, 1))
  }

  predicate AtMost(delays: Delays, longest: nat) { forall i | 0 <= i < |delays| :: delays[i].1 <= longest }

  lemma RowsAreShort(k: CommandType)
    ensures AtMost(OwnBank(HBM2, HBM2_DUAL_PIM, k), 260) && AtMost(OtherBanks(HBM2, HBM2_DUAL_PIM, k), 260)
    ensures AtMost(OtherGroups(HBM2, HBM2_DUAL_PIM, k), 260) && AtMost(OtherRanks(HBM2, HBM2_DUAL_PIM, k), 260)
    ensures AtMost(SameRank(HBM2_DUAL_PIM, k), 260)
    ensures k == GAct ==> AtMost(OtherBanks(HBM2, HBM2_DUAL_PIM, k), 48) && AtMost(SameRank(HBM2_DUAL_PIM, k), 48)
  {
  }

  lemma DelaysAreShort()
    ensures Within(HBM2, TableOf(HBM2, HBM2_DUAL_PIM), ANY, ANY, 260)
    ensures Within(HBM2, TableOf(HBM2, HBM2_DUAL_PIM), {GAct}, GEMV, 48)
  {
    hide OwnBank, OtherBanks, OtherGroups, OtherRanks, SameRank;
    forall c: Command, id, e | c.numComps <= 6 && e in Entries(HBM2, TableOf(HBM2, HBM2_DUAL_PIM), c, id)
      ensures e.1 <= if c.kind == GAct then 48 else 260
    {
      RowsAreShort(c.kind);
    }
  }

  lemma EstimatesAreShort(ch: Channel)
    requires ch.Valid(HBM2)
    ensures EstimatedLatency(HBM2_DUAL_PIM, ch, GWRITE, 1) <= 129
    ensures ch == Initial(HBM2) ==> EstimatedLatency(HBM2_DUAL_PIM, ch, HEADER7, 1) <= 116
  {
    InGrid(ToActivate(ch, 7), 2, 4);
    assert ch == Initial(HBM2) ==> ToPrecharge(ch, 7) == {};
  }

  /** The interval has room for the run: delays are at most 260 cycles, and 48 after a group activation. */
  lemma Hbm2IsRoomy(structure: Structure, size: nat)
    requires size > 0
    ensures Roomy(Hbm2Setup(structure, size), 260, 48, 129)
  {
    var s := Hbm2Setup(structure, size);
    DelaysAreShort();
    hide Within, EstimatedLatency;
    forall ch: Channel | ch.Valid(HBM2) ensures s.estimate(ch, GWRITE) <= 129 { EstimatesAreShort(ch); }
    assert Initial(HBM2).Valid(HBM2);
    EstimatesAreShort(Initial(HBM2));
  }

  /** With these values some run driven as the controller drives it ends in the queue's exit. */
  lemma Hbm2ReachesTheExit(structure: Structure, size: nat) returns (run: seq<Action>)
    requires size > 0
    ensures Exits(Hbm2Setup(structure, size), run)
  {
    hide Roomy, Exits;
    Hbm2IsRoomy(structure, size);
    run := ManyRanksReachTheExit(Hbm2Setup(structure, size), 260, 48, 129);
  }
}
