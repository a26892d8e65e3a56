/** Runs as the NeuPIMs controller drives them. */
module DualBufferDriven {
  // Refreshes arrive when the refresh unit inserts them, each cycle sees the slack the unit reports, and at most one
  // command enters between two cycles. When GWRITEs are done depends on when they issue: see DualBufferReach.

  import opened DualBuffer
  import opened Refreshes

  /** Each command enters right after a cycle. */
  predicate Paced(run: seq<Action>) {
    forall i | 0 <= i < |run| && run[i].Add? :: i > 0 && run[i - 1].Cycle?
  }

  /** What the refresh unit makes of cycle `clk`, for an operation at the head of the PIM queue that takes `latency`. */
  function Tick(ranks: nat, interval: nat, clk: nat, latency: int): Action
    requires ranks > 0 && interval > 0
  {
    Cycle(ArrivalAt(ranks, interval, clk), Countdown(interval, clk), latency)
  }

  /** Arrivals and slack are the refresh unit's, from cycle `clk` on. */
  predicate OnTime(ranks: nat, interval: nat, run: seq<Action>, clk: nat)
    requires ranks > 0 && interval > 0
  {
    run == [] ||
      if run[0].Cycle? then
        && run[0].arrival == ArrivalAt(ranks, interval, clk) && run[0].remainToRefresh == Countdown(interval, clk)
        && OnTime(ranks, interval, run[1..], clk + 1)
      else OnTime(ranks, interval, run[1..], clk)
  }

  predicate Driven(ranks: nat, interval: nat, run: seq<Action>)
    requires ranks > 0 && interval > 0
  {
    Paced(run) && OnTime(ranks, interval, run, 0)
  }

  function Cycles(run: seq<Action>): nat {
    if run == [] then 0 else (if run[0].Cycle? then 1 else 0) + Cycles(run[1..])
  }

  lemma {:induction false} OnTimeAppends(ranks: nat, interval: nat, run: seq<Action>, a: Action, clk: nat)
    requires ranks > 0 && interval > 0 && OnTime(ranks, interval, run, clk)
    requires a.Cycle? ==> a == Tick(ranks, interval, clk + Cycles(run), a.latency)
    ensures OnTime(ranks, interval, run + [a], clk) && Cycles(run + [a]) == Cycles(run) + if a.Cycle? then 1 else 0
    decreases |run|
  {
    if run == [] {
      assert [a][1..] == [];
    } else {
      assert (run + [a])[1..] == run[1..] + [a];
      OnTimeAppends(ranks, interval, run[1..], a, if run[0].Cycle? then clk + 1 else clk);
    }
  }

  lemma OnTimeFrom(ranks: nat, interval: nat, run: seq<Action>, k: nat, clk: nat)
    requires ranks > 0 && interval > 0 && k < |run|
    requires OnTime(ranks, interval, run[k + 1..], if run[k].Cycle? then clk + 1 else clk)
    requires run[k].Cycle? ==> run[k] == Tick(ranks, interval, clk, run[k].latency)
    ensures OnTime(ranks, interval, run[k..], clk)
  {
    assert run[k..][1..] == run[k + 1..];
  }
}
