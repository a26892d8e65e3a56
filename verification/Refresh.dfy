/** The refresh unit: when a refresh arrives, for which rank, and what slack the unit reports. */
module Refreshes {
  // Rank-level staggered refreshes, the policy the NeuPIMs queue insists on: every `interval` cycles one rank's turn.

  import Bits

  /** A refresh arrives at every multiple of the interval but 0. */
  predicate Due(interval: nat, clk: nat)
    requires interval > 0
  {
    clk % interval == 0 && clk > 0
  }

  /** Refreshes inserted before cycle `clk`. */
  function Inserted(interval: nat, clk: nat): nat
    requires interval > 0
  {
    if clk == 0 then 0 else (clk - 1) / interval
  }

  /** The rank whose refresh arrives in cycle `clk`, -1 for none; ranks take turns. */
  function ArrivalAt(ranks: nat, interval: nat, clk: nat): int
    requires ranks > 0 && interval > 0
  {
    if Due(interval, clk) then Inserted(interval, clk) % ranks else -1
  }

  /** The slack reported in cycle `clk`: the unit's own clock has advanced already. */
  function Countdown(interval: nat, clk: nat): int
    requires interval > 0
  {
    interval - (clk + 1) % interval
  }

  /** The next cycle after `clk` in which a refresh arrives. */
  function NextDue(interval: nat, clk: nat): (d: nat)
    requires interval > 0
    ensures d > clk && Due(interval, d)
    ensures forall e: nat | clk < e < d :: !Due(interval, e)
  {
    var d := (clk / interval + 1) * interval;
    NextMultiple(interval, clk, d);
    d
  }

  lemma NextMultiple(interval: nat, clk: nat, d: nat)
    requires interval > 0 && d == (clk / interval + 1) * interval
    ensures d > clk && d % interval == 0 && d == clk - clk % interval + interval
    ensures forall e: nat | clk < e < d :: e % interval != 0
  {
    var n := clk / interval;
    assert clk == n * interval + clk % interval;
    assert d == n * interval + interval == (n + 1) * interval;
    Bits.Remainder(d, interval, n + 1, 0);
    forall e: nat | clk < e < d
      ensures e % interval != 0
    {
      Bits.Remainder(e, interval, n, e - n * interval);
    }
  }

  /** The reported slack is one less than the cycles left, except in the cycle right before a refresh, where it is a
      whole interval; so only then it exceeds them. */
  lemma SlackHoldsExactly(interval: nat, clk: nat)
    requires interval > 1
    ensures Countdown(interval, clk) <= NextDue(interval, clk) - clk <==> NextDue(interval, clk) != clk + 1
    ensures Countdown(interval, clk) ==
      if NextDue(interval, clk) == clk + 1 then interval else NextDue(interval, clk) - clk - 1
  {
    NextMultiple(interval, clk, NextDue(interval, clk));
    RankStep(interval, clk);
    var r := clk % interval;
    if r + 1 == interval { Bits.Remainder(r + 1, interval, 1, 0); } else { Bits.Remainder(r + 1, interval, 0, r + 1); }
  }

  /** Each rank's turn comes round after `ranks` intervals. */
  lemma TurnsComeRound(ranks: nat, interval: nat, clk: nat)
    requires ranks > 0 && interval > 0 && Due(interval, clk)
    ensures Due(interval, clk + ranks * interval)
    ensures ArrivalAt(ranks, interval, clk + ranks * interval) == ArrivalAt(ranks, interval, clk)
  {
    var n := clk / interval;
    assert clk == n * interval;
    DueTurn(interval, clk, n);
    assert clk + ranks * interval == (n + ranks) * interval;
    DueTurn(interval, clk + ranks * interval, n + ranks);
    var q := (n - 1) / ranks;
    assert n - 1 == q * ranks + (n - 1) % ranks;
    assert n - 1 + ranks == (q + 1) * ranks + (n - 1) % ranks;
    Bits.Remainder(n - 1 + ranks, ranks, q + 1, (n - 1) % ranks);
  }

  /** Among any `ranks` refreshes one after the other each rank has its turn. */
  lemma EveryRankHasItsTurn(ranks: nat, interval: nat, clk: nat, rank: nat) returns (j: nat)
    requires ranks > 0 && interval > 0 && Due(interval, clk) && rank < ranks
    ensures j < ranks && Due(interval, clk + j * interval) && ArrivalAt(ranks, interval, clk + j * interval) == rank
  {
    var n := clk / interval;
    assert clk == n * interval;
    DueTurn(interval, clk, n);
    j := StepsUntil(ranks, n - 1, rank);
    assert clk + j * interval == (n + j) * interval;
    hide ArrivalAt;
    DueTurn(interval, clk + j * interval, n + j);
    ArrivalIs(ranks, interval, clk + j * interval);
  }

  lemma ArrivalIs(ranks: nat, interval: nat, clk: nat)
    requires ranks > 0 && interval > 0 && Due(interval, clk)
    ensures ArrivalAt(ranks, interval, clk) == Inserted(interval, clk) % ranks
  {
  }

  lemma StepsUntil(ranks: nat, n: nat, rank: nat) returns (j: nat)
    requires rank < ranks
    ensures j < ranks && (n + j) % ranks == rank
  {
    var q, first := n / ranks, n % ranks;
    assert n == q * ranks + first;
    if rank >= first {
      j := rank - first;
      Bits.Remainder(n + j, ranks, q, rank);
    } else {
      j := rank + ranks - first;
      assert (q + 1) * ranks == q * ranks + ranks;
      Bits.Remainder(n + j, ranks, q + 1, rank);
    }
  }

  /** After a cycle the unit names the rank whose refresh comes next. */
  lemma NamedRankIsNext(ranks: nat, interval: nat, clk: nat)
    requires ranks > 0 && interval > 0
    ensures ArrivalAt(ranks, interval, NextDue(interval, clk)) == Inserted(interval, clk + 1) % ranks
  {
    var n, d := clk / interval, NextDue(interval, clk);
    NextMultiple(interval, clk, (n + 1) * interval);
    assert d == (n + 1) * interval;
    DueTurn(interval, d, n + 1);
  }

  lemma DueTurn(interval: nat, clk: nat, n: nat)
    requires interval > 0 && n > 0 && clk == n * interval
    ensures clk > 0 && Due(interval, clk) && Inserted(interval, clk) == n - 1
  {
    Bits.Remainder(clk, interval, n, 0);
    assert n * interval == (n - 1) * interval + interval;
    Bits.Remainder(clk - 1, interval, n - 1, interval - 1);
  }

  /** Arrival and slack by the place of a cycle in its interval. */
  lemma Reports(ranks: nat, interval: nat, clk: nat, n: nat, r: nat)
    requires ranks > 0 && interval > 1 && clk == n * interval + r && r < interval
    ensures ArrivalAt(ranks, interval, clk) == if r == 0 && n > 0 then (n - 1) % ranks else -1
    ensures Countdown(interval, clk) == if r + 1 == interval then interval else interval - (r + 1)
  {
    Bits.Remainder(clk, interval, n, r);
    RankStep(interval, clk);
    if r + 1 == interval { Bits.Remainder(r + 1, interval, 1, 0); } else { Bits.Remainder(r + 1, interval, 0, r + 1); }
    if r == 0 && n > 0 { DueTurn(interval, clk, n); }
  }

  class RefreshUnit {
    const ranks: nat
    const interval: nat
    var clk: nat
    var nextRank: nat

    ghost predicate Valid()
      reads this
    {
      ranks > 0 && interval > 0 && nextRank == Inserted(interval, clk) % ranks
    }

    constructor (ranks: nat, interval: nat)
      requires ranks > 0 && interval > 0
      ensures Valid() && this.ranks == ranks && this.interval == interval && clk == 0
    {
      this.ranks, this.interval, clk, nextRank := ranks, interval, 0, 0;
    }

    /** One cycle; the rank whose refresh is inserted, or -1. */
    method ClockTick() returns (rank: int)
      requires Valid()
      modifies this
      ensures Valid() && clk == old(clk) + 1 && rank == ArrivalAt(ranks, interval, old(clk))
    {
      rank := -1;
      InsertedStep(interval, clk);
      if clk % interval == 0 && clk > 0 {
        rank := nextRank;
        RankStep(ranks, Inserted(interval, clk));
        nextRank := (nextRank + 1) % ranks;
      }
      clk := clk + 1;
    }

    /** The rank to be refreshed next, and the slack before it. */
    method GetRefreshSlack() returns (rank: nat, slack: int)
      requires Valid()
      ensures rank == Inserted(interval, clk) % ranks
      ensures clk > 0 ==> rank == ArrivalAt(ranks, interval, NextDue(interval, clk - 1))
      ensures slack == if clk > 0 then Countdown(interval, clk - 1) else interval
    {
      if clk > 0 { NamedRankIsNext(ranks, interval, clk - 1); } else { Bits.Remainder(clk, interval, 0, 0); }
      rank, slack := nextRank, interval - clk % interval;
    }
  }

  lemma InsertedStep(interval: nat, clk: nat)
    requires interval > 0
    ensures Inserted(interval, clk + 1) == Inserted(interval, clk) + if Due(interval, clk) then 1 else 0
  {
    var n, r := clk / interval, clk % interval;
    assert clk == n * interval + r;
    if clk == 0 {
      Bits.Remainder(0, interval, 0, 0);
    } else if r > 0 {
      Bits.Remainder(clk - 1, interval, n, r - 1);
    } else {
      assert n != 0;
      DueTurn(interval, clk, n);
    }
  }

  lemma RankStep(ranks: nat, n: nat)
    requires ranks > 0
    ensures (n + 1) % ranks == (n % ranks + 1) % ranks
    ensures (n + 1) % ranks == if n % ranks + 1 == ranks then 0 else n % ranks + 1
  {
    var q, r := n / ranks, n % ranks;
    assert n == q * ranks + r;
    if r + 1 < ranks {
      Bits.Remainder(n + 1, ranks, q, r + 1);
      Bits.Remainder(r + 1, ranks, 0, r + 1);
    } else {
      assert n + 1 == (q + 1) * ranks;
      Bits.Remainder(n + 1, ranks, q + 1, 0);
      Bits.Remainder(r + 1, ranks, 1, 0);
    }
  }
}
