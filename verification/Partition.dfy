/** The two-way split of a channel's requests: the dynamic programme over subset sums finds the split with the
    smallest difference, and grouping keeps every active request exactly once. */
module Partition {

  function Total(s: seq<nat>): nat {
    if s == [] then 0 else Total(s[..|s| - 1]) + s[|s| - 1]
  }

  /** The weight of the chosen elements; a choice says for each element whether it is in. */
  function Weigh(s: seq<nat>, choice: seq<bool>): nat
    requires |choice| == |s|
  {
    if s == [] then 0
    else Weigh(s[..|s| - 1], choice[..|s| - 1]) + if choice[|s| - 1] then s[|s| - 1] else 0
  }

  /** Some choice among `s` weighs exactly `j`. */
  ghost predicate Reachable(s: seq<nat>, j: int) {
    exists choice: seq<bool> | |choice| == |s| :: Weigh(s, choice) == j
  }

  lemma ReachableStep(s: seq<nat>, j: int)
    requires s != []
    ensures var init, x := s[..|s| - 1], s[|s| - 1];
      && (Reachable(s, j) <==> Reachable(init, j) || Reachable(init, j - x))
      && (Reachable(init, j - x) ==> j >= x)
  {
    var init, x := s[..|s| - 1], s[|s| - 1];
    if Reachable(s, j) {
      var choice :| |choice| == |s| && Weigh(s, choice) == j;
      assert Weigh(init, choice[..|s| - 1]) == if choice[|s| - 1] then j - x else j;
    }
    if Reachable(init, j) {
      var choice :| |choice| == |init| && Weigh(init, choice) == j;
      assert (choice + [false])[..|init|] == choice;
      assert Weigh(s, choice + [false]) == j;
    }
    if Reachable(init, j - x) {
      var choice :| |choice| == |init| && Weigh(init, choice) == j - x;
      assert (choice + [true])[..|init|] == choice;
      assert Weigh(s, choice + [true]) == j;
    }
  }

  lemma ReachableZero(s: seq<nat>)
    ensures Reachable(s, 0)
    decreases |s|
  {
    if s == [] { assert Weigh(s, []) == 0; } else { ReachableZero(s[..|s| - 1]); ReachableStep(s, 0); }
  }

  /** Fills the table row by row. */
  method FillTable(s: seq<nat>, target: nat) returns (dp: array2<bool>)
    ensures fresh(dp) && dp.Length0 == |s| + 1 && dp.Length1 == target + 1
    ensures forall i, j | 0 <= i <= |s| && 0 <= j <= target :: dp[i, j] <==> Reachable(s[..i], j)
  {
    dp := new bool[|s| + 1, target + 1]((i, j) => false);
    for i := 0 to |s| + 1
      invariant forall k, j | 0 <= k <= |s| && 0 <= j <= target :: dp[k, j] <==> (j == 0 && k < i)
    {
      dp[i, 0] := true;
    }
    assert s[..0] == [];
    forall j | 0 <= j <= target
      ensures dp[0, j] <==> Reachable(s[..0], j)
    {
      ReachableZero(s[..0]);
      if Reachable(s[..0], j) { var choice: seq<bool> :| |choice| == 0 && Weigh(s[..0], choice) == j; }
    }
    for i := 1 to |s| + 1
      invariant forall k, j | 0 <= k < i && 0 <= j <= target :: dp[k, j] <==> Reachable(s[..k], j)
      invariant forall k | i <= k <= |s| :: dp[k, 0]
    {
      ReachableZero(s[..i]);
      assert s[..i][..i - 1] == s[..i - 1];
      for j := 1 to target + 1
        invariant forall k, l | 0 <= k < i && 0 <= l <= target :: dp[k, l] <==> Reachable(s[..k], l)
        invariant forall k | i <= k <= |s| :: dp[k, 0]
        invariant forall l | 0 <= l < j :: dp[i, l] <==> Reachable(s[..i], l)
      {
        ReachableStep(s[..i], j);
        dp[i, j] := dp[i - 1, j];
        if j >= s[i - 1] {
          dp[i, j] := dp[i, j] || dp[i - 1, j - s[i - 1]];
        }
      }
    }
  }

  // ---- reading a split off the table ----

  /** The weight of choosing among the elements from `i` on. */
  function WeighTail(s: seq<nat>, i: nat, choice: seq<bool>): nat
    requires i + |choice| == |s|
    decreases |choice|
  {
    if choice == [] then 0 else (if choice[0] then s[i] else 0) + WeighTail(s, i + 1, choice[1..])
  }

  /** The positions, last first, of the elements from `i` on that are in (or out). */
  function Picked(choice: seq<bool>, i: nat, member: bool): seq<nat> {
    if choice == [] then [] else Picked(choice[1..], i + 1, member) + if choice[0] == member then [i] else []
  }

  lemma {:induction false} WeighIsTail(s: seq<nat>, i: nat, choice: seq<bool>)
    requires i <= |s| == |choice|
    ensures Weigh(s, choice) == Weigh(s[..i], choice[..i]) + WeighTail(s, i, choice[i..])
    decreases |s| - i
  {
    if i == |s| {
      assert s[..i] == s && choice[..i] == choice;
    } else {
      WeighIsTail(s, i + 1, choice);
      assert s[..i + 1][..i] == s[..i] && choice[..i + 1][..i] == choice[..i];
      assert choice[i..][1..] == choice[i + 1..];
    }
  }

  lemma WeighIsWholeTail(s: seq<nat>, choice: seq<bool>)
    requires |choice| == |s|
    ensures Weigh(s, choice) == WeighTail(s, 0, choice)
  {
    WeighIsTail(s, 0, choice);
    assert choice[0..] == choice;
  }

  /** The largest reachable sum not above the target. */
  ghost predicate BestSum(s: seq<nat>, target: nat, best: nat) {
    best <= target && Reachable(s, best) && forall j | best < j <= target :: !Reachable(s, j)
  }

  lemma OnlyZeroFromNothing(s: seq<nat>, j: int)
    requires s == [] && Reachable(s, j)
    ensures j == 0
  {
  }

  method Reconstruct(s: seq<nat>, target: nat, best: nat, dp: array2<bool>)
    returns (list1: seq<nat>, list2: seq<nat>, ghost choice: seq<bool>)
    requires dp.Length0 == |s| + 1 && dp.Length1 == target + 1 && BestSum(s, target, best)
    requires forall i, j | 0 <= i <= |s| && 0 <= j <= target :: dp[i, j] <==> Reachable(s[..i], j)
    ensures |choice| == |s| && Weigh(s, choice) == best
    ensures list1 == Picked(choice, 0, true) && list2 == Picked(choice, 0, false)
  {
    hide Reachable, Weigh;
    var i, j := |s|, best;
    list1, list2, choice := [], [], [];
    assert s[..i] == s;
    while i > 0 && j > 0
      invariant 0 <= i <= |s| && 0 <= j <= best && Reachable(s[..i], j)
      invariant |choice| == |s| - i && WeighTail(s, i, choice) == best - j
      invariant list1 == Picked(choice, i, true) && list2 == Picked(choice, i, false)
    {
      assert s[..i][..i - 1] == s[..i - 1];
      ReachableStep(s[..i], j);
      assert forall b :: ([b] + choice)[1..] == choice;
      if dp[i, j] && !dp[i - 1, j] {
        list1 := list1 + [i - 1];
        choice := [true] + choice;
        j := j - s[i - 1];
      } else {
        list2 := list2 + [i - 1];
        choice := [false] + choice;
      }
      i := i - 1;
    }
    if i == 0 { OnlyZeroFromNothing(s[..0], j); }
    while i > 0
      invariant 0 <= i <= |s| && |choice| == |s| - i && WeighTail(s, i, choice) == best
      invariant list1 == Picked(choice, i, true) && list2 == Picked(choice, i, false)
    {
      assert ([false] + choice)[1..] == choice;
      list2 := list2 + [i - 1];
      choice := [false] + choice;
      i := i - 1;
    }
    WeighIsWholeTail(s, choice);
  }

  // ---- what the split means ----

  predicate InRange(idx: seq<nat>, n: nat) {
    forall k | 0 <= k < |idx| :: idx[k] < n
  }

  function SumAt(s: seq<nat>, idx: seq<nat>): nat
    requires InRange(idx, |s|)
  {
    if idx == [] then 0 else SumAt(s, idx[..|idx| - 1]) + s[idx[|idx| - 1]]
  }

  function Abs(x: int): nat { if x >= 0 then x else -x }

  function Range(n: nat): seq<nat> { seq(n, i => i) }

  lemma {:induction false} PickedInRange(choice: seq<bool>, i: nat, member: bool)
    ensures InRange(Picked(choice, i, member), i + |choice|)
    decreases |choice|
  {
    if choice != [] { PickedInRange(choice[1..], i + 1, member); }
  }

  lemma {:induction false} PickedSum(s: seq<nat>, choice: seq<bool>, i: nat)
    requires i + |choice| == |s| && InRange(Picked(choice, i, true), |s|)
    ensures SumAt(s, Picked(choice, i, true)) == WeighTail(s, i, choice)
    decreases |choice|
  {
    if choice != [] {
      PickedInRange(choice[1..], i + 1, true);
      PickedSum(s, choice[1..], i + 1);
      var rest := Picked(choice[1..], i + 1, true);
      if choice[0] { assert (rest + [i])[..|rest|] == rest; } else { assert rest + [] == rest; }
    }
  }

  lemma {:induction false} PickedBoth(choice: seq<bool>, i: nat)
    ensures multiset(Picked(choice, i, true)) + multiset(Picked(choice, i, false))
         == multiset(seq(|choice|, k requires 0 <= k => i + k))
    decreases |choice|
  {
    if choice != [] {
      PickedBoth(choice[1..], i + 1);
      assert seq(|choice|, k requires 0 <= k => i + k) == [i] + seq(|choice[1..]|, k requires 0 <= k => i + 1 + k);
    }
  }

  lemma {:induction false} WeighComplement(s: seq<nat>, choice: seq<bool>)
    requires |choice| == |s|
    ensures Weigh(s, choice) + Weigh(s, seq(|choice|, k requires 0 <= k < |choice| => !choice[k])) == Total(s)
  {
    if s != [] {
      var other := seq(|choice|, k requires 0 <= k < |choice| => !choice[k]);
      var init := choice[..|s| - 1];
      assert other[..|s| - 1] == seq(|init|, k requires 0 <= k < |init| => !init[k]);
      WeighComplement(s[..|s| - 1], init);
    }
  }

  /** The largest sum not above half the total leaves the smallest difference of all splits. */
  lemma BestSumIsBestSplit(s: seq<nat>, best: nat, other: seq<bool>)
    requires BestSum(s, Total(s) / 2, best) && |other| == |s|
    ensures Total(s) - 2 * best <= Abs(Total(s) - 2 * Weigh(s, other))
  {
    WeighComplement(s, other);
    var flipped := seq(|other|, k requires 0 <= k < |other| => !other[k]);
    if Weigh(s, other) <= Total(s) / 2 {
      assert Reachable(s, Weigh(s, other));
    } else {
      assert Reachable(s, Weigh(s, flipped));
    }
  }

  /** The indices chosen and the others share out 0..n-1. */
  lemma ChoiceSharesOut(s: seq<nat>, choice: seq<bool>)
    requires |choice| == |s|
    ensures InRange(Picked(choice, 0, true), |s|) && InRange(Picked(choice, 0, false), |s|)
    ensures multiset(Picked(choice, 0, true)) + multiset(Picked(choice, 0, false)) == multiset(Range(|s|))
    ensures SumAt(s, Picked(choice, 0, true)) == Weigh(s, choice)
  {
    WeighIsWholeTail(s, choice);
    PickedInRange(choice, 0, true);
    PickedInRange(choice, 0, false);
    PickedSum(s, choice, 0);
    PickedBoth(choice, 0);
    assert seq(|choice|, k requires 0 <= k => 0 + k) == Range(|s|);
  }

  /** Searches the table's last row from the target down. */
  method LargestReachable(s: seq<nat>, target: nat, dp: array2<bool>) returns (best: nat)
    requires dp.Length0 == |s| + 1 && dp.Length1 == target + 1
    requires forall i, j | 0 <= i <= |s| && 0 <= j <= target :: dp[i, j] <==> Reachable(s[..i], j)
    ensures BestSum(s, target, best)
  {
    hide Reachable;
    best := target;
    ReachableZero(s);
    assert s[..|s|] == s;
    while best > 0 && !dp[|s|, best]
      invariant 0 <= best <= target
      invariant forall j | best < j <= target :: !Reachable(s, j)
    {
      best := best - 1;
    }
  }

  /** Two index lists that share out 0..n-1, with the smallest possible difference of their sums. */
  method PartitionListsDp(s: seq<nat>) returns (list1: seq<nat>, list2: seq<nat>)
    ensures multiset(list1) + multiset(list2) == multiset(Range(|s|))
    ensures InRange(list1, |s|) && InRange(list2, |s|)
    ensures BestSum(s, Total(s) / 2, SumAt(s, list1))
    ensures forall choice: seq<bool> | |choice| == |s| ::
      Total(s) - 2 * SumAt(s, list1) <= Abs(Total(s) - 2 * Weigh(s, choice))
  {
    var total := 0;
    for i := 0 to |s|
      invariant total == Total(s[..i])
    {
      assert s[..i + 1][..i] == s[..i];
      total := total + s[i];
    }
    assert s[..|s|] == s;
    hide Total, Weigh, Reachable, SumAt, InRange, Picked, Range;
    var target := total / 2;
    var dp := FillTable(s, target);
    var best := LargestReachable(s, target, dp);
    ghost var choice;
    list1, list2, choice := Reconstruct(s, target, best, dp);
    ChoiceSharesOut(s, choice);
    BestOfAllSplits(s, best);
  }

  lemma BestOfAllSplits(s: seq<nat>, best: nat)
    requires BestSum(s, Total(s) / 2, best)
    ensures forall other: seq<bool> | |other| == |s| :: Total(s) - 2 * best <= Abs(Total(s) - 2 * Weigh(s, other))
  {
    forall other: seq<bool> | |other| == |s|
      ensures Total(s) - 2 * best <= Abs(Total(s) - 2 * Weigh(s, other))
    {
      BestSumIsBestSplit(s, best, other);
    }
  }

  // ---- grouping into two sub-batches ----

  function Pick<T>(queue: seq<T>, idx: seq<nat>): seq<T>
    requires InRange(idx, |queue|)
  {
    if idx == [] then [] else [queue[idx[0]]] + Pick(queue, idx[1..])
  }

  lemma {:induction false} PickConcat<T>(queue: seq<T>, a: seq<nat>, b: seq<nat>)
    requires InRange(a, |queue|) && InRange(b, |queue|)
    ensures Pick(queue, a + b) == Pick(queue, a) + Pick(queue, b)
  {
    if a == [] { assert a + b == b; } else { PickConcat(queue, a[1..], b); assert (a + b)[1..] == a[1..] + b; }
  }

  lemma MiddleOut<T>(a: seq<T>, x: T, b: seq<T>)
    ensures multiset(a + ([x] + b)) == multiset{x} + multiset(a + b)
  {
  }

  lemma PickMiddle<T>(queue: seq<T>, a: seq<nat>, k: nat, b: seq<nat>)
    requires InRange(a, |queue|) && k < |queue| && InRange(b, |queue|)
    ensures Pick(queue, a + ([k] + b)) == Pick(queue, a) + ([queue[k]] + Pick(queue, b))
  {
    PickConcat(queue, a, [k] + b);
    PickConcat(queue, [k], b);
  }

  lemma PickRemove<T>(queue: seq<T>, a: seq<nat>, k: nat, b: seq<nat>)
    requires InRange(a, |queue|) && k < |queue| && InRange(b, |queue|)
    ensures multiset(Pick(queue, a + ([k] + b))) == multiset{queue[k]} + multiset(Pick(queue, a + b))
  {
    hide Pick;
    PickMiddle(queue, a, k, b);
    PickConcat(queue, a, b);
    MiddleOut(Pick(queue, a), queue[k], Pick(queue, b));
  }

  lemma FindIn(b: seq<nat>, x: nat) returns (left: seq<nat>, right: seq<nat>)
    requires x in b
    ensures b == left + ([x] + right)
  {
    var n :| 0 <= n < |b| && b[n] == x;
    left, right := b[..n], b[n + 1..];
  }

  lemma CancelOne(x: nat, a: multiset<nat>, b: multiset<nat>)
    requires multiset{x} + a == multiset{x} + b
    ensures a == b
  {
    assert a == (multiset{x} + a) - multiset{x};
    assert b == (multiset{x} + b) - multiset{x};
  }

  /** Where the first element of one list sits in a permutation of it. */
  lemma SplitAtFirst(a: seq<nat>, b: seq<nat>) returns (left: seq<nat>, right: seq<nat>)
    requires a != [] && multiset(a) == multiset(b)
    ensures b == left + ([a[0]] + right) && multiset(a[1..]) == multiset(left + right)
  {
    assert a[0] in multiset(b);
    left, right := FindIn(b, a[0]);
    MiddleOut(left, a[0], right);
    assert a == [a[0]] + a[1..];
    CancelOne(a[0], multiset(a[1..]), multiset(left + right));
  }

  lemma PartsInRange(left: seq<nat>, x: nat, right: seq<nat>, n: nat)
    requires InRange(left + ([x] + right), n)
    ensures InRange(left, n) && x < n && InRange(right, n) && InRange(left + right, n)
  {
    var all := left + ([x] + right);
    forall k | 0 <= k < |left| ensures left[k] < n { assert all[k] == left[k]; }
    forall k | 0 <= k < |right| ensures right[k] < n { assert all[|left| + 1 + k] == right[k]; }
    assert all[|left|] == x;
  }

  /** Picking by two index lists with the same elements gives the same elements. */
  lemma {:induction false} PickPermuted<T>(queue: seq<T>, a: seq<nat>, b: seq<nat>)
    requires multiset(a) == multiset(b) && InRange(a, |queue|) && InRange(b, |queue|)
    ensures multiset(Pick(queue, a)) == multiset(Pick(queue, b))
    decreases |a|
  {
    if a == [] {
      assert |multiset(b)| == 0;
    } else {
      hide Pick, InRange;
      var left, right := SplitAtFirst(a, b);
      PartsInRange(left, a[0], right, |queue|);
      assert a == [] + ([a[0]] + a[1..]) && [] + a[1..] == a[1..];
      PartsInRange([], a[0], a[1..], |queue|);
      PickPermuted(queue, a[1..], left + right);
      PickRemove(queue, left, a[0], right);
      PickRemove(queue, [], a[0], a[1..]);
    }
  }

  lemma {:induction false} PickFrom<T>(queue: seq<T>, i: nat)
    requires i <= |queue|
    ensures Pick(queue, seq(|queue| - i, k requires 0 <= k < |queue| - i => i + k)) == queue[i..]
    decreases |queue| - i
  {
    if i < |queue| {
      PickFrom(queue, i + 1);
      var idx := seq(|queue| - i, k requires 0 <= k < |queue| - i => i + k);
      assert idx[1..] == seq(|queue| - (i + 1), k requires 0 <= k < |queue| - (i + 1) => i + 1 + k);
    }
  }

  function Flatten<T>(queues: seq<seq<T>>): seq<T> {
    if queues == [] then [] else Flatten(queues[..|queues| - 1]) + queues[|queues| - 1]
  }

  datatype Mode = OneBatch | Halves | DynamicProgramme

  /** The parts are the requests at two index lists that share out the queue, and no other choice among the queue has a
      smaller difference of the latencies. */
  ghost predicate SplitBest<T>(queue: seq<T>, latencies: seq<nat>, first: seq<T>, second: seq<T>)
    requires |queue| == |latencies|
  {
    exists list1: seq<nat>, list2: seq<nat> | InRange(list1, |queue|) && InRange(list2, |queue|) ::
      && multiset(list1) + multiset(list2) == multiset(Range(|queue|))
      && first == Pick(queue, list1) && second == Pick(queue, list2)
      && BestSum(latencies, Total(latencies) / 2, SumAt(latencies, list1))
      && SumAt(latencies, list1) + SumAt(latencies, list2) == Total(latencies)
      && forall choice: seq<bool> | |choice| == |queue| ::
           Abs(SumAt(latencies, list2) - SumAt(latencies, list1))
             <= Abs(Total(latencies) - 2 * Weigh(latencies, choice))
  }

  /** The first half has the odd one more if it is its turn. */
  ghost predicate SplitInHalves<T>(queue: seq<T>, first: seq<T>, second: seq<T>, ceilTurn: bool) {
    first + second == queue && |first| == if ceilTurn then (|queue| + 1) / 2 else |queue| / 2
  }

  lemma {:induction false} SumPicked(s: seq<nat>, idx: seq<nat>)
    requires InRange(idx, |s|)
    ensures SumAt(s, idx) == Total(Pick(s, idx))
  {
    if idx != [] {
      var init, last := idx[..|idx| - 1], idx[|idx| - 1];
      SumPicked(s, init);
      PickConcat(s, init, [last]);
      assert idx == init + [last] && Pick(s, [last]) == [s[last]];
      assert (Pick(s, init) + [s[last]])[..|Pick(s, init)|] == Pick(s, init);
    }
  }

  lemma {:induction false} TotalFront(s: seq<nat>)
    requires s != []
    ensures Total(s) == s[0] + Total(s[1..])
  {
    if |s| > 1 {
      TotalFront(s[..|s| - 1]);
      assert s[1..][..|s| - 2] == s[..|s| - 1][1..];
    }
  }

  lemma TotalConcat(a: seq<nat>, b: seq<nat>)
    ensures Total(a + b) == Total(a) + Total(b)
  {
    if b == [] { assert a + b == a; } else {
      TotalConcat(a, b[..|b| - 1]);
      assert (a + b)[..|a + b| - 1] == a + b[..|b| - 1];
    }
  }

  lemma {:induction false} TotalPermuted(a: seq<nat>, b: seq<nat>)
    requires multiset(a) == multiset(b)
    ensures Total(a) == Total(b)
    decreases |a|
  {
    if a == [] {
      assert |multiset(b)| == 0;
    } else {
      hide Total;
      var left, right := SplitAtFirst(a, b);
      TotalPermuted(a[1..], left + right);
      TotalFront(a);
      TotalConcat(left, [a[0]] + right);
      TotalConcat(left, right);
      TotalFront([a[0]] + right);
    }
  }

  /** Two lists that share out the indices share out the latencies. */
  lemma SharedTotal(s: seq<nat>, list1: seq<nat>, list2: seq<nat>)
    requires InRange(list1, |s|) && InRange(list2, |s|)
    requires multiset(list1) + multiset(list2) == multiset(Range(|s|))
    ensures SumAt(s, list1) + SumAt(s, list2) == Total(s)
  {
    SumPicked(s, list1);
    SumPicked(s, list2);
    TotalConcat(Pick(s, list1), Pick(s, list2));
    assert multiset(list1 + list2) == multiset(Range(|s|));
    PickConcat(s, list1, list2);
    PickPermuted(s, list1 + list2, Range(|s|));
    PickFrom(s, 0);
    assert Range(|s|) == seq(|s| - 0, k requires 0 <= k < |s| - 0 => 0 + k);
    TotalPermuted(Pick(s, list1 + list2), s);
  }

  /** The requests picked by two such lists are those of the queue. */
  lemma PickedAll<T>(queue: seq<T>, list1: seq<nat>, list2: seq<nat>)
    requires InRange(list1, |queue|) && InRange(list2, |queue|)
    requires multiset(list1) + multiset(list2) == multiset(Range(|queue|))
    ensures multiset(Pick(queue, list1)) + multiset(Pick(queue, list2)) == multiset(queue)
  {
    assert multiset(list1 + list2) == multiset(Range(|queue|));
    PickConcat(queue, list1, list2);
    PickPermuted(queue, list1 + list2, Range(|queue|));
    PickFrom(queue, 0);
    assert Range(|queue|) == seq(|queue| - 0, k requires 0 <= k < |queue| - 0 => 0 + k);
  }

  /** The split of one channel's queue: by the dynamic programme, or in halves with the odd one changing sides. */
  method SplitQueue<T>(queue: seq<T>, latencies: seq<nat>, mode: Mode, ceilTurn: bool)
    returns (first: seq<T>, second: seq<T>, ceilTurn': bool)
    requires |queue| == |latencies|
    ensures multiset(first) + multiset(second) == multiset(queue)
    ensures mode.OneBatch? ==> first == queue && second == []
    ensures mode.Halves? ==> SplitInHalves(queue, first, second, ceilTurn)
    ensures mode.DynamicProgramme? ==> SplitBest(queue, latencies, first, second)
    ensures ceilTurn' == if mode.Halves? && |queue| % 2 != 0 then !ceilTurn else ceilTurn
  {
    ceilTurn' := ceilTurn;
    match mode {
      case OneBatch => first, second := queue, [];
      case Halves =>
        var half := |queue| / 2;
        if |queue| % 2 != 0 {
          half := if ceilTurn then (|queue| + 1) / 2 else |queue| / 2;
          ceilTurn' := !ceilTurn;
        }
        first, second := queue[..half], queue[half..];
        assert first + second == queue;
      case DynamicProgramme =>
        var list1, list2 := PartitionListsDp(latencies);
        first, second := Pick(queue, list1), Pick(queue, list2);
        PickedAll(queue, list1, list2);
        ListsSplitBest(queue, latencies, list1, list2);
    }
  }

  lemma ListsSplitBest<T>(queue: seq<T>, latencies: seq<nat>, list1: seq<nat>, list2: seq<nat>)
    requires |queue| == |latencies| && InRange(list1, |queue|) && InRange(list2, |queue|)
    requires multiset(list1) + multiset(list2) == multiset(Range(|queue|))
    requires BestSum(latencies, Total(latencies) / 2, SumAt(latencies, list1))
    ensures SplitBest(queue, latencies, Pick(queue, list1), Pick(queue, list2))
  {
    hide Weigh, Reachable, SumAt, InRange, Pick, Range;
    SharedTotal(latencies, list1, list2);
    BestOfAllSplits(latencies, SumAt(latencies, list1));
    hide Total;
  }

  /** Whether the odd one of channel `ch` goes first: channels with an odd number of requests take turns. */
  function CeilTurn<T>(queues: seq<seq<T>>, ch: nat): bool
    requires ch <= |queues|
  {
    if ch == 0 then true
    else if |queues[ch - 1]| % 2 != 0 then !CeilTurn(queues, ch - 1) else CeilTurn(queues, ch - 1)
  }

  ghost predicate SplitAs<T>(mode: Mode, queue: seq<T>, latencies: seq<nat>, first: seq<T>, second: seq<T>,
                             ceilTurn: bool)
    requires |queue| == |latencies|
  {
    match mode
    case OneBatch => first == queue && second == []
    case Halves => SplitInHalves(queue, first, second, ceilTurn)
    case DynamicProgramme => SplitBest(queue, latencies, first, second)
  }

  /** The sub-batches are the channels' parts in order, each split as the mode says. */
  ghost predicate Grouped<T>(queues: seq<seq<T>>, latencies: seq<seq<nat>>, mode: Mode, parts1: seq<seq<T>>,
                             parts2: seq<seq<T>>)
    requires |queues| == |latencies| && forall ch | 0 <= ch < |queues| :: |queues[ch]| == |latencies[ch]|
  {
    && |parts1| == |parts2| == |queues|
    && forall ch | 0 <= ch < |queues| ::
         SplitAs(mode, queues[ch], latencies[ch], parts1[ch], parts2[ch], CeilTurn(queues, ch))
  }

  lemma FlattenAdds<T>(parts: seq<seq<T>>, part: seq<T>)
    ensures Flatten(parts + [part]) == Flatten(parts) + part
  {
    assert (parts + [part])[..|parts|] == parts;
  }

  lemma {:induction false} CeilTurnOfPrefix<T>(queues: seq<seq<T>>, n: nat, ch: nat)
    requires ch <= n <= |queues|
    ensures CeilTurn(queues[..n], ch) == CeilTurn(queues, ch)
  {
    if ch > 0 { CeilTurnOfPrefix(queues, n, ch - 1); }
  }

  lemma GroupedAdds<T>(queues: seq<seq<T>>, latencies: seq<seq<nat>>, mode: Mode, ch: nat, parts1: seq<seq<T>>,
                       parts2: seq<seq<T>>, first: seq<T>, second: seq<T>)
    requires |queues| == |latencies| && ch < |queues|
    requires forall c | 0 <= c < |queues| :: |queues[c]| == |latencies[c]|
    requires Grouped(queues[..ch], latencies[..ch], mode, parts1, parts2)
    requires SplitAs(mode, queues[ch], latencies[ch], first, second, CeilTurn(queues, ch))
    ensures Grouped(queues[..ch + 1], latencies[..ch + 1], mode, parts1 + [first], parts2 + [second])
  {
    hide SplitAs, CeilTurn;
    forall c | 0 <= c <= ch
      ensures CeilTurn(queues[..ch + 1], c) == CeilTurn(queues, c)
      ensures c < ch ==> CeilTurn(queues[..ch], c) == CeilTurn(queues, c)
    {
      CeilTurnOfPrefix(queues, ch + 1, c);
      if c < ch { CeilTurnOfPrefix(queues, ch, c); }
    }
  }

  /** Every active request of every channel ends up in exactly one of the two sub-batches; each is made of the channels'
      parts in order, and each channel is split as the mode says. */
  method GroupSubBatches<T>(queues: seq<seq<T>>, latencies: seq<seq<nat>>, mode: Mode)
    returns (breq1: seq<T>, breq2: seq<T>)
    requires |queues| == |latencies| && forall ch | 0 <= ch < |queues| :: |queues[ch]| == |latencies[ch]|
    ensures multiset(breq1) + multiset(breq2) == multiset(Flatten(queues))
    ensures exists parts1, parts2 | Grouped(queues, latencies, mode, parts1, parts2) ::
      breq1 == Flatten(parts1) && breq2 == Flatten(parts2)
    ensures mode.OneBatch? ==> breq1 == Flatten(queues)
  {
    hide SplitBest, SplitInHalves, Flatten, Grouped;
    breq1, breq2 := [], [];
    var ceilTurn := true;
    ghost var parts1: seq<seq<T>>, parts2: seq<seq<T>> := [], [];
    NothingGrouped(queues, latencies, mode);
    for ch := 0 to |queues|
      invariant multiset(breq1) + multiset(breq2) == multiset(Flatten(queues[..ch]))
      invariant mode.OneBatch? ==> breq1 == Flatten(queues[..ch])
      invariant mode.Halves? ==> ceilTurn == CeilTurn(queues, ch)
      invariant Grouped(queues[..ch], latencies[..ch], mode, parts1, parts2)
      invariant breq1 == Flatten(parts1) && breq2 == Flatten(parts2)
    {
      var first, second;
      first, second, ceilTurn := SplitQueue(queues[ch], latencies[ch], mode, ceilTurn);
      breq1, breq2 := breq1 + first, breq2 + second;
      assert queues[..ch + 1] == queues[..ch] + [queues[ch]];
      FlattenAdds(queues[..ch], queues[ch]);
      FlattenAdds(parts1, first);
      FlattenAdds(parts2, second);
      GroupedAdds(queues, latencies, mode, ch, parts1, parts2, first, second);
      parts1, parts2 := parts1 + [first], parts2 + [second];
    }
    assert queues[..|queues|] == queues && latencies[..|queues|] == latencies;
  }

  lemma NothingGrouped<T>(queues: seq<seq<T>>, latencies: seq<seq<nat>>, mode: Mode)
    ensures var none: seq<seq<T>> := []; Flatten(none) == [] && queues[..0] == none
    ensures var none: seq<seq<T>> := []; Grouped(queues[..0], latencies[..0], mode, none, none)
  {
  }
}
