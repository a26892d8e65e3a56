/** Distributing requests over memory channels: longest first, each to the channel with the least estimated load. */
module ChannelBalance {
  // ---- the latency estimate ----

  const PAGE := 512
  const BANKS := 32
  const GWRITE := 100
  const GEMV := 184
  const E := 4096
  const TP := 4
  const HEADS := 32
  const DK := E / HEADS

  function CeilDiv(n: nat, d: nat): nat
    requires d > 0
  {
    (n + d - 1) / d
  }

  function Latency(seqLen: nat): nat {
    var keyChunks, keyTiles := CeilDiv(E / TP, PAGE), CeilDiv(seqLen, BANKS);
    var valueChunks, valueTiles := CeilDiv(seqLen, PAGE) * HEADS, CeilDiv(DK, BANKS);
    keyChunks * GWRITE + keyChunks * keyTiles * GEMV + valueChunks * GWRITE + valueChunks * valueTiles * GEMV
  }

  /** Longer sequences never cost less. */
  lemma LatencyIsMonotone(s: nat, t: nat)
    requires s <= t
    ensures Latency(s) <= Latency(t)
  {
    LatencyIs(s);
    LatencyIs(t);
    CeilDivIsMonotone(s, t, BANKS);
    CeilDivIsMonotone(s, t, PAGE);
    hide *;
  }

  lemma LatencyIs(s: nat)
    ensures Latency(s) == 200 + 368 * CeilDiv(s, BANKS) + 26752 * CeilDiv(s, PAGE)
  {
    assert CeilDiv(E / TP, PAGE) == 2 && CeilDiv(DK, BANKS) == 4;
    hide CeilDiv;
  }

  lemma CeilDivIsMonotone(s: nat, t: nat, d: nat)
    requires s <= t && d > 0
    ensures CeilDiv(s, d) <= CeilDiv(t, d)
  {
    QuotientIsMonotone(s + d - 1, t + d - 1, d);
  }

  lemma QuotientIsMonotone(a: nat, b: nat, d: nat)
    requires a <= b && d > 0
    ensures a / d <= b / d
  {
    var p, q := a / d, b / d;
    assert a == p * d + a % d && b == q * d + b % d;
    if q < p { Grows(d, q + 1, p); }
  }

  function Latencies(lens: seq<nat>): (r: seq<nat>)
    ensures |r| == |lens|
  {
    seq(|lens|, i requires 0 <= i < |lens| => Latency(lens[i]))
  }

  function SumLoad(lens: seq<nat>): nat {
    if lens == [] then 0 else SumLoad(lens[..|lens| - 1]) + Latency(lens[|lens| - 1])
  }

  // ---- sorting ----

  predicate Descending(s: seq<nat>) { forall i, j :: 0 <= i < j < |s| ==> s[i] >= s[j] }

  function Inserted(x: nat, s: seq<nat>): seq<nat> {
    if s == [] || x >= s[0] then [x] + s else [s[0]] + Inserted(x, s[1..])
  }

  function Sorted(s: seq<nat>): seq<nat> {
    if s == [] then [] else Inserted(s[0], Sorted(s[1..]))
  }

  lemma {:induction false} InsertedHas(x: nat, s: seq<nat>)
    ensures multiset(Inserted(x, s)) == multiset(s) + multiset{x}
  {
    if s != [] {
      assert s == [s[0]] + s[1..];
      if x < s[0] { InsertedHas(x, s[1..]); }
    }
  }

  lemma DescendingFront(x: nat, s: seq<nat>)
    requires Descending(s) && forall y :: y in s ==> x >= y
    ensures Descending([x] + s)
  {
    var t := [x] + s;
    forall i, j | 0 <= i < j < |t| ensures t[i] >= t[j] { assert t[j] in s; }
  }

  lemma {:induction false} InsertedIsSorted(x: nat, s: seq<nat>)
    requires Descending(s)
    ensures Descending(Inserted(x, s))
  {
    if s != [] {
      if x < s[0] {
        InsertedIsSorted(x, s[1..]);
        InsertedHas(x, s[1..]);
        forall y | y in Inserted(x, s[1..]) ensures y <= s[0] {
          assert y in multiset(Inserted(x, s[1..]));
          if y != x { assert y in s[1..]; }
        }
        DescendingFront(s[0], Inserted(x, s[1..]));
      } else {
        DescendingFront(x, s);
      }
    }
  }

  lemma {:induction false} SortedIsSorted(s: seq<nat>)
    ensures Descending(Sorted(s)) && multiset(Sorted(s)) == multiset(s)
  {
    if s != [] {
      SortedIsSorted(s[1..]);
      InsertedIsSorted(s[0], Sorted(s[1..]));
      InsertedHas(s[0], Sorted(s[1..]));
      assert s == [s[0]] + s[1..];
    }
  }

  // ---- assignments ----

  /** The weight of the jobs that assignment `a` puts on channel `c`. */
  function LoadOn(w: seq<nat>, a: seq<nat>, c: nat): nat
    requires |w| == |a|
  {
    if w == [] then 0
    else LoadOn(w[..|w| - 1], a[..|a| - 1], c) + if a[|a| - 1] == c then w[|w| - 1] else 0
  }

  function Sum(w: seq<nat>): nat {
    if w == [] then 0 else Sum(w[..|w| - 1]) + w[|w| - 1]
  }

  predicate Assigns(a: seq<nat>, k: nat) { forall j :: 0 <= j < |a| ==> a[j] < k }

  function SumOfLoads(w: seq<nat>, a: seq<nat>, k: nat): nat
    requires |w| == |a|
  {
    if k == 0 then 0 else SumOfLoads(w, a, k - 1) + LoadOn(w, a, k - 1)
  }

  lemma {:induction false} SumOfLoadsStep(w: seq<nat>, a: seq<nat>, k: nat)
    requires |w| == |a| > 0
    ensures SumOfLoads(w, a, k) == SumOfLoads(w[..|w| - 1], a[..|a| - 1], k) + if a[|a| - 1] < k then w[|w| - 1] else 0
  {
    if k > 0 { SumOfLoadsStep(w, a, k - 1); }
  }

  lemma {:induction false} NoJobsNoLoad(k: nat)
    ensures SumOfLoads([], [], k) == 0
  {
    if k > 0 { NoJobsNoLoad(k - 1); }
  }

  /** Every job is on exactly one channel. */
  lemma {:induction false} LoadsAddUp(w: seq<nat>, a: seq<nat>, k: nat)
    requires |w| == |a| && Assigns(a, k)
    ensures SumOfLoads(w, a, k) == Sum(w)
  {
    if w == [] { NoJobsNoLoad(k); } else {
      LoadsAddUp(w[..|w| - 1], a[..|a| - 1], k);
      SumOfLoadsStep(w, a, k);
    }
  }

  // ---- the greedy choice ----

  /** The first channel of least load. */
  function MinIndex(loads: seq<nat>): (i: nat)
    requires |loads| > 0
    ensures i < |loads| && forall j :: 0 <= j < |loads| ==> loads[i] <= loads[j]
    ensures forall j :: 0 <= j < i ==> loads[i] < loads[j]
  {
    if |loads| == 1 then 0
    else
      var i := MinIndex(loads[..|loads| - 1]);
      if loads[|loads| - 1] < loads[i] then |loads| - 1 else i
  }

  function Loads(p: seq<nat>, a: seq<nat>, base: seq<nat>): (r: seq<nat>)
    requires |p| == |a|
    ensures |r| == |base|
  {
    seq(|base|, c requires 0 <= c < |base| => base[c] + LoadOn(p, a, c))
  }

  /** The channel of each job, placed in order over channels loaded `base` before. */
  function Chosen(p: seq<nat>, base: seq<nat>): (a: seq<nat>)
    requires |base| > 0
    ensures |a| == |p| && Assigns(a, |base|)
    decreases |p|
  {
    if p == [] then []
    else
      var init := p[..|p| - 1];
      Chosen(init, base) + [MinIndex(Loads(init, Chosen(init, base), base))]
  }

  function Placed(lens: seq<nat>, a: seq<nat>, c: nat): seq<nat>
    requires |lens| == |a|
  {
    if lens == [] then []
    else Placed(lens[..|lens| - 1], a[..|a| - 1], c) + if a[|a| - 1] == c then [lens[|lens| - 1]] else []
  }

  // ---- bounds ----

  function SumFirst(s: seq<nat>, k: nat): nat
    requires k <= |s|
  {
    if k == 0 then 0 else SumFirst(s, k - 1) + s[k - 1]
  }

  lemma {:induction false} LeastIsBelowAverage(loads: seq<nat>, m: nat, k: nat)
    requires k <= |loads| && forall j :: 0 <= j < |loads| ==> m <= loads[j]
    ensures k * m <= SumFirst(loads, k)
  {
    if k > 0 { LeastIsBelowAverage(loads, m, k - 1); }
  }

  lemma {:induction false} SumOfLoadsIs(p: seq<nat>, a: seq<nat>, base: seq<nat>, k: nat)
    requires |p| == |a| && k <= |base|
    ensures SumFirst(Loads(p, a, base), k) == SumFirst(base, k) + SumOfLoads(p, a, k)
  {
    if k > 0 { SumOfLoadsIs(p, a, base, k - 1); }
  }

  /** Placing job `x` after `p`: the channel taken ends within the average plus most of a job. */
  lemma PlacingBound(p: seq<nat>, x: nat, base: seq<nat>)
    requires |base| > 0
    ensures var loads := Loads(p, Chosen(p, base), base);
      |base| * (loads[MinIndex(loads)] + x) <= SumFirst(base, |base|) + Sum(p) + x + (|base| - 1) * x
  {
    var k, a := |base|, Chosen(p, base);
    var loads := Loads(p, a, base);
    var m := loads[MinIndex(loads)];
    LeastIsBelowAverage(loads, m, k);
    SumOfLoadsIs(p, a, base, k);
    LoadsAddUp(p, a, k);
    hide *;
    OneJobMore(k, m, x);
  }

  lemma OneJobMore(k: nat, m: nat, x: nat)
    requires k > 0
    ensures k * (m + x) == k * m + x + (k - 1) * x
  {
  }

  lemma LoadStep(p: seq<nat>, base: seq<nat>, c: nat)
    requires p != [] && c < |base|
    ensures var init, x := p[..|p| - 1], p[|p| - 1];
      var loads := Loads(init, Chosen(init, base), base);
      base[c] + LoadOn(p, Chosen(p, base), c) == if c == MinIndex(loads) then loads[c] + x else loads[c]
  {
    var a := Chosen(p, base);
    assert a[..|a| - 1] == Chosen(p[..|p| - 1], base);
  }

  /** From any earlier loads: a channel that received something carries, times the number of channels, at most the total
      plus (channels - 1) largest jobs. */
  lemma {:induction false} GreedyBound(p: seq<nat>, base: seq<nat>, largest: nat, c: nat)
    requires |base| > 0 && c < |base| && forall j :: 0 <= j < |p| ==> p[j] <= largest
    ensures LoadOn(p, Chosen(p, base), c) == 0 ||
      |base| * (base[c] + LoadOn(p, Chosen(p, base), c)) <= SumFirst(base, |base|) + Sum(p) + (|base| - 1) * largest
  {
    if p != [] {
      var init, x, k := p[..|p| - 1], p[|p| - 1], |base|;
      GreedyBound(init, base, largest, c);
      LoadStep(p, base, c);
      PlacingBound(init, x, base);
      assert Sum(p) == Sum(init) + x;
      hide LoadOn, Chosen, Sum, MinIndex, SumFirst;
      var loads, load := Loads(init, Chosen(init, base), base), base[c] + LoadOn(p, Chosen(p, base), c);
      if c == MinIndex(loads) { LargerJob(k, SumFirst(base, k) + Sum(p), x, largest, load); }
    }
  }

  lemma LargerJob(k: nat, total: nat, x: nat, largest: nat, load: nat)
    requires k > 0 && x <= largest && k * load <= total + (k - 1) * x
    ensures k * load <= total + (k - 1) * largest
  {
    Grows(k - 1, x, largest);
  }

  /** `b` puts every job on one of `k` channels and none beyond `opt`. */
  ghost predicate Within(p: seq<nat>, b: seq<nat>, k: nat, opt: nat) {
    |b| == |p| && Assigns(b, k) && forall c :: 0 <= c < k ==> LoadOn(p, b, c) <= opt
  }

  lemma {:induction false} SumWithin(p: seq<nat>, b: seq<nat>, k: nat, n: nat, opt: nat)
    requires Within(p, b, k, opt) && n <= k
    ensures SumOfLoads(p, b, n) <= n * opt
  {
    if n > 0 { SumWithin(p, b, k, n - 1, opt); }
  }

  lemma WithinPrefix(p: seq<nat>, b: seq<nat>, k: nat, opt: nat)
    requires Within(p, b, k, opt) && p != []
    ensures Within(p[..|p| - 1], b[..|b| - 1], k, opt) && p[|p| - 1] <= opt
  {
    var q, d := p[..|p| - 1], b[..|b| - 1];
    forall c | 0 <= c < k ensures LoadOn(q, d, c) <= opt { assert LoadOn(p, b, c) <= opt; }
    assert LoadOn(p, b, b[|b| - 1]) <= opt;
  }

  // ---- the counting argument ----

  /** A job weighs two when nothing as large as `x` fits beside it. */
  function Weights(p: seq<nat>, x: nat, opt: nat): (w: seq<nat>)
    ensures |w| == |p|
  {
    seq(|p|, j requires 0 <= j < |p| => if p[j] + x > opt then 2 else 1)
  }

  lemma WeightsStep(p: seq<nat>, x: nat, opt: nat)
    requires p != []
    ensures Weights(p, x, opt)[..|p| - 1] == Weights(p[..|p| - 1], x, opt)
  {
  }

  /** If jobs of weight three or more shared a channel, it would be beyond `opt`. */
  lemma {:induction false} HeavyIsBeyond(p: seq<nat>, b: seq<nat>, c: nat, x: nat, opt: nat)
    requires |p| == |b| && opt < 3 * x && forall j :: 0 <= j < |p| ==> p[j] >= x
    ensures LoadOn(Weights(p, x, opt), b, c) >= 1 ==> LoadOn(p, b, c) >= x
    ensures LoadOn(Weights(p, x, opt), b, c) >= 2 ==> LoadOn(p, b, c) >= 2 * x || LoadOn(p, b, c) + x > opt
    ensures LoadOn(Weights(p, x, opt), b, c) >= 3 ==> LoadOn(p, b, c) > opt
  {
    if p != [] {
      WeightsStep(p, x, opt);
      HeavyIsBeyond(p[..|p| - 1], b[..|b| - 1], c, x, opt);
    }
  }

  /** A channel without room for `x` carries weight two at least. */
  lemma {:induction false} FullIsHeavy(p: seq<nat>, a: seq<nat>, c: nat, x: nat, opt: nat)
    requires |p| == |a| && x <= opt
    ensures LoadOn(Weights(p, x, opt), a, c) == 0 ==> LoadOn(p, a, c) == 0
    ensures LoadOn(Weights(p, x, opt), a, c) == 1 ==> LoadOn(p, a, c) + x <= opt
  {
    if p != [] {
      WeightsStep(p, x, opt);
      FullIsHeavy(p[..|p| - 1], a[..|a| - 1], c, x, opt);
    }
  }

  lemma {:induction false} SumsAtLeast(w: seq<nat>, a: seq<nat>, k: nat)
    requires |w| == |a| && forall c :: 0 <= c < k ==> LoadOn(w, a, c) >= 2
    ensures SumOfLoads(w, a, k) >= 2 * k
  {
    if k > 0 { SumsAtLeast(w, a, k - 1); }
  }

  lemma {:induction false} SumsAtMost(w: seq<nat>, b: seq<nat>, k: nat)
    requires |w| == |b| && forall c :: 0 <= c < k ==> LoadOn(w, b, c) <= 2
    ensures SumOfLoads(w, b, k) <= 2 * k
  {
    if k > 0 { SumsAtMost(w, b, k - 1); }
  }

  /** When every job exceeds a third of `opt`, some channel has room for the next job below `opt`: otherwise each greedy
      channel carries weight two or more, each channel of `b` two or less, and `b` has one job more. */
  lemma LargeJobsFit(p: seq<nat>, x: nat, a: seq<nat>, b: seq<nat>, k: nat, opt: nat)
    requires Within(p + [x], b, k, opt) && opt < 3 * x && |a| == |p| && Assigns(a, k)
    requires forall j :: 0 <= j < |p| ==> p[j] >= x
    ensures exists c :: 0 <= c < k && LoadOn(p, a, c) + x <= opt
  {
    var q := p + [x];
    var w, v := Weights(p, x, opt), Weights(q, x, opt);
    WithinPrefix(q, b, k, opt);
    forall c | 0 <= c < k ensures LoadOn(v, b, c) <= 2 {
      HeavyIsBeyond(q, b, c, x, opt);
      assert LoadOn(q, b, c) <= opt;
    }
    SumsAtMost(v, b, k);
    LoadsAddUp(v, b, k);
    assert v[..|p|] == w && v[|p|] >= 1;
    LoadsAddUp(w, a, k);
    if forall c :: 0 <= c < k ==> LoadOn(p, a, c) + x > opt {
      forall c | 0 <= c < k ensures LoadOn(w, a, c) >= 2 { FullIsHeavy(p, a, c, x, opt); }
      SumsAtLeast(w, a, k);
      assert false;
    }
  }

  // ---- against any other assignment ----

  function Zeros(k: nat): seq<nat> { seq(k, _ => 0) }

  lemma {:induction false} ZerosSum(k: nat, n: nat)
    requires n <= k
    ensures SumFirst(Zeros(k), n) == 0
  {
    if n > 0 { ZerosSum(k, n - 1); }
  }

  lemma Grows(a: nat, b: nat, c: nat)
    requires b <= c
    ensures a * b <= a * c
  {
  }

  lemma SmallJob(k: nat, load: nat, x: nat, opt: nat)
    requires k > 0 && 3 * x <= opt && k * load <= k * opt + (k - 1) * x
    ensures 3 * k * load <= (4 * k - 1) * opt
  {
    Grows(k - 1, 3 * x, opt);
    var d, e := (k - 1) * x, (k - 1) * opt;
    assert 3 * d <= e by { assert (k - 1) * (3 * x) == 3 * d; }
    assert (4 * k - 1) * opt == 3 * (k * opt) + e;
    assert 3 * k * load == 3 * (k * load);
  }

  lemma WithinOpt(k: nat, load: nat, opt: nat)
    requires k > 0 && load <= opt
    ensures 3 * k * load <= (4 * k - 1) * opt
  {
    Grows(3 * k, load, opt);
    assert (4 * k - 1) * opt == 3 * k * opt + (k - 1) * opt;
  }

  lemma PlacingSmall(p: seq<nat>, x: nat, b: seq<nat>, k: nat, opt: nat)
    requires k > 0 && Within(p + [x], b, k, opt) && 3 * x <= opt
    ensures var loads := Loads(p, Chosen(p, Zeros(k)), Zeros(k));
      k * (loads[MinIndex(loads)] + x) <= k * opt + (k - 1) * x
  {
    PlacingBound(p, x, Zeros(k));
    ZerosSum(k, k);
    LoadsAddUp(p + [x], b, k);
    SumWithin(p + [x], b, k, k, opt);
    assert (p + [x])[..|p|] == p;
  }

  lemma PlacingLarge(p: seq<nat>, x: nat, b: seq<nat>, k: nat, opt: nat)
    requires k > 0 && Within(p + [x], b, k, opt) && opt < 3 * x && forall j :: 0 <= j < |p| ==> p[j] >= x
    ensures var loads := Loads(p, Chosen(p, Zeros(k)), Zeros(k)); loads[MinIndex(loads)] + x <= opt
  {
    var a := Chosen(p, Zeros(k));
    var loads := Loads(p, a, Zeros(k));
    LargeJobsFit(p, x, a, b, k, opt);
    var c :| 0 <= c < k && LoadOn(p, a, c) + x <= opt;
    assert loads[MinIndex(loads)] <= loads[c] == LoadOn(p, a, c);
  }

  /** One placement over empty channels, jobs so far in descending order. */
  lemma PlacingFourThirds(p: seq<nat>, x: nat, b: seq<nat>, k: nat, opt: nat)
    requires k > 0 && Within(p + [x], b, k, opt) && forall j :: 0 <= j < |p| ==> p[j] >= x
    ensures var loads := Loads(p, Chosen(p, Zeros(k)), Zeros(k));
      3 * k * (loads[MinIndex(loads)] + x) <= (4 * k - 1) * opt
  {
    hide LoadOn, Chosen, MinIndex, Within;
    var loads := Loads(p, Chosen(p, Zeros(k)), Zeros(k));
    var load := loads[MinIndex(loads)] + x;
    if 3 * x <= opt { PlacingSmall(p, x, b, k, opt); SmallJob(k, load, x, opt); }
    else { PlacingLarge(p, x, b, k, opt); WithinOpt(k, load, opt); }
  }

  lemma {:induction false} FourThirdsOfLatencies(p: seq<nat>, b: seq<nat>, k: nat, opt: nat, c: nat)
    requires k > 0 && c < k && Descending(p) && Within(p, b, k, opt)
    ensures 3 * k * LoadOn(p, Chosen(p, Zeros(k)), c) <= (4 * k - 1) * opt
  {
    if p != [] {
      hide LoadOn, Chosen, Within;
      var init, x := p[..|p| - 1], p[|p| - 1];
      assert p == init + [x];
      WithinPrefix(p, b, k, opt);
      FourThirdsOfLatencies(init, b[..|b| - 1], k, opt, c);
      LoadStep(p, Zeros(k), c);
      PlacingFourThirds(init, x, b, k, opt);
      var before, load := LoadOn(init, Chosen(init, Zeros(k)), c), LoadOn(p, Chosen(p, Zeros(k)), c);
      var loads := Loads(init, Chosen(init, Zeros(k)), Zeros(k));
      assert load == before || load == loads[MinIndex(loads)] + x;
      hide *;
    } else {
      WithinOpt(k, 0, opt);
    }
  }

  // ---- sorting does not change what can be achieved ----

  function InsertedAt(x: nat, s: seq<nat>, y: nat, b: seq<nat>): (r: seq<nat>)
    requires |s| == |b|
    ensures |r| == |s| + 1
  {
    if s == [] || x >= s[0] then [y] + b else [b[0]] + InsertedAt(x, s[1..], y, b[1..])
  }

  function AssignSorted(s: seq<nat>, b: seq<nat>): (r: seq<nat>)
    requires |s| == |b|
    ensures |r| == |s| == |Sorted(s)|
  {
    SortedLength(s);
    if s == [] then [] else SortedLength(s[1..]); InsertedAt(s[0], Sorted(s[1..]), b[0], AssignSorted(s[1..], b[1..]))
  }

  lemma SortedLength(s: seq<nat>)
    ensures |Sorted(s)| == |s|
  {
    SortedIsSorted(s);
    assert |multiset(s)| == |s| && |multiset(Sorted(s))| == |Sorted(s)|;
  }

  lemma {:induction false} LoadFront(w: seq<nat>, a: seq<nat>, c: nat)
    requires |w| == |a| > 0
    ensures LoadOn(w, a, c) == (if a[0] == c then w[0] else 0) + LoadOn(w[1..], a[1..], c)
  {
    if |w| > 1 {
      LoadFront(w[..|w| - 1], a[..|a| - 1], c);
      assert w[..|w| - 1][1..] == w[1..][..|w| - 2] && a[..|a| - 1][1..] == a[1..][..|a| - 2];
    }
  }

  lemma {:induction false} InsertedLoad(x: nat, s: seq<nat>, y: nat, b: seq<nat>, k: nat, c: nat)
    requires |s| == |b| && Assigns(b, k) && y < k
    ensures |Inserted(x, s)| == |s| + 1 && Assigns(InsertedAt(x, s, y, b), k)
    ensures LoadOn(Latencies(Inserted(x, s)), InsertedAt(x, s, y, b), c)
         == LoadOn(Latencies(s), b, c) + if y == c then Latency(x) else 0
  {
    var t, d := Inserted(x, s), InsertedAt(x, s, y, b);
    if s == [] || x >= s[0] {
      assert Latencies(t)[1..] == Latencies(s) && d[1..] == b;
      LoadFront(Latencies(t), d, c);
    } else {
      InsertedLoad(x, s[1..], y, b[1..], k, c);
      assert Latencies(t)[1..] == Latencies(t[1..]) && Latencies(s)[1..] == Latencies(s[1..]);
      assert t[1..] == Inserted(x, s[1..]) && d[1..] == InsertedAt(x, s[1..], y, b[1..]);
      LoadFront(Latencies(t), d, c);
      LoadFront(Latencies(s), b, c);
    }
  }

  lemma {:induction false} AssignSortedLoad(s: seq<nat>, b: seq<nat>, k: nat, c: nat)
    requires |s| == |b| && Assigns(b, k)
    ensures Assigns(AssignSorted(s, b), k)
    ensures LoadOn(Latencies(Sorted(s)), AssignSorted(s, b), c) == LoadOn(Latencies(s), b, c)
  {
    if s != [] {
      AssignSortedLoad(s[1..], b[1..], k, c);
      InsertedLoad(s[0], Sorted(s[1..]), b[0], AssignSorted(s[1..], b[1..]), k, c);
      assert Latencies(s)[1..] == Latencies(s[1..]);
      LoadFront(Latencies(s), b, c);
    }
  }

  /** Starting from empty channels no channel gets more than 4/3 - 1/(3k) times what the busiest channel has in any
      other assignment of the same requests. */
  lemma FourThirds(lens: seq<nat>, b: seq<nat>, k: nat, opt: nat, c: nat)
    requires k > 0 && c < k && Within(Latencies(lens), b, k, opt)
    ensures var p := Latencies(Sorted(lens)); 3 * k * LoadOn(p, Chosen(p, Zeros(k)), c) <= (4 * k - 1) * opt
  {
    var p, b' := Latencies(Sorted(lens)), AssignSorted(lens, b);
    SortedIsSorted(lens);
    forall i, j | 0 <= i < j < |p| ensures p[i] >= p[j] { LatencyIsMonotone(Sorted(lens)[j], Sorted(lens)[i]); }
    forall e | 0 <= e < k ensures LoadOn(p, b', e) <= opt { AssignSortedLoad(lens, b, k, e); }
    AssignSortedLoad(lens, b, k, c);
    FourThirdsOfLatencies(p, b', k, opt, c);
  }

  /** In any order, and so also without the sort: under twice any other assignment. */
  lemma UnderTwice(p: seq<nat>, b: seq<nat>, k: nat, opt: nat, c: nat)
    requires k > 0 && c < k && Within(p, b, k, opt)
    ensures k * LoadOn(p, Chosen(p, Zeros(k)), c) <= (2 * k - 1) * opt
  {
    JobsWithin(p, b, k, opt);
    GreedyBound(p, Zeros(k), opt, c);
    ZerosSum(k, k);
    LoadsAddUp(p, b, k);
    SumWithin(p, b, k, k, opt);
    assert LoadOn(p, Chosen(p, Zeros(k)), c) == 0 || k * LoadOn(p, Chosen(p, Zeros(k)), c) <= k * opt + (k - 1) * opt;
    hide *;
    DoubleOpt(k, LoadOn(p, Chosen(p, Zeros(k)), c), opt);
  }

  lemma DoubleOpt(k: nat, load: nat, opt: nat)
    requires k > 0 && (load == 0 || k * load <= k * opt + (k - 1) * opt)
    ensures k * load <= (2 * k - 1) * opt
  {
    assert (2 * k - 1) * opt == k * opt + (k - 1) * opt;
  }

  lemma {:induction false} JobsWithin(p: seq<nat>, b: seq<nat>, k: nat, opt: nat)
    requires Within(p, b, k, opt)
    ensures forall j :: 0 <= j < |p| ==> p[j] <= opt
  {
    if p != [] {
      WithinPrefix(p, b, k, opt);
      JobsWithin(p[..|p| - 1], b[..|b| - 1], k, opt);
    }
  }

  // ---- the distribution ----

  /** The loads kept are those recomputed from what a channel holds. */
  lemma {:induction false} CachedLoad(lens: seq<nat>, a: seq<nat>, c: nat)
    requires |lens| == |a|
    ensures SumLoad(Placed(lens, a, c)) == LoadOn(Latencies(lens), a, c)
  {
    if lens != [] {
      CachedLoad(lens[..|lens| - 1], a[..|a| - 1], c);
      assert Latencies(lens)[..|lens| - 1] == Latencies(lens[..|lens| - 1]);
      var init := Placed(lens[..|lens| - 1], a[..|a| - 1], c);
      if a[|a| - 1] == c { assert Placed(lens, a, c)[..|init|] == init; }
      else { assert Placed(lens, a, c) == init; }
    }
  }

  lemma SumLoadAppends(s: seq<nat>, x: nat)
    ensures SumLoad(s + [x]) == SumLoad(s) + Latency(x)
  {
    assert (s + [x])[..|s|] == s;
  }

  function BaseLoads(channels: seq<seq<nat>>, k: nat): (r: seq<nat>)
    requires k <= |channels|
    ensures |r| == k
  {
    seq(k, c requires 0 <= c < k => SumLoad(channels[c]))
  }

  /** What one placement does to loads and contents. */
  lemma PlaceStep(lens: seq<nat>, x: nat, base: seq<nat>)
    requires |base| > 0
    ensures var p, q := Latencies(lens), Latencies(lens + [x]);
      var a, b := Chosen(p, base), Chosen(q, base);
      var min := MinIndex(Loads(p, a, base));
      && Loads(q, b, base) == Loads(p, a, base)[min := Loads(p, a, base)[min] + Latency(x)]
      && forall c: nat :: Placed(lens + [x], b, c) == Placed(lens, a, c) + if c == min then [x] else []
  {
    hide Latency, LoadOn, MinIndex;
    var p, q := Latencies(lens), Latencies(lens + [x]);
    var a, b := Chosen(p, base), Chosen(q, base);
    var min := MinIndex(Loads(p, a, base));
    assert q[..|p|] == p && (lens + [x])[..|lens|] == lens;
    assert b[..|a|] == a && b[|a|] == min;
    forall c | 0 <= c < |base|
      ensures Loads(q, b, base)[c] == if c == min then Loads(p, a, base)[min] + Latency(x) else Loads(p, a, base)[c]
    {
      LoadStep(q, base, c);
    }
  }

  /** Appends each request, longest first, to the least loaded of the first `k` channels, in place. */
  method DistributeRequests(newLens: seq<nat>, channels: array<seq<nat>>, k: nat)
    requires 0 < k <= channels.Length
    modifies channels
    ensures var lens := Sorted(newLens);
      var a := Chosen(Latencies(lens), BaseLoads(old(channels[..]), k));
      forall c :: 0 <= c < channels.Length ==> channels[c] == old(channels[c]) + Placed(lens, a, c)
  {
    hide Chosen, Latency, Sorted, MinIndex, Loads, Placed, SumLoad, Latencies;
    var load := seq(channels.Length, c requires 0 <= c < channels.Length reads channels => SumLoad(channels[c]));
    var lens := Sorted(newLens);
    ghost var base := load[..k];
    assert base == BaseLoads(old(channels[..]), k);
    NothingPlaced(base);
    for n := 0 to |lens|
      invariant |load| == channels.Length
      invariant load[..k] == Loads(Latencies(lens[..n]), Chosen(Latencies(lens[..n]), base), base)
      invariant forall c :: 0 <= c < channels.Length ==> load[c] == SumLoad(channels[c])
      invariant forall c :: 0 <= c < channels.Length ==>
        channels[c] == old(channels[c]) + Placed(lens[..n], Chosen(Latencies(lens[..n]), base), c)
    {
      assert lens[..n + 1] == lens[..n] + [lens[n]];
      PlaceStep(lens[..n], lens[n], base);
      var min := MinIndex(load[..k]);
      SumLoadAppends(channels[min], lens[n]);
      channels[min] := channels[min] + [lens[n]];
      load := load[min := load[min] + Latency(lens[n])];
    }
    assert lens[..|lens|] == lens;
  }

  lemma NothingPlaced(base: seq<nat>)
    requires |base| > 0
    ensures Latencies([]) == [] && Loads([], Chosen([], base), base) == base
    ensures forall c: nat :: Placed([], Chosen([], base), c) == []
  {
  }
}
