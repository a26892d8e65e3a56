/** Choosing tile sizes for a matrix multiplication: the largest inner dimension is halved, rounding up, and its outer
    count doubled, until activation, weight and accumulation space of a tile, each aligned to the core's width, fit half
    the scratchpad. */
module Tiling {
  import opened Bits

  datatype Config = Config(coreWidth: nat, precision: nat, spadKB: nat) {
    /** Double buffering leaves half of the scratchpad to a tile. */
    function Capacity(): nat { spadKB * 1024 / 2 }
    /** Three blocks of the core's width, one of each operand. */
    function Block(): nat { Product(3 * Product(coreWidth, coreWidth), precision) }
  }

  /** Inner and outer sizes along M, K and N. */
  datatype Loops = Loops(inner: seq<nat>, outer: seq<nat>)

  /** Rounded up to a multiple of the core width. */
  function Aligned(n: nat, width: nat): nat
    requires width > 0
  {
    if n % width != 0 then n + (width - n % width) else n
  }

  function SramSizeNeeded(inner: seq<nat>, cfg: Config): nat
    requires |inner| == 3 && cfg.coreWidth > 0
  {
    Bytes(Aligned(inner[0], cfg.coreWidth), Aligned(inner[1], cfg.coreWidth), Aligned(inner[2], cfg.coreWidth),
          cfg.precision)
  }

  function Product(a: nat, b: nat): nat { a * b }

  /** Activation, weight and accumulation space. */
  function Bytes(n: nat, k: nat, m: nat, precision: nat): nat {
    Product(Product(n, k) + Product(k, m) + Product(m, n), precision)
  }

  predicate Fits(inner: seq<nat>, cfg: Config)
    requires |inner| == 3 && cfg.coreWidth > 0
  {
    SramSizeNeeded(inner, cfg) <= cfg.Capacity()
  }

  /** The first of the largest. */
  function MaxElement(s: seq<nat>): (i: nat)
    requires |s| == 3
    ensures i < 3 && forall j :: 0 <= j < 3 ==> s[j] <= s[i]
    ensures forall j :: 0 <= j < i ==> s[j] < s[i]
  {
    var i := if s[1] > s[0] then 1 else 0;
    if s[2] > s[i] then 2 else i
  }

  /** ceil(n / 2), as the code computes it. */
  function HalfUp(n: nat): nat { n % 2 + n / 2 }

  function CeilDiv(n: nat, d: nat): (q: nat)
    requires d > 0
    ensures q * d >= n && (q > 0 ==> (q - 1) * d < n)
  {
    var q := (n + d - 1) / d;
    assert n + d - 1 == q * d + (n + d - 1) % d;
    assert (q - 1) * d == q * d - d;
    q
  }

  function Split(t: Loops): Loops
    requires |t.inner| == 3 == |t.outer|
  {
    var i := MaxElement(t.inner);
    Loops(t.inner[i := HalfUp(t.inner[i])], t.outer[i := t.outer[i] * 2])
  }

  function Whole(dims: seq<nat>): Loops { Loops(dims, [1, 1, 1]) }

  // ---- arithmetic of halving ----

  lemma Scaled(a: nat, b: nat, p: nat)
    requires a <= b
    ensures a * p <= b * p
  {
  }

  lemma CeilDivUnique(n: nat, d: nat, q: nat)
    requires d > 0 && q * d >= n && (q > 0 ==> (q - 1) * d < n)
    ensures q == CeilDiv(n, d)
  {
    var p := CeilDiv(n, d);
    if p < q { Scaled(p, q - 1, d); }
    if q < p { Scaled(q, p - 1, d); }
  }

  /** Halving a ceiling, rounding up, is dividing by twice as much, rounding up once. */
  lemma HalfOfCeil(n: nat, d: nat)
    requires d > 0
    ensures HalfUp(CeilDiv(n, d)) == CeilDiv(n, 2 * d)
  {
    var q := CeilDiv(n, d);
    var h := HalfUp(q);
    assert q <= 2 * h <= q + 1;
    assert h * (2 * d) == (2 * h) * d >= n by { assert (2 * h) * d >= q * d; }
    if h > 0 {
      assert (h - 1) * (2 * d) == (2 * h - 2) * d;
      assert (2 * h - 2) * d <= (q - 1) * d;
    }
    CeilDivUnique(n, 2 * d, h);
  }

  /** Inner sizes are the dimensions divided by the outer counts, rounded up once; outer counts are powers of two. */
  ghost predicate Even(t: Loops, dims: seq<nat>) {
    && |dims| == |t.inner| == |t.outer| == 3
    && forall i :: 0 <= i < 3 ==> t.outer[i] > 0 && IsPow2(t.outer[i]) && t.inner[i] == CeilDiv(dims[i], t.outer[i])
  }

  ghost predicate IsPow2(n: nat) { exists k: nat :: n == Pow2(k) }

  lemma WholeIsEven(dims: seq<nat>)
    requires |dims| == 3
    ensures Even(Whole(dims), dims)
  {
    assert Pow2(0) == 1;
  }

  lemma SplitIsEven(t: Loops, dims: seq<nat>)
    requires Even(t, dims)
    ensures Even(Split(t), dims)
  {
    var i := MaxElement(t.inner);
    HalfOfCeil(dims[i], t.outer[i]);
    var k: nat :| t.outer[i] == Pow2(k);
    assert t.outer[i] * 2 == Pow2(k + 1);
  }

  // ---- when it ends ----

  function Total(inner: seq<nat>): nat
    requires |inner| == 3
  {
    inner[0] + inner[1] + inner[2]
  }

  lemma AlignedBounds(n: nat, width: nat)
    requires width > 0
    ensures n <= Aligned(n, width) < n + width
    ensures n <= 1 ==> Aligned(n, width) <= width
    ensures n > 0 ==> Aligned(n, width) >= width
  {
    if n % width != 0 { assert n == (n / width) * width + n % width; }
    else if n > 0 { assert n == (n / width) * width; assert n / width >= 1; assert (n / width) * width >= width; }
    if n == 1 && width > 1 { assert 1 % width == 1; }
  }

  lemma ProductGrows(a: nat, b: nat, c: nat, d: nat)
    requires a <= c && b <= d
    ensures Product(a, b) <= Product(c, d)
  {
    assert a * b <= c * b <= c * d;
  }

  lemma BytesGrow(n: nat, k: nat, m: nat, n': nat, k': nat, m': nat, precision: nat)
    requires n <= n' && k <= k' && m <= m'
    ensures Bytes(n, k, m, precision) <= Bytes(n', k', m', precision)
  {
    hide Product;
    ProductGrows(n, k, n', k');
    ProductGrows(k, m, k', m');
    ProductGrows(m, n, m', n');
    ProductGrows(Product(n, k) + Product(k, m) + Product(m, n), precision,
                 Product(n', k') + Product(k', m') + Product(m', n'), precision);
  }

  lemma BlockBytes(cfg: Config)
    ensures Bytes(cfg.coreWidth, cfg.coreWidth, cfg.coreWidth, cfg.precision) == cfg.Block()
  {
  }

  /** The least a tile can need is one core-width block of each operand. */
  lemma LeastSize(inner: seq<nat>, cfg: Config)
    requires |inner| == 3 && cfg.coreWidth > 0
    ensures inner[0] > 0 && inner[1] > 0 && inner[2] > 0 ==> SramSizeNeeded(inner, cfg) >= cfg.Block()
    ensures inner[0] <= 1 && inner[1] <= 1 && inner[2] <= 1 ==> SramSizeNeeded(inner, cfg) <= cfg.Block()
  {
    hide Bytes, Aligned, Product;
    var w := cfg.coreWidth;
    BlockBytes(cfg);
    var n, k, m := Aligned(inner[0], w), Aligned(inner[1], w), Aligned(inner[2], w);
    AlignedBounds(inner[0], w);
    AlignedBounds(inner[1], w);
    AlignedBounds(inner[2], w);
    if n >= w && k >= w && m >= w { BytesGrow(w, w, w, n, k, m, cfg.precision); }
    if n <= w && k <= w && m <= w { BytesGrow(n, k, m, w, w, w, cfg.precision); }
  }

  /** While a tile does not fit though one block does, halving the largest dimension shrinks it. */
  lemma SplitShrinks(t: Loops, cfg: Config)
    requires |t.inner| == 3 == |t.outer| && cfg.coreWidth > 0 && cfg.Block() <= cfg.Capacity() && !Fits(t.inner, cfg)
    ensures Total(Split(t).inner) < Total(t.inner)
  {
    var i := MaxElement(t.inner);
    LeastSize(t.inner, cfg);
    assert t.inner[i] >= 2;
  }

  function SplitTimes(dims: seq<nat>, times: nat): (t: Loops)
    requires |dims| == 3
    ensures |t.inner| == 3 == |t.outer|
    ensures (forall i :: 0 <= i < 3 ==> dims[i] > 0) ==> forall i :: 0 <= i < 3 ==> t.inner[i] > 0
  {
    if times == 0 then Whole(dims) else Split(SplitTimes(dims, times - 1))
  }

  lemma {:induction false} SplitTimesIsEven(dims: seq<nat>, times: nat)
    requires |dims| == 3
    ensures Even(SplitTimes(dims, times), dims)
  {
    if times == 0 {
      WholeIsEven(dims);
    } else {
      SplitTimesIsEven(dims, times - 1);
      SplitIsEven(SplitTimes(dims, times - 1), dims);
    }
  }

  /** For positive dimensions the loop reaches a fitting tile exactly when three core-width blocks fit. */
  lemma EndsExactlyWhenABlockFits(dims: seq<nat>, cfg: Config)
    requires |dims| == 3 && cfg.coreWidth > 0 && forall i :: 0 <= i < 3 ==> dims[i] > 0
    ensures (exists times :: Fits(SplitTimes(dims, times).inner, cfg)) <==> cfg.Block() <= cfg.Capacity()
  {
    hide SramSizeNeeded, Split, Product;
    if cfg.Block() <= cfg.Capacity() {
      var times := FirstFit(dims, cfg, 0);
      assert Fits(SplitTimes(dims, times).inner, cfg);
    } else {
      forall times: nat
        ensures !Fits(SplitTimes(dims, times).inner, cfg)
      {
        LeastSize(SplitTimes(dims, times).inner, cfg);
      }
    }
  }

  /** The first number of splits, from `times` on, whose tile fits. */
  ghost function FirstFit(dims: seq<nat>, cfg: Config, times: nat): (n: nat)
    requires |dims| == 3 && cfg.coreWidth > 0 && cfg.Block() <= cfg.Capacity()
    ensures n >= times && Fits(SplitTimes(dims, n).inner, cfg)
    ensures forall j :: times <= j < n ==> !Fits(SplitTimes(dims, j).inner, cfg)
    decreases Total(SplitTimes(dims, times).inner)
  {
    if Fits(SplitTimes(dims, times).inner, cfg) then times
    else
      SplitShrinks(SplitTimes(dims, times), cfg);
      FirstFit(dims, cfg, times + 1)
  }

  lemma FirstFitIs(dims: seq<nat>, cfg: Config, times: nat)
    requires |dims| == 3 && cfg.coreWidth > 0 && cfg.Block() <= cfg.Capacity()
    requires Fits(SplitTimes(dims, times).inner, cfg)
    requires forall j :: 0 <= j < times ==> !Fits(SplitTimes(dims, j).inner, cfg)
    ensures FirstFit(dims, cfg, 0) == times
  {
    hide Fits, SplitTimes;
    var n := FirstFit(dims, cfg, 0);
    assert n >= times && n <= times;
  }

  /** Ends with a tile that fits, having split no more often than needed; every outer count is a power of two and every
      inner size is the dimension divided by it, rounded up once. */
  method CalculateLoops(dims: seq<nat>, cfg: Config) returns (t: Loops)
    requires |dims| == 3 && cfg.coreWidth > 0 && cfg.Block() <= cfg.Capacity()
    ensures Even(t, dims) && Fits(t.inner, cfg)
    ensures t == SplitTimes(dims, FirstFit(dims, cfg, 0))
  {
    hide SramSizeNeeded, Even, Product, FirstFit, HalfUp, Total, MaxElement;
    var inner: seq<nat>, outer: seq<nat> := dims, [1, 1, 1];
    ghost var times := 0;
    WholeIsEven(dims);
    while SramSizeNeeded(inner, cfg) > cfg.Capacity()
      invariant Loops(inner, outer) == SplitTimes(dims, times) && Even(Loops(inner, outer), dims)
      invariant forall j :: 0 <= j < times ==> !Fits(SplitTimes(dims, j).inner, cfg)
      decreases Total(inner)
    {
      SplitShrinks(Loops(inner, outer), cfg);
      SplitIsEven(Loops(inner, outer), dims);
      var max := MaxElement(inner);
      outer := outer[max := outer[max] * 2];
      inner := inner[max := HalfUp(inner[max])];
      times := times + 1;
    }
    t := Loops(inner, outer);
    FirstFitIs(dims, cfg, times);
  }
}
