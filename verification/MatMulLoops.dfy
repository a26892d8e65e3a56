/** From dimensions to tiles: the loop sizes the tiling chooses, put into the multiplication. */
module MatMulLoops {
  import opened Scratchpads
  import opened Tiling
  import Bits
  import MatMul
  import MatMulGrid

  /** The multiplication with the given loops; sizes come in the order M, K, N, and one memory access covers `chunk`
      elements. */
  function ShapeOf(dims: seq<nat>, t: Loops, cfg: Config, chunk: nat, batches: nat, bias: bool): MatMul.Shape
    requires |dims| == |t.inner| == |t.outer| == 3
  {
    MatMul.Shape(batches, dims[0], dims[1], dims[2], t.inner[0], t.inner[1], t.inner[2], t.outer[0], t.outer[1],
                 t.outer[2], cfg.coreWidth, chunk, cfg.precision, bias)
  }

  /** `d` is a whole number of `o` times `w`. */
  ghost predicate MultipleOf(d: nat, o: nat, w: nat) { exists c: nat :: d == Product(Product(c, w), o) }

  predicate Positive(dims: seq<nat>) { |dims| == 3 && forall i :: 0 <= i < 3 ==> dims[i] > 0 }

  lemma MultipleDivides(d: nat, o: nat, w: nat)
    requires d > 0 && o > 0 && w > 0 && MultipleOf(d, o, w)
    ensures CeilDiv(d, o) % w == 0 && CeilDiv(d, o) * o == d
  {
    var c: nat :| d == Product(Product(c, w), o);
    assert (c * w - 1) * o == c * w * o - o;
    CeilDivUnique(d, o, c * w);
    MultipleIsWhole(c, w);
  }

  lemma DividesMultiple(d: nat, o: nat, w: nat)
    requires o > 0 && w > 0 && CeilDiv(d, o) % w == 0 && CeilDiv(d, o) * o == d
    ensures MultipleOf(d, o, w)
  {
    var c := CeilDiv(d, o) / w;
    assert CeilDiv(d, o) == Product(c, w);
    assert d == Product(Product(c, w), o);
  }

  /** One axis: tiles of a rounded-up quotient, in whole blocks, do not stick out exactly when the quotient is exact
      and a multiple of the width. */
  lemma AxisExactly(g: MatMul.Shape, d: nat, o: nat)
    requires d > 0 && o > 0 && g.width > 0
    ensures CeilDiv(d, o) > 0
    ensures (o - 1) * CeilDiv(d, o) + g.Rounded(CeilDiv(d, o)) <= d <==> MultipleOf(d, o, g.width)
    ensures MultipleOf(d, o, g.width) ==> CeilDiv(d, o) % g.width == 0
  {
    var inner, w := CeilDiv(d, o), g.width;
    MatMul.LastOffset(g, 0, inner);
    assert inner * o == (o - 1) * inner + inner;
    if MultipleOf(d, o, w) { MultipleDivides(d, o, w); }
    if (o - 1) * inner + g.Rounded(inner) <= d {
      assert inner == g.Rounded(inner) == ((inner - 1) / w + 1) * w;
      MultipleIsWhole((inner - 1) / w + 1, w);
      DividesMultiple(d, o, w);
    }
  }

  lemma MultipleIsWhole(c: nat, w: nat)
    requires w > 0
    ensures (c * w) % w == 0
  {
    var e := c - (c * w) / w;
    assert e * w == (c * w) % w by { assert c * w == ((c * w) / w) * w + (c * w) % w; }
    Bits.Multiple(e, w);
  }

  /** With the chosen loops the grid stays inside the tensors exactly when every dimension is a whole number of its
      outer count times the core's width; inner sizes are then multiples of that width. */
  lemma GridExactly(dims: seq<nat>, t: Loops, cfg: Config, chunk: nat, batches: nat, bias: bool)
    requires Positive(dims) && cfg.coreWidth > 0 && chunk > 0 && Even(t, dims)
    ensures var g := ShapeOf(dims, t, cfg, chunk, batches, bias);
      && g.Sized()
      && (MatMulGrid.GridInside(g) <==> forall i :: 0 <= i < 3 ==> MultipleOf(dims[i], t.outer[i], cfg.coreWidth))
      && (MatMulGrid.GridInside(g) ==> g.Aligned())
  {
    hide MultipleOf, CeilDiv, IsPow2;
    var g := ShapeOf(dims, t, cfg, chunk, batches, bias);
    AxisExactly(g, dims[0], t.outer[0]);
    AxisExactly(g, dims[1], t.outer[1]);
    AxisExactly(g, dims[2], t.outer[2]);
  }

  /** A tile's operands and its outputs each fit one half of the scratchpad once it is flushed. */
  predicate FitsHalf(g: MatMul.Shape, spad: Spad, h: nat)
    requires spad.Valid() && h < 2
  {
    && spad.Flushed(h).HasRoom((g.innerM * g.innerK + g.innerK * g.innerN) * g.precision, h)
    && spad.Flushed(h).HasRoom(g.innerM * g.innerN * g.precision, h)
  }

  lemma FittingTileFitsHalf(dims: seq<nat>, t: Loops, cfg: Config, chunk: nat, batches: nat, bias: bool, spad: Spad,
                            h: nat)
    requires |dims| == |t.inner| == |t.outer| == 3 && cfg.coreWidth > 0 && Fits(t.inner, cfg)
    requires spad.Valid() && spad.size == cfg.spadKB * 1024 && h < 2
    ensures FitsHalf(ShapeOf(dims, t, cfg, chunk, batches, bias), spad, h)
  {
    var m, k, n, w := t.inner[0], t.inner[1], t.inner[2], cfg.coreWidth;
    AlignedBounds(m, w);
    AlignedBounds(k, w);
    AlignedBounds(n, w);
    BytesGrow(m, k, n, Tiling.Aligned(m, w), Tiling.Aligned(k, w), Tiling.Aligned(n, w), cfg.precision);
    SumOfBytes(m, k, n, cfg.precision);
  }

  lemma SumOfBytes(m: nat, k: nat, n: nat, precision: nat)
    ensures Bytes(m, k, n, precision) == (m * k + k * n) * precision + m * n * precision
  {
    assert (m * k + k * n + n * m) * precision == (m * k + k * n) * precision + (n * m) * precision;
  }

  /** Loops and tiles together: refused exactly when some dimension is not a whole number of its outer count times the
      core's width. Otherwise the tiles multiply every block once and store every output once after its contributions.
      Each tile fits the half it is issued to. */
  method CreateTiles(dims: seq<nat>, cfg: Config, chunk: nat, batches: nat, bias: bool)
    returns (g: MatMul.Shape, r: MatMul.Option<seq<MatMul.Tile>>)
    requires Positive(dims) && cfg.coreWidth > 0 && chunk > 0 && cfg.Block() <= cfg.Capacity()
    ensures g == ShapeOf(dims, SplitTimes(dims, FirstFit(dims, cfg, 0)), cfg, chunk, batches, bias)
    ensures var outer := SplitTimes(dims, FirstFit(dims, cfg, 0)).outer;
      r.Some? <==> (batches == 0 || forall i :: 0 <= i < 3 ==> MultipleOf(dims[i], outer[i], cfg.coreWidth))
    ensures r.Some? && batches > 0 ==>
      g.Aligned() && MatMulGrid.Covers(g, r.value) && MatMulGrid.StoresAfterContributions(r.value)
      && MatMulGrid.InOrder(g, r.value)
    ensures forall spad: Spad, h | spad.Valid() && spad.size == cfg.spadKB * 1024 && 0 <= h < 2 :: FitsHalf(g, spad, h)
  {
    hide FirstFit, SplitTimes, MultipleOf, Even, Fits, FitsHalf, MatMulGrid.Covers, MatMulGrid.InOrder;
    var t := CalculateLoops(dims, cfg);
    g := ShapeOf(dims, t, cfg, chunk, batches, bias);
    GridExactly(dims, t, cfg, chunk, batches, bias);
    r := MatMulGrid.InitializeTiles(g);
    forall spad: Spad, h | spad.Valid() && spad.size == cfg.spadKB * 1024 && 0 <= h < 2 ensures FitsHalf(g, spad, h) {
      FittingTileFitsHalf(dims, t, cfg, chunk, batches, bias, spad, h);
    }
  }
}
