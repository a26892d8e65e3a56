/** The tiles of a matrix multiplication and the instructions of each tile. */
module MatMul {
  import opened Counting

  datatype Option<T> = None | Some(value: T)

  const SPAD_BASE: nat := 0x1000_0000
  const ACCUM_BASE: nat := 0x2000_0000

  datatype Operand = Act | Wgt | Bias

  /** Blocks are named by the offsets of their first element in the tensors; `sram`, `act`, `wgt` and `out` are
      scratchpad addresses. */
  datatype Instr =
    | MovIn(operand: Operand, row: nat, col: nat, sram: nat)
    | Gemm(preload: bool, m: nat, k: nat, n: nat, act: nat, wgt: nat, out: nat)
    | MovOut(m: nat, n: nat, sram: nat)

  datatype Tile = Tile(batch: nat, M: nat, K: nat, N: nat, accum: bool, instrs: seq<Instr>)

  /** Tensor dimensions, inner and outer loop sizes, the core, and how many elements one memory access covers. */
  datatype Shape = Shape(
    batches: nat, dimM: nat, dimK: nat, dimN: nat, innerM: nat, innerK: nat, innerN: nat,
    outerM: nat, outerK: nat, outerN: nat, width: nat, chunk: nat, precision: nat, bias: bool)
  {
    predicate Sized() {
      width > 0 && chunk > 0 && innerM > 0 && innerK > 0 && innerN > 0 && outerM > 0 && outerK > 0 && outerN > 0
    }

    /** Inner sizes are multiples of the core width. */
    predicate Aligned() { Sized() && innerM % width == 0 && innerK % width == 0 && innerN % width == 0 }

    /** Whole blocks that cover `len`. */
    function Rounded(len: nat): nat
      requires width > 0 && len > 0
    {
      (len - 1) / width * width + width
    }

    /** The last element of a block's row whose address is asked for: addresses are taken one per access. */
    function LastTouched(): nat
      requires Sized()
    {
      (width - 1) / chunk * chunk
    }

    function ActAddr(m: nat, k: nat): nat { SPAD_BASE + (m * innerK + k) * precision }
    function WgtAddr(k: nat, n: nat): nat { SPAD_BASE + innerM * innerK * precision + (k * innerN + n) * precision }
    function OutAddr(m: nat, n: nat): nat { ACCUM_BASE + (m * innerN + n) * precision }
  }

  /** One tile's place: the offsets of its first elements, and whether it stores its outputs. */
  datatype Place = Place(m0: nat, k0: nat, n0: nat, first: bool, store: bool)

  // ---- one block ----

  function ActLoad(g: Shape, p: Place, m: nat, k: nat): Instr
    requires m >= p.m0 && k >= p.k0
  {
    MovIn(Act, m, k, g.ActAddr(m - p.m0, k - p.k0))
  }

  function WgtLoad(g: Shape, p: Place, k: nat, n: nat): Instr
    requires k >= p.k0 && n >= p.n0
  {
    MovIn(Wgt, k, n, g.WgtAddr(k - p.k0, n - p.n0))
  }

  function BlockGemm(g: Shape, p: Place, m: nat, k: nat, n: nat): Instr
    requires m >= p.m0 && k >= p.k0 && n >= p.n0
  {
    Gemm(m == p.m0, m, k, n, g.ActAddr(m - p.m0, k - p.k0), g.WgtAddr(k - p.k0, n - p.n0),
         g.OutAddr(m - p.m0, n - p.n0))
  }

  function BlockOut(g: Shape, p: Place, m: nat, n: nat): Instr
    requires m >= p.m0 && n >= p.n0
  {
    MovOut(m, n, g.OutAddr(m - p.m0, n - p.n0))
  }

  /** The last k block of a tile. */
  function LastK(g: Shape, p: Place): int
    requires g.Sized()
  {
    p.k0 + g.Rounded(g.innerK) - g.width
  }

  predicate StoresAt(g: Shape, p: Place, k: nat) { p.store && k - p.k0 + g.width >= g.innerK }

  /** Activation on the first pass over n, weight on the first over m, the product, and the store after the last k. */
  function Block(g: Shape, p: Place, m: nat, k: nat, n: nat): seq<Instr>
    requires m >= p.m0 && k >= p.k0 && n >= p.n0
  {
    (if n == p.n0 then [ActLoad(g, p, m, k)] else [])
    + (if m == p.m0 then [WgtLoad(g, p, k, n)] else [])
    + [BlockGemm(g, p, m, k, n)]
    + if StoresAt(g, p, k) then [BlockOut(g, p, m, n)] else []
  }

  /** Every element of a block along a dimension lies inside the tensor; otherwise an address is refused. */
  predicate Inside(g: Shape, offset: nat, dim: nat) { offset + g.width <= dim }

  /** The elements whose addresses are asked for lie inside the tensor, one for each access. */
  predicate Touches(g: Shape, offset: nat, dim: nat)
    requires g.Sized()
  {
    offset + g.LastTouched() < dim
  }

  /** Rows are asked for one by one, columns access by access; a stored block the other way round. */
  predicate BlockInside(g: Shape, p: Place, m: nat, k: nat, n: nat)
    requires g.Sized()
  {
    && (n == p.n0 ==> Inside(g, m, g.dimM) && Touches(g, k, g.dimK))
    && (m == p.m0 ==> Inside(g, k, g.dimK) && Touches(g, n, g.dimN))
    && (StoresAt(g, p, k) ==> Touches(g, m, g.dimM) && Inside(g, n, g.dimN))
  }

  // ---- what a prefix of the loops has done ----

  ghost function GemmAt(m: nat, k: nat, n: nat): Instr -> bool {
    (i: Instr) => i.Gemm? && i.m == m && i.k == k && i.n == n
  }
  ghost function LoadAt(o: Operand, row: nat, col: nat): Instr -> bool {
    (i: Instr) => i.MovIn? && i.operand == o && i.row == row && i.col == col
  }
  ghost function OutAt(m: nat, n: nat): Instr -> bool { (i: Instr) => i.MovOut? && i.m == m && i.n == n }

  /** A block offset of an axis that starts at `lo` and is `len` long. */
  predicate On(g: Shape, x: int, lo: nat, len: nat)
    requires g.width > 0
  {
    lo <= x < lo + len && (x - lo) % g.width == 0
  }

  predicate InTile(g: Shape, p: Place, m: int, k: int, n: int)
    requires g.width > 0
  {
    On(g, m, p.m0, g.innerM) && On(g, k, p.k0, g.innerK) && On(g, n, p.n0, g.innerN)
  }

  /** Loop order: n, then k, then m. */
  predicate Before(m: int, k: int, n: int, m': int, k': int, n': int) {
    n < n' || (n == n' && (k < k' || (k == k' && m < m')))
  }

  ghost predicate GemmsDone(g: Shape, p: Place, s: seq<Instr>, m: nat, k: nat, n: nat)
    requires g.Sized()
  {
    forall x: nat, y: nat, z: nat ::
      Count(s, GemmAt(x, y, z)) == if InTile(g, p, x, y, z) && Before(x, y, z, m, k, n) then 1 else 0
  }

  ghost predicate OutsDone(g: Shape, p: Place, s: seq<Instr>, m: nat, k: nat, n: nat)
    requires g.Sized()
  {
    forall x: nat, z: nat ::
      Count(s, OutAt(x, z)) ==
        if p.store && InTile(g, p, x, LastK(g, p), z) && Before(x, LastK(g, p), z, m, k, n) then 1 else 0
  }

  ghost predicate Loads(g: Shape, p: Place, s: seq<Instr>, m: nat, k: nat, n: nat)
    requires g.Sized()
  {
    && (forall x: nat, y: nat :: On(g, x, p.m0, g.innerM) && On(g, y, p.k0, g.innerK) && Before(x, y, p.n0, m, k, n) ==>
          ActLoad(g, p, x, y) in s)
    && (forall y: nat, z: nat :: On(g, y, p.k0, g.innerK) && On(g, z, p.n0, g.innerN) && Before(p.m0, y, z, m, k, n) ==>
          WgtLoad(g, p, y, z) in s)
  }

  /** Each block of an operand is loaded once. */
  ghost predicate LoadsDone(g: Shape, p: Place, s: seq<Instr>, m: nat, k: nat, n: nat)
    requires g.Sized()
  {
    && (forall x: nat, y: nat :: Count(s, LoadAt(Act, x, y)) ==
          if On(g, x, p.m0, g.innerM) && On(g, y, p.k0, g.innerK) && Before(x, y, p.n0, m, k, n) then 1 else 0)
    && (forall y: nat, z: nat :: Count(s, LoadAt(Wgt, y, z)) ==
          if On(g, y, p.k0, g.innerK) && On(g, z, p.n0, g.innerN) && Before(p.m0, y, z, m, k, n) then 1 else 0)
  }

  /** Every product finds both operands loaded, at the addresses it reads, earlier in the tile. */
  ghost predicate LoadedBefore(g: Shape, p: Place, s: seq<Instr>) {
    forall j :: 0 <= j < |s| && s[j].Gemm? ==>
      && s[j].m >= p.m0 && s[j].k >= p.k0 && s[j].n >= p.n0 && s[j] == BlockGemm(g, p, s[j].m, s[j].k, s[j].n)
      && ActLoad(g, p, s[j].m, s[j].k) in s[..j] && WgtLoad(g, p, s[j].k, s[j].n) in s[..j]
  }

  /** A store is never followed by a product into the same block, and reads the address the products wrote. */
  ghost predicate StoredLast(g: Shape, p: Place, s: seq<Instr>) {
    && (forall i, j :: 0 <= i < j < |s| && s[i].MovOut? && s[j].Gemm? ==> s[i].m != s[j].m || s[i].n != s[j].n)
    && (forall i :: 0 <= i < |s| && s[i].MovOut? ==>
        s[i].m >= p.m0 && s[i].n >= p.n0 && s[i] == BlockOut(g, p, s[i].m, s[i].n))
  }

  ghost predicate Done(g: Shape, p: Place, s: seq<Instr>, m: nat, k: nat, n: nat)
    requires g.Sized()
  {
    && GemmsDone(g, p, s, m, k, n) && OutsDone(g, p, s, m, k, n) && Loads(g, p, s, m, k, n)
    && LoadsDone(g, p, s, m, k, n) && LoadedBefore(g, p, s) && StoredLast(g, p, s) && BiasesLoaded(g, p, s)
    && WeightsPreloaded(s) && Checked(g, p, m, k, n)
  }

  // ---- biases and preloads ----

  /** Only the first tile of an accumulation loads biases: one for each of its column blocks, to the address where the
      products into the block's first row accumulate, and none after a product. */
  ghost predicate BiasesLoaded(g: Shape, p: Place, s: seq<Instr>)
    requires g.Sized()
  {
    && (forall z: nat :: Count(s, LoadAt(Bias, 0, z)) == if g.bias && p.first && On(g, z, p.n0, g.innerN) then 1 else 0)
    && (forall i :: 0 <= i < |s| && s[i].MovIn? && s[i].operand.Bias? ==>
        s[i].row == 0 && s[i].col >= p.n0 && s[i].sram == ACCUM_BASE + (s[i].col - p.n0) * g.precision)
    && (forall i, j :: 0 <= i < j < |s| && s[i].Gemm? && s[j].MovIn? ==> !s[j].operand.Bias?)
  }

  /** Products come column by column, in each over k, and for each weight block over m; the first product with a weight
      block, and no other, preloads it. */
  ghost predicate WeightsPreloaded(s: seq<Instr>) {
    && (forall i, j :: 0 <= i < j < |s| && s[i].Gemm? && s[j].Gemm? ==>
          Before(s[i].m, s[i].k, s[i].n, s[j].m, s[j].k, s[j].n))
    && (forall j :: 0 <= j < |s| && s[j].Gemm? ==> (s[j].preload <==> NotUsed(s[..j], s[j].k, s[j].n)))
  }

  /** No product so far is with this weight block. */
  ghost predicate NotUsed(s: seq<Instr>, k: nat, n: nat) {
    forall i :: 0 <= i < |s| && s[i].Gemm? ==> s[i].k != k || s[i].n != n
  }

  /** No address of the blocks so far was refused. */
  ghost predicate Checked(g: Shape, p: Place, m: nat, k: nat, n: nat)
    requires g.Sized()
  {
    forall x: nat, y: nat, z: nat :: InTile(g, p, x, y, z) && Before(x, y, z, m, k, n) ==> BlockInside(g, p, x, y, z)
  }

  /** The whole tile lies inside the tensors; of the columns of a tile that stores nothing, the accesses do. */
  predicate TileInside(g: Shape, p: Place)
    requires g.Sized()
  {
    && p.m0 + g.Rounded(g.innerM) <= g.dimM && p.k0 + g.Rounded(g.innerK) <= g.dimK
    && p.n0 + g.Rounded(g.innerN) - g.width + (if p.store then g.width - 1 else g.LastTouched()) < g.dimN
  }

  // ---- multiples ----

  lemma Remainder(d: int, w: nat)
    requires w > 0 && 0 - w < d < w && d % w == 0
    ensures d == 0
  {
  }

  lemma {:induction false} SumOfMultiples(x: int, y: int, w: nat)
    requires w > 0 && x % w == 0 && y % w == 0
    ensures (x - y) % w == 0 && (x + y) % w == 0
  {
    var a, b := x / w, y / w;
    assert x == a * w && y == b * w;
    assert x - y == (a - b) * w && x + y == (a + b) * w;
    MultipleHasNoRemainder(a - b, w);
    MultipleHasNoRemainder(a + b, w);
  }

  lemma Multiple(d: int, w: nat)
    requires w > 0
    ensures d >= 1 ==> d * w >= w
    ensures d <= -1 ==> -d * w >= w
  {
  }

  lemma MultipleHasNoRemainder(q: int, w: nat)
    requires w > 0
    ensures (q * w) % w == 0
  {
    var r, d := (q * w) % w, (q * w) / w - q;
    assert r == -d * w;
    Multiple(d, w);
    assert d == 0;
  }

  /** Between a block offset and the next there is none. */
  lemma NextOffset(g: Shape, x: int, y: nat, lo: nat, len: nat)
    requires g.width > 0 && On(g, y, lo, len)
    ensures On(g, x, lo, len) ==> (x < y + g.width <==> x <= y)
    ensures y + g.width < lo + len ==> On(g, y + g.width, lo, len)
  {
    var w := g.width;
    if On(g, x, lo, len) && y < x < y + w {
      SumOfMultiples(x - lo, y - lo, w);
      Remainder(x - y, w);
    }
    MultipleHasNoRemainder(1, w);
    SumOfMultiples(y - lo, w, w);
  }

  /** The first and the last block offset of an axis; a block reaches the end exactly at the last. */
  lemma LastOffset(g: Shape, lo: nat, len: nat)
    requires g.width > 0 && len > 0
    ensures len <= g.Rounded(len) && On(g, lo + g.Rounded(len) - g.width, lo, len) && On(g, lo, lo, len)
    ensures len % g.width == 0 ==> g.Rounded(len) == len
    ensures forall y | On(g, y, lo, len) ::
      y <= lo + g.Rounded(len) - g.width && (y + g.width >= lo + len <==> y == lo + g.Rounded(len) - g.width)
  {
    var w := g.width;
    var last: nat := lo + g.Rounded(len) - w;
    assert len - 1 == (len - 1) / w * w + (len - 1) % w;
    MultipleHasNoRemainder((len - 1) / w, w);
    assert 0 % w == 0;
    forall y | On(g, y, lo, len)
      ensures y <= last && (y + w >= lo + len <==> y == last)
    {
      NextOffset(g, y, last, lo, len);
      NextOffset(g, last, y, lo, len);
    }
    if len % w == 0 {
      MultipleHasNoRemainder(1, w);
      SumOfMultiples((len - 1) / w * w, w, w);
      SumOfMultiples(g.Rounded(len), len, w);
      Remainder(g.Rounded(len) - len, w);
    }
  }

  // ---- one block more ----

  lemma BlockCounts(g: Shape, p: Place, s: seq<Instr>, m: nat, k: nat, n: nat)
    requires m >= p.m0 && k >= p.k0 && n >= p.n0
    ensures forall x: nat, y: nat, z: nat ::
      Count(s + Block(g, p, m, k, n), GemmAt(x, y, z)) ==
        Count(s, GemmAt(x, y, z)) + if x == m && y == k && z == n then 1 else 0
    ensures forall x: nat, z: nat ::
      Count(s + Block(g, p, m, k, n), OutAt(x, z)) ==
        Count(s, OutAt(x, z)) + if StoresAt(g, p, k) && x == m && z == n then 1 else 0
  {
    var b := Block(g, p, m, k, n);
    forall q: Instr -> bool ensures Count(s + b, q) == Count(s, q)
      + (if n == p.n0 && q(ActLoad(g, p, m, k)) then 1 else 0) + (if m == p.m0 && q(WgtLoad(g, p, k, n)) then 1 else 0)
      + (if q(BlockGemm(g, p, m, k, n)) then 1 else 0) + (if StoresAt(g, p, k) && q(BlockOut(g, p, m, n)) then 1 else 0)
    {
      CountBlock(g, p, s, m, k, n, q);
    }
  }

  lemma CountBlock(g: Shape, p: Place, s: seq<Instr>, m: nat, k: nat, n: nat, q: Instr -> bool)
    requires m >= p.m0 && k >= p.k0 && n >= p.n0
    ensures Count(s + Block(g, p, m, k, n), q) == Count(s, q)
      + (if n == p.n0 && q(ActLoad(g, p, m, k)) then 1 else 0) + (if m == p.m0 && q(WgtLoad(g, p, k, n)) then 1 else 0)
      + (if q(BlockGemm(g, p, m, k, n)) then 1 else 0) + (if StoresAt(g, p, k) && q(BlockOut(g, p, m, n)) then 1 else 0)
  {
    hide ActLoad, WgtLoad, BlockGemm, BlockOut, Count, StoresAt;
    var a := if n == p.n0 then [ActLoad(g, p, m, k)] else [];
    var b := if m == p.m0 then [WgtLoad(g, p, k, n)] else [];
    var c := [BlockGemm(g, p, m, k, n)];
    var d := if StoresAt(g, p, k) then [BlockOut(g, p, m, n)] else [];
    assert s + Block(g, p, m, k, n) == s + a + b + c + d;
    hide Block;
    CountIf(s, n == p.n0, ActLoad(g, p, m, k), q);
    CountIf(s + a, m == p.m0, WgtLoad(g, p, k, n), q);
    CountIf(s + a + b, true, BlockGemm(g, p, m, k, n), q);
    CountIf(s + a + b + c, StoresAt(g, p, k), BlockOut(g, p, m, n), q);
  }

  lemma CountIf(s: seq<Instr>, put: bool, x: Instr, q: Instr -> bool)
    ensures Count(s + if put then [x] else [], q) == Count(s, q) + if put && q(x) then 1 else 0
  {
    if put { CountAdd(s, x, q); } else { assert s + [] == s; }
  }

  lemma BlockGemmsDone(g: Shape, p: Place, s: seq<Instr>, m: nat, k: nat, n: nat)
    requires g.Sized() && InTile(g, p, m, k, n) && GemmsDone(g, p, s, m, k, n)
    ensures GemmsDone(g, p, s + Block(g, p, m, k, n), m + g.width, k, n)
  {
    BlockCounts(g, p, s, m, k, n);
    hide Count, Block;
    forall x: nat, y: nat, z: nat
      ensures Count(s + Block(g, p, m, k, n), GemmAt(x, y, z)) ==
        if InTile(g, p, x, y, z) && Before(x, y, z, m + g.width, k, n) then 1 else 0
    {
      NextOffset(g, x, m, p.m0, g.innerM);
    }
  }

  lemma StoresAtLast(g: Shape, p: Place, k: nat)
    requires g.Sized() && On(g, k, p.k0, g.innerK)
    ensures StoresAt(g, p, k) <==> p.store && k == LastK(g, p)
    ensures On(g, LastK(g, p), p.k0, g.innerK)
  {
    LastOffset(g, p.k0, g.innerK);
    NextOffset(g, LastK(g, p), k, p.k0, g.innerK);
  }

  lemma BlockOutsDone(g: Shape, p: Place, s: seq<Instr>, m: nat, k: nat, n: nat)
    requires g.Sized() && InTile(g, p, m, k, n) && OutsDone(g, p, s, m, k, n)
    ensures OutsDone(g, p, s + Block(g, p, m, k, n), m + g.width, k, n)
  {
    BlockCounts(g, p, s, m, k, n);
    StoresAtLast(g, p, k);
    hide Count, Block;
    forall x: nat, z: nat
      ensures Count(s + Block(g, p, m, k, n), OutAt(x, z)) ==
        if p.store && InTile(g, p, x, LastK(g, p), z) && Before(x, LastK(g, p), z, m + g.width, k, n) then 1 else 0
    {
      NextOffset(g, x, m, p.m0, g.innerM);
    }
  }

  lemma BlockLoads(g: Shape, p: Place, s: seq<Instr>, m: nat, k: nat, n: nat)
    requires g.Sized() && InTile(g, p, m, k, n) && Loads(g, p, s, m, k, n)
    ensures Loads(g, p, s + Block(g, p, m, k, n), m + g.width, k, n)
    ensures n == p.n0 ==> ActLoad(g, p, m, k) in Block(g, p, m, k, n)
    ensures n > p.n0 ==> ActLoad(g, p, m, k) in s
    ensures m == p.m0 ==> WgtLoad(g, p, k, n) in Block(g, p, m, k, n)
    ensures m > p.m0 ==> WgtLoad(g, p, k, n) in s
  {
    var b := Block(g, p, m, k, n);
    if n == p.n0 { assert b[0] == ActLoad(g, p, m, k); }
    if m == p.m0 { assert b[if n == p.n0 then 1 else 0] == WgtLoad(g, p, k, n); }
    hide Block, ActLoad, WgtLoad;
    forall x: nat, y: nat | On(g, x, p.m0, g.innerM) && On(g, y, p.k0, g.innerK)
      && Before(x, y, p.n0, m + g.width, k, n)
      ensures ActLoad(g, p, x, y) in s + b
    {
      NextOffset(g, x, m, p.m0, g.innerM);
    }
    forall y: nat, z: nat | On(g, y, p.k0, g.innerK) && On(g, z, p.n0, g.innerN)
      && Before(p.m0, y, z, m + g.width, k, n)
      ensures WgtLoad(g, p, y, z) in s + b
    {
    }
  }

  lemma BlockLoadsDone(g: Shape, p: Place, s: seq<Instr>, m: nat, k: nat, n: nat)
    requires g.Sized() && InTile(g, p, m, k, n) && LoadsDone(g, p, s, m, k, n)
    ensures LoadsDone(g, p, s + Block(g, p, m, k, n), m + g.width, k, n)
  {
    hide Count, Block;
    forall x: nat, y: nat
      ensures Count(s + Block(g, p, m, k, n), LoadAt(Act, x, y)) ==
        if On(g, x, p.m0, g.innerM) && On(g, y, p.k0, g.innerK) && Before(x, y, p.n0, m + g.width, k, n) then 1 else 0
    {
      CountBlock(g, p, s, m, k, n, LoadAt(Act, x, y));
      NextOffset(g, x, m, p.m0, g.innerM);
    }
    forall y: nat, z: nat
      ensures Count(s + Block(g, p, m, k, n), LoadAt(Wgt, y, z)) ==
        if On(g, y, p.k0, g.innerK) && On(g, z, p.n0, g.innerN) && Before(p.m0, y, z, m + g.width, k, n) then 1 else 0
    {
      CountBlock(g, p, s, m, k, n, LoadAt(Wgt, y, z));
    }
  }

  lemma BlockLoadedBefore(g: Shape, p: Place, s: seq<Instr>, m: nat, k: nat, n: nat)
    requires g.Sized() && InTile(g, p, m, k, n) && Loads(g, p, s, m, k, n) && LoadedBefore(g, p, s)
    ensures LoadedBefore(g, p, s + Block(g, p, m, k, n))
  {
    BlockLoads(g, p, s, m, k, n);
    var b := Block(g, p, m, k, n);
    var t := s + b;
    forall j | 0 <= j < |t| && t[j].Gemm?
      ensures t[j].m >= p.m0 && t[j].k >= p.k0 && t[j].n >= p.n0 && t[j] == BlockGemm(g, p, t[j].m, t[j].k, t[j].n)
      ensures ActLoad(g, p, t[j].m, t[j].k) in t[..j] && WgtLoad(g, p, t[j].k, t[j].n) in t[..j]
    {
      if j < |s| { assert t[..j] == s[..j]; }
      else {
        assert t[..j] == s + b[..j - |s|];
        assert t[j] == BlockGemm(g, p, m, k, n);
        if n == p.n0 { assert b[..j - |s|][0] == ActLoad(g, p, m, k); }
        if m == p.m0 { assert b[..j - |s|][if n == p.n0 then 1 else 0] == WgtLoad(g, p, k, n); }
      }
    }
  }

  /** Nothing stored so far belongs to the block whose product comes now. */
  lemma NotStoredYet(g: Shape, p: Place, s: seq<Instr>, m: nat, k: nat, n: nat, i: nat)
    requires g.Sized() && InTile(g, p, m, k, n) && OutsDone(g, p, s, m, k, n) && i < |s| && s[i].MovOut?
    ensures s[i].m != m || s[i].n != n
  {
    CountMember(s, i, OutAt(s[i].m, s[i].n));
    StoresAtLast(g, p, k);
    NextOffset(g, LastK(g, p), k, p.k0, g.innerK);
  }

  lemma BlockStoredLast(g: Shape, p: Place, s: seq<Instr>, m: nat, k: nat, n: nat)
    requires g.Sized() && InTile(g, p, m, k, n) && OutsDone(g, p, s, m, k, n) && StoredLast(g, p, s)
    ensures StoredLast(g, p, s + Block(g, p, m, k, n))
  {
    var t := s + Block(g, p, m, k, n);
    forall i, j | 0 <= i < j < |t| && t[i].MovOut? && t[j].Gemm? ensures t[i].m != t[j].m || t[i].n != t[j].n {
      if j >= |s| { assert i < |s|; NotStoredYet(g, p, s, m, k, n, i); }
    }
  }

  /** A block loads no bias. */
  lemma BlockBiases(g: Shape, p: Place, s: seq<Instr>, m: nat, k: nat, n: nat)
    requires g.Sized() && m >= p.m0 && k >= p.k0 && n >= p.n0 && BiasesLoaded(g, p, s)
    ensures BiasesLoaded(g, p, s + Block(g, p, m, k, n))
  {
    forall z: nat ensures Count(s + Block(g, p, m, k, n), LoadAt(Bias, 0, z)) == Count(s, LoadAt(Bias, 0, z)) {
      CountBlock(g, p, s, m, k, n, LoadAt(Bias, 0, z));
    }
    forall i | 0 <= i < |Block(g, p, m, k, n)| && Block(g, p, m, k, n)[i].MovIn?
      ensures !Block(g, p, m, k, n)[i].operand.Bias?
    {
    }
    hide Block, Count, On;
  }

  /** What the products so far say of the next one. */
  lemma ProductsSoFar(g: Shape, p: Place, s: seq<Instr>, m: nat, k: nat, n: nat)
    requires g.Sized() && InTile(g, p, m, k, n) && GemmsDone(g, p, s, m, k, n)
    ensures forall i :: 0 <= i < |s| && s[i].Gemm? ==> Before(s[i].m, s[i].k, s[i].n, m, k, n)
    ensures m == p.m0 <==> NotUsed(s, k, n)
  {
    forall i | 0 <= i < |s| && s[i].Gemm?
      ensures Before(s[i].m, s[i].k, s[i].n, m, k, n) && InTile(g, p, s[i].m, s[i].k, s[i].n)
    {
      CountMember(s, i, GemmAt(s[i].m, s[i].k, s[i].n));
    }
    hide Count;
    if m > p.m0 {
      AxesStart(g, p);
      assert Count(s, GemmAt(p.m0, k, n)) == 1;
      CountSome(s, GemmAt(p.m0, k, n));
    }
  }

  lemma {:induction false} CountSome(s: seq<Instr>, q: Instr -> bool)
    requires Count(s, q) > 0
    ensures exists i :: 0 <= i < |s| && q(s[i])
  {
    if forall i :: 0 <= i < |s| ==> !q(s[i]) { CountNone(s, q); }
  }

  lemma BlockPreloads(g: Shape, p: Place, s: seq<Instr>, m: nat, k: nat, n: nat)
    requires g.Sized() && InTile(g, p, m, k, n) && GemmsDone(g, p, s, m, k, n) && WeightsPreloaded(s)
    ensures WeightsPreloaded(s + Block(g, p, m, k, n))
  {
    ProductsSoFar(g, p, s, m, k, n);
    var b, x := Block(g, p, m, k, n), BlockGemm(g, p, m, k, n);
    var at := (if n == p.n0 then 1 else 0) + (if m == p.m0 then 1 else 0);
    assert b[at] == x && forall i :: 0 <= i < |b| && b[i].Gemm? ==> i == at;
    assert x.Gemm? && x.preload == (m == p.m0) && x.m == m && x.k == k && x.n == n;
    hide Block, GemmsDone, InTile, BlockGemm;
    ProductJoins(s, b, at);
  }

  /** A run of instructions joins that holds one product, which comes after all so far. */
  lemma ProductJoins(s: seq<Instr>, b: seq<Instr>, at: nat)
    requires at < |b| && b[at].Gemm? && forall i :: 0 <= i < |b| && b[i].Gemm? ==> i == at
    requires forall i :: 0 <= i < |s| && s[i].Gemm? ==> Before(s[i].m, s[i].k, s[i].n, b[at].m, b[at].k, b[at].n)
    requires b[at].preload <==> NotUsed(s, b[at].k, b[at].n)
    requires WeightsPreloaded(s)
    ensures WeightsPreloaded(s + b)
  {
    hide Before, NotUsed;
    var t := s + b;
    assert NotUsed(t[..|s| + at], b[at].k, b[at].n) == NotUsed(s, b[at].k, b[at].n) by {
      assert t[..|s| + at] == s + b[..at];
      NotUsedByNone(s, b[..at], b[at].k, b[at].n);
    }
    forall j | 0 <= j < |t| && t[j].Gemm? ensures t[j].preload <==> NotUsed(t[..j], t[j].k, t[j].n) {
      if j < |s| { assert t[..j] == s[..j]; }
    }
  }

  lemma NotUsedByNone(s: seq<Instr>, b: seq<Instr>, k: nat, n: nat)
    requires forall i :: 0 <= i < |b| ==> !b[i].Gemm?
    ensures NotUsed(s + b, k, n) <==> NotUsed(s, k, n)
  {
    if i :| 0 <= i < |s| && s[i].Gemm? && s[i].k == k && s[i].n == n { assert (s + b)[i] == s[i]; }
  }

  lemma BlockDone(g: Shape, p: Place, s: seq<Instr>, m: nat, k: nat, n: nat)
    requires g.Sized() && InTile(g, p, m, k, n) && Done(g, p, s, m, k, n) && BlockInside(g, p, m, k, n)
    ensures Done(g, p, s + Block(g, p, m, k, n), m + g.width, k, n)
  {
    forall x: nat, y: nat, z: nat | InTile(g, p, x, y, z) && Before(x, y, z, m + g.width, k, n)
      ensures BlockInside(g, p, x, y, z)
    {
      NextOffset(g, x, m, p.m0, g.innerM);
    }
    BlockGemmsDone(g, p, s, m, k, n);
    BlockOutsDone(g, p, s, m, k, n);
    BlockLoads(g, p, s, m, k, n);
    BlockLoadsDone(g, p, s, m, k, n);
    BlockLoadedBefore(g, p, s, m, k, n);
    BlockStoredLast(g, p, s, m, k, n);
    BlockBiases(g, p, s, m, k, n);
    BlockPreloads(g, p, s, m, k, n);
  }

  // ---- the loops of one tile ----

  /** The same blocks lie before both points of the loops. */
  ghost predicate SamePoint(g: Shape, p: Place, m: nat, k: nat, n: nat, m': nat, k': nat, n': nat)
    requires g.Sized()
  {
    forall x: nat, y: nat, z: nat ::
      InTile(g, p, x, y, z) ==> (Before(x, y, z, m, k, n) <==> Before(x, y, z, m', k', n'))
  }

  lemma SamePointDone(g: Shape, p: Place, s: seq<Instr>, m: nat, k: nat, n: nat, m': nat, k': nat, n': nat)
    requires g.Sized() && Done(g, p, s, m, k, n) && SamePoint(g, p, m, k, n, m', k', n')
    ensures Done(g, p, s, m', k', n')
  {
    LastOffset(g, p.k0, g.innerK);
    LastOffset(g, p.m0, g.innerM);
    LastOffset(g, p.n0, g.innerN);
    hide Count, ActLoad, WgtLoad, On;
    assert GemmsDone(g, p, s, m', k', n');
    assert OutsDone(g, p, s, m', k', n') by {
      forall x: nat, z: nat
        ensures Count(s, OutAt(x, z)) ==
          if p.store && InTile(g, p, x, LastK(g, p), z) && Before(x, LastK(g, p), z, m', k', n') then 1 else 0
      {
        var last: nat := LastK(g, p);
        assert InTile(g, p, x, last, z) ==> (Before(x, last, z, m, k, n) <==> Before(x, last, z, m', k', n'));
      }
    }
    assert LoadsDone(g, p, s, m', k', n') by { SamePointLoads(g, p, s, m, k, n, m', k', n'); }
    assert Loads(g, p, s, m', k', n') by {
      forall x: nat, y: nat | On(g, x, p.m0, g.innerM) && On(g, y, p.k0, g.innerK) && Before(x, y, p.n0, m', k', n')
        ensures ActLoad(g, p, x, y) in s
      {
        assert InTile(g, p, x, y, p.n0);
      }
      forall y: nat, z: nat | On(g, y, p.k0, g.innerK) && On(g, z, p.n0, g.innerN) && Before(p.m0, y, z, m', k', n')
        ensures WgtLoad(g, p, y, z) in s
      {
        assert InTile(g, p, p.m0, y, z);
      }
    }
  }

  lemma SamePointLoads(g: Shape, p: Place, s: seq<Instr>, m: nat, k: nat, n: nat, m': nat, k': nat, n': nat)
    requires g.Sized() && LoadsDone(g, p, s, m, k, n) && SamePoint(g, p, m, k, n, m', k', n')
    ensures LoadsDone(g, p, s, m', k', n')
  {
    AxesStart(g, p);
    hide Count, On;
    forall x: nat, y: nat
      ensures Count(s, LoadAt(Act, x, y)) ==
        if On(g, x, p.m0, g.innerM) && On(g, y, p.k0, g.innerK) && Before(x, y, p.n0, m', k', n') then 1 else 0
    {
      assert InTile(g, p, x, y, p.n0) ==> (Before(x, y, p.n0, m, k, n) <==> Before(x, y, p.n0, m', k', n'));
    }
    forall y: nat, z: nat
      ensures Count(s, LoadAt(Wgt, y, z)) ==
        if On(g, y, p.k0, g.innerK) && On(g, z, p.n0, g.innerN) && Before(p.m0, y, z, m', k', n') then 1 else 0
    {
      assert InTile(g, p, p.m0, y, z) ==> (Before(p.m0, y, z, m, k, n) <==> Before(p.m0, y, z, m', k', n'));
    }
  }

  lemma EndOfM(g: Shape, p: Place, m: nat, k: nat, n: nat)
    requires g.Sized() && On(g, k, p.k0, g.innerK)
    requires m >= p.m0 + g.innerM
    ensures SamePoint(g, p, m, k, n, p.m0, k + g.width, n)
  {
    forall y: nat ensures On(g, y, p.k0, g.innerK) ==>
      (y < k + g.width <==> y <= k) { NextOffset(g, y, k, p.k0, g.innerK); }
  }

  lemma EndOfK(g: Shape, p: Place, k: nat, n: nat)
    requires g.Sized() && On(g, n, p.n0, g.innerN)
    requires k >= p.k0 + g.innerK
    ensures SamePoint(g, p, p.m0, k, n, p.m0, p.k0, n + g.width)
  {
    forall z: nat ensures On(g, z, p.n0, g.innerN) ==>
      (z < n + g.width <==> z <= n) { NextOffset(g, z, n, p.n0, g.innerN); }
  }

  lemma EndOfN(g: Shape, p: Place, n: nat)
    requires g.Sized() && n >= p.n0 + g.innerN
    ensures SamePoint(g, p, p.m0, p.k0, n, p.m0, p.k0, p.n0 + g.innerN)
  {
  }

  lemma NothingDone(g: Shape, p: Place, s: seq<Instr>)
    requires g.Sized() && BiasesLoaded(g, p, s) && forall i :: 0 <= i < |s| ==> s[i].MovIn? && s[i].operand.Bias?
    ensures Done(g, p, s, p.m0, p.k0, p.n0)
  {
    forall x: nat, y: nat, z: nat ensures Count(s, GemmAt(x, y, z)) == 0 { CountNone(s, GemmAt(x, y, z)); }
    forall x: nat, z: nat ensures Count(s, OutAt(x, z)) == 0 { CountNone(s, OutAt(x, z)); }
    forall o: Operand, x: nat, y: nat | !o.Bias? ensures Count(s, LoadAt(o, x, y)) == 0 {
      CountNone(s, LoadAt(o, x, y));
    }
    hide Count, On;
  }

  lemma BlocksOfInsideTile(g: Shape, p: Place, m: nat, k: nat, n: nat)
    requires g.Sized() && InTile(g, p, m, k, n)
    ensures TileInside(g, p) ==> BlockInside(g, p, m, k, n) && Touches(g, n, g.dimN)
  {
    TouchedIsInside(g);
    LastOffset(g, p.m0, g.innerM);
    LastOffset(g, p.k0, g.innerK);
    LastOffset(g, p.n0, g.innerN);
    hide On;
  }

  lemma TouchedIsInside(g: Shape)
    requires g.Sized()
    ensures g.LastTouched() < g.width
  {
    assert g.width - 1 == (g.width - 1) / g.chunk * g.chunk + (g.width - 1) % g.chunk;
  }

  lemma AllCheckedIsInside(g: Shape, p: Place)
    requires g.Sized() && Checked(g, p, p.m0, p.k0, p.n0 + g.innerN)
    ensures TileInside(g, p)
  {
    LastOffset(g, p.m0, g.innerM);
    LastOffset(g, p.k0, g.innerK);
    LastOffset(g, p.n0, g.innerN);
    var m, k, n := p.m0 + g.Rounded(g.innerM) - g.width, LastK(g, p), p.n0 + g.Rounded(g.innerN) - g.width;
    assert BlockInside(g, p, m, p.k0, p.n0);
    assert BlockInside(g, p, p.m0, k, p.n0);
    assert BlockInside(g, p, p.m0, k, n);
  }

  lemma AnyBlock(g: Shape, p: Place, n: nat)
    requires g.Sized() && On(g, n, p.n0, g.innerN)
    ensures TileInside(g, p) ==> Touches(g, n, g.dimN)
  {
    AxesStart(g, p);
    BlocksOfInsideTile(g, p, p.m0, p.k0, n);
  }

  /** The biases of the column blocks before `to` are loaded, and nothing else. */
  ghost predicate BiasesUpTo(g: Shape, p: Place, s: seq<Instr>, to: nat)
    requires g.Sized()
  {
    && (forall z: nat :: Count(s, LoadAt(Bias, 0, z)) == if On(g, z, p.n0, g.innerN) && z < to then 1 else 0)
    && (forall i :: 0 <= i < |s| ==> s[i].MovIn? && s[i].operand.Bias? && s[i].row == 0 && s[i].col >= p.n0
                                     && s[i].sram == ACCUM_BASE + (s[i].col - p.n0) * g.precision)
  }

  lemma NoBiases(g: Shape, p: Place)
    requires g.Sized()
    ensures BiasesUpTo(g, p, [], p.n0)
  {
  }

  lemma OneBias(g: Shape, p: Place, s: seq<Instr>, n: nat)
    requires g.Sized() && On(g, n, p.n0, g.innerN) && BiasesUpTo(g, p, s, n)
    ensures BiasesUpTo(g, p, s + [MovIn(Bias, 0, n, ACCUM_BASE + (n - p.n0) * g.precision)], n + g.width)
  {
    var x := MovIn(Bias, 0, n, ACCUM_BASE + (n - p.n0) * g.precision);
    forall z: nat
      ensures Count(s + [x], LoadAt(Bias, 0, z)) == if On(g, z, p.n0, g.innerN) && z < n + g.width then 1 else 0
    {
      CountAdd(s, x, LoadAt(Bias, 0, z));
      NextOffset(g, z, n, p.n0, g.innerN);
    }
  }

  lemma AllBiases(g: Shape, p: Place, s: seq<Instr>, to: nat)
    requires g.Sized() && g.bias && p.first && to >= p.n0 + g.innerN && BiasesUpTo(g, p, s, to)
    ensures BiasesLoaded(g, p, s) && forall i :: 0 <= i < |s| ==> s[i].MovIn? && s[i].operand.Bias?
  {
  }

  method BiasLoads(g: Shape, p: Place) returns (r: Option<seq<Instr>>)
    requires g.Sized()
    ensures r.None? ==> !TileInside(g, p)
    ensures r.Some? ==> BiasesLoaded(g, p, r.value)
    ensures r.Some? ==> forall i :: 0 <= i < |r.value| ==> r.value[i].MovIn? && r.value[i].operand.Bias?
  {
    hide On, TileInside, Touches;
    var s: seq<Instr> := [];
    if g.bias && p.first {
      var n := 0;
      AxesStart(g, p);
      NoBiases(g, p);
      while n < g.innerN
        invariant n < g.innerN ==> On(g, p.n0 + n, p.n0, g.innerN)
        invariant BiasesUpTo(g, p, s, p.n0 + n)
        decreases g.innerN - n
      {
        NextOffset(g, p.n0, p.n0 + n, p.n0, g.innerN);
        AnyBlock(g, p, p.n0 + n);
        if !Touches(g, p.n0 + n, g.dimN) { return None; }
        OneBias(g, p, s, p.n0 + n);
        s := s + [MovIn(Bias, 0, p.n0 + n, ACCUM_BASE + n * g.precision)];
        n := n + g.width;
      }
      AllBiases(g, p, s, p.n0 + n);
    } else {
      assert forall z: nat :: Count(s, LoadAt(Bias, 0, z)) == 0;
    }
    r := Some(s);
  }

  /** The instructions of one tile: refused exactly when the tile sticks out of the tensors; otherwise one product for
      each of its blocks and, in a storing tile, one store for each output block, every product after the loads of its
      operands and every store after the block's last product; each weight block preloaded by its first product, and
      the biases loaded once by the first tile of an accumulation. */
  method InitializeInstructions(g: Shape, p: Place) returns (r: Option<seq<Instr>>)
    requires g.Sized()
    ensures r.Some? <==> TileInside(g, p)
    ensures r.Some? ==> Done(g, p, r.value, p.m0, p.k0, p.n0 + g.innerN)
  {
    hide Done, Block, BlockInside, InTile, On, SamePoint, Checked;
    var bias := BiasLoads(g, p);
    if bias.None? { return None; }
    var s, n := bias.value, p.n0;
    NothingDone(g, p, s);
    AxesStart(g, p);
    while n < p.n0 + g.innerN
      invariant n >= p.n0 && (n < p.n0 + g.innerN ==> On(g, n, p.n0, g.innerN))
      invariant Done(g, p, s, p.m0, p.k0, n)
      decreases p.n0 + g.innerN - n
    {
      var k := p.k0;
      while k < p.k0 + g.innerK
        invariant k >= p.k0 && (k < p.k0 + g.innerK ==> On(g, k, p.k0, g.innerK))
        invariant Done(g, p, s, p.m0, k, n)
        decreases p.k0 + g.innerK - k
      {
        var m := p.m0;
        while m < p.m0 + g.innerM
          invariant m >= p.m0 && (m < p.m0 + g.innerM ==> On(g, m, p.m0, g.innerM))
          invariant Done(g, p, s, m, k, n)
          decreases p.m0 + g.innerM - m
        {
          InTileIs(g, p, m, k, n);
          BlocksOfInsideTile(g, p, m, k, n);
          if !BlockInside(g, p, m, k, n) { return None; }
          BlockDone(g, p, s, m, k, n);
          s := s + Block(g, p, m, k, n);
          NextOffset(g, m, m, p.m0, g.innerM);
          m := m + g.width;
        }
        EndOfM(g, p, m, k, n);
        SamePointDone(g, p, s, m, k, n, p.m0, k + g.width, n);
        NextOffset(g, k, k, p.k0, g.innerK);
        k := k + g.width;
      }
      EndOfK(g, p, k, n);
      SamePointDone(g, p, s, p.m0, k, n, p.m0, p.k0, n + g.width);
      NextOffset(g, n, n, p.n0, g.innerN);
      n := n + g.width;
    }
    EndOfN(g, p, n);
    SamePointDone(g, p, s, p.m0, p.k0, n, p.m0, p.k0, p.n0 + g.innerN);
    DoneIsChecked(g, p, s, p.m0, p.k0, p.n0 + g.innerN);
    AllCheckedIsInside(g, p);
    r := Some(s);
  }

  lemma AxesStart(g: Shape, p: Place)
    requires g.Sized()
    ensures On(g, p.m0, p.m0, g.innerM) && On(g, p.k0, p.k0, g.innerK) && On(g, p.n0, p.n0, g.innerN)
  {
    LastOffset(g, p.m0, g.innerM);
    LastOffset(g, p.k0, g.innerK);
    LastOffset(g, p.n0, g.innerN);
  }

  lemma InTileIs(g: Shape, p: Place, m: nat, k: nat, n: nat)
    requires g.Sized() && On(g, m, p.m0, g.innerM) && On(g, k, p.k0, g.innerK) && On(g, n, p.n0, g.innerN)
    ensures InTile(g, p, m, k, n) && m >= p.m0 && k >= p.k0 && n >= p.n0
  {
  }

  lemma DoneIsChecked(g: Shape, p: Place, s: seq<Instr>, m: nat, k: nat, n: nat)
    requires g.Sized() && Done(g, p, s, m, k, n)
    ensures Checked(g, p, m, k, n)
  {
  }
}
