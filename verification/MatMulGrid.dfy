/** The whole multiplication: its tiles in program order, batch by batch, rows by columns, the inner dimension last,
    visit every block of the product's grid exactly once and store every output block exactly once, after all its
    contributions. */
module MatMulGrid {
  import opened Counting
  import opened MatMul

  function PlaceOf(g: Shape, M: nat, K: nat, N: nat): Place {
    Place(M * g.innerM, K * g.innerK, N * g.innerN, K == 0, K + 1 == g.outerK)
  }

  /** Over all tiles of a batch. */
  ghost function Total(tiles: seq<Tile>, b: nat, q: Instr -> bool): nat {
    if tiles == [] then 0
    else
      var t := tiles[|tiles| - 1];
      Total(tiles[..|tiles| - 1], b, q) + if t.batch == b then Count(t.instrs, q) else 0
  }

  /** Tile order: batch, then M, then N, then K. */
  predicate TileBefore(b: int, M: int, K: int, N: int, b': int, M': int, K': int, N': int) {
    b < b' || (b == b' && (M < M' || (M == M' && (N < N' || (N == N' && K < K')))))
  }

  /** The offsets of a block of the grid. */
  predicate OnGrid(g: Shape, m: nat, k: nat, n: nat)
    requires g.width > 0
  {
    && m % g.width == 0 && k % g.width == 0 && n % g.width == 0
    && m < g.outerM * g.innerM && k < g.outerK * g.innerK && n < g.outerN * g.innerN
  }

  // ---- from offsets to tiles ----

  /** An offset lies on the axis of exactly the tile it divides into. */
  lemma AxisOfTile(g: Shape, x: nat, T: nat, inner: nat)
    requires g.width > 0 && inner > 0 && inner % g.width == 0
    ensures On(g, x, T * inner, inner) <==> x % g.width == 0 && x / inner == T
  {
    var q := x / inner;
    assert x == q * inner + x % inner;
    assert T * inner <= x < T * inner + inner <==> q == T by { Quotient(x, inner, T); }
    var c := inner / g.width;
    assert inner == c * g.width && T * (c * g.width) == (T * c) * g.width;
    assert T * inner == (T * c) * g.width;
    MultipleHasNoRemainder(T * c, g.width);
    if x % g.width == 0 { SumOfMultiples(x, T * inner, g.width); }
    if (x - T * inner) % g.width == 0 {
      SumOfMultiples(x - T * inner, T * inner, g.width);
      assert x - T * inner + T * inner == x;
    }
  }

  lemma Quotient(x: nat, d: nat, q: nat)
    requires d > 0
    ensures q * d <= x < q * d + d <==> x / d == q
  {
    var p := x / d;
    assert x == p * d + x % d;
    var e := p - q;
    assert e * d == p * d - q * d;
    Multiple(e, d);
  }

  lemma BelowAll(x: nat, inner: nat, outer: nat)
    requires inner > 0
    ensures x / inner < outer <==> x < outer * inner
  {
    var q := x / inner;
    assert x == q * inner + x % inner;
    var e := outer - q;
    assert e * inner == outer * inner - q * inner;
    Multiple(e, inner);
  }

  lemma TileOfBlock(g: Shape, M: nat, K: nat, N: nat, m: nat, k: nat, n: nat)
    requires g.Aligned()
    ensures InTile(g, PlaceOf(g, M, K, N), m, k, n) <==>
      m % g.width == 0 && k % g.width == 0 && n % g.width == 0 && m / g.innerM == M && k / g.innerK == K
        && n / g.innerN == N
  {
    AxisOfTile(g, m, M, g.innerM);
    AxisOfTile(g, k, K, g.innerK);
    AxisOfTile(g, n, N, g.innerN);
  }

  // ---- what a prefix of the tiles has done ----

  ghost predicate GemmsSoFar(g: Shape, tiles: seq<Tile>, B: nat, M: nat, K: nat, N: nat)
    requires g.Aligned()
  {
    forall b: nat, m: nat, k: nat, n: nat | b < g.batches && OnGrid(g, m, k, n) ::
      Total(tiles, b, GemmAt(m, k, n)) ==
        if TileBefore(b, m / g.innerM, k / g.innerK, n / g.innerN, B, M, K, N) then 1 else 0
  }

  ghost predicate OutsSoFar(g: Shape, tiles: seq<Tile>, B: nat, M: nat, K: nat, N: nat)
    requires g.Aligned()
  {
    forall b: nat, m: nat, n: nat | b < g.batches && OnGrid(g, m, 0, n) ::
      Total(tiles, b, OutAt(m, n)) ==
        if TileBefore(b, m / g.innerM, g.outerK - 1, n / g.innerN, B, M, K, N) then 1 else 0
  }

  /** Tiles come in strictly increasing order; each begins an accumulation exactly at K 0 and otherwise directly follows
      the tile before it of the same outputs; and each is as its place demands. */
  ghost predicate InOrder(g: Shape, tiles: seq<Tile>)
    requires g.Aligned()
  {
    && (forall i :: 0 <= i < |tiles| ==> WellMade(g, tiles[i]))
    && (forall i, j :: 0 <= i < j < |tiles| ==>
          TileBefore(tiles[i].batch, tiles[i].M, tiles[i].K, tiles[i].N, tiles[j].batch, tiles[j].M, tiles[j].K,
                     tiles[j].N))
    && (forall i :: 0 <= i < |tiles| && tiles[i].accum ==> i > 0 && Continues(tiles[i - 1], tiles[i]))
  }

  ghost predicate Continues(s: Tile, t: Tile) {
    s.batch == t.batch && s.M == t.M && s.N == t.N && s.K + 1 == t.K
  }

  ghost predicate WellMade(g: Shape, t: Tile)
    requires g.Aligned()
  {
    var p := PlaceOf(g, t.M, t.K, t.N);
    && t.batch < g.batches && t.M < g.outerM && t.K < g.outerK && t.N < g.outerN
    && (t.accum <==> t.K != 0)
    && TileInside(g, p)
    && Done(g, p, t.instrs, p.m0, p.k0, p.n0 + g.innerN)
  }

  lemma DoneCounts(g: Shape, p: Place, s: seq<Instr>, m: nat, k: nat, n: nat)
    requires g.Aligned() && Done(g, p, s, p.m0, p.k0, p.n0 + g.innerN)
    ensures Count(s, GemmAt(m, k, n)) == if InTile(g, p, m, k, n) then 1 else 0
    ensures Count(s, OutAt(m, n)) == if p.store && InTile(g, p, m, LastK(g, p), n) then 1 else 0
  {
  }

  lemma TotalStep(tiles: seq<Tile>, t: Tile, b: nat, q: Instr -> bool)
    ensures Total(tiles + [t], b, q) == Total(tiles, b, q) + if t.batch == b then Count(t.instrs, q) else 0
  {
    assert (tiles + [t])[..|tiles|] == tiles;
  }

  lemma TileGemms(g: Shape, tiles: seq<Tile>, t: Tile)
    requires g.Aligned() && WellMade(g, t) && GemmsSoFar(g, tiles, t.batch, t.M, t.K, t.N)
    ensures GemmsSoFar(g, tiles + [t], t.batch, t.M, t.K + 1, t.N)
  {
    hide Count, Total, Done, OnGrid, InTile;
    forall b: nat, m: nat, k: nat, n: nat | b < g.batches && OnGrid(g, m, k, n)
      ensures Total(tiles + [t], b, GemmAt(m, k, n)) ==
        if TileBefore(b, m / g.innerM, k / g.innerK, n / g.innerN, t.batch, t.M, t.K + 1, t.N) then 1 else 0
    {
      var p := PlaceOf(g, t.M, t.K, t.N);
      TotalStep(tiles, t, b, GemmAt(m, k, n));
      DoneCounts(g, p, t.instrs, m, k, n);
      TileOfBlock(g, t.M, t.K, t.N, m, k, n);
      OnGridIs(g, m, k, n);
    }
  }

  lemma OnGridIs(g: Shape, m: nat, k: nat, n: nat)
    requires g.Aligned()
    ensures OnGrid(g, m, k, n) <==>
      m % g.width == 0 && k % g.width == 0 && n % g.width == 0
      && m / g.innerM < g.outerM && k / g.innerK < g.outerK && n / g.innerN < g.outerN
  {
    BelowAll(m, g.innerM, g.outerM);
    BelowAll(k, g.innerK, g.outerK);
    BelowAll(n, g.innerN, g.outerN);
  }

  /** The last k offset of a tile divides into that tile. */
  lemma LastKOfTile(g: Shape, M: nat, K: nat, N: nat, m: nat, n: nat)
    requires g.Aligned()
    ensures var p := PlaceOf(g, M, K, N); InTile(g, p, m, LastK(g, p), n) <==>
      m % g.width == 0 && n % g.width == 0 && m / g.innerM == M && n / g.innerN == N
  {
    var p := PlaceOf(g, M, K, N);
    LastOffset(g, p.k0, g.innerK);
    AxisOfTile(g, m, M, g.innerM);
    AxisOfTile(g, n, N, g.innerN);
  }

  lemma TileOuts(g: Shape, tiles: seq<Tile>, t: Tile)
    requires g.Aligned() && WellMade(g, t) && OutsSoFar(g, tiles, t.batch, t.M, t.K, t.N)
    ensures OutsSoFar(g, tiles + [t], t.batch, t.M, t.K + 1, t.N)
  {
    hide Count, Total, Done, OnGrid, InTile, LastK;
    forall b: nat, m: nat, n: nat | b < g.batches && OnGrid(g, m, 0, n)
      ensures Total(tiles + [t], b, OutAt(m, n)) ==
        if TileBefore(b, m / g.innerM, g.outerK - 1, n / g.innerN, t.batch, t.M, t.K + 1, t.N) then 1 else 0
    {
      var p := PlaceOf(g, t.M, t.K, t.N);
      TotalStep(tiles, t, b, OutAt(m, n));
      DoneCounts(g, p, t.instrs, m, 0, n);
      LastKOfTile(g, t.M, t.K, t.N, m, n);
      OnGridIs(g, m, 0, n);
    }
  }

  ghost predicate SoFar(g: Shape, tiles: seq<Tile>, B: nat, M: nat, K: nat, N: nat)
    requires g.Aligned()
  {
    && GemmsSoFar(g, tiles, B, M, K, N) && OutsSoFar(g, tiles, B, M, K, N) && InOrder(g, tiles)
    && (forall i :: 0 <= i < |tiles| ==> TileBefore(tiles[i].batch, tiles[i].M, tiles[i].K, tiles[i].N, B, M, K, N))
    && (K > 0 ==> tiles != [] && (var last := tiles[|tiles| - 1];
                                  last.batch == B && last.M == M && last.N == N && last.K + 1 == K))
  }

  lemma TileSoFar(g: Shape, tiles: seq<Tile>, t: Tile)
    requires g.Aligned() && WellMade(g, t) && SoFar(g, tiles, t.batch, t.M, t.K, t.N)
    ensures SoFar(g, tiles + [t], t.batch, t.M, t.K + 1, t.N)
  {
    TileGemms(g, tiles, t);
    TileOuts(g, tiles, t);
    hide GemmsSoFar, OutsSoFar, WellMade;
    var s := tiles + [t];
    forall i, j | 0 <= i < j < |s|
      ensures TileBefore(s[i].batch, s[i].M, s[i].K, s[i].N, s[j].batch, s[j].M, s[j].K, s[j].N)
    {
    }
    forall i | 0 <= i < |s| && s[i].accum ensures i > 0 && Continues(s[i - 1], s[i]) {
      if i == |tiles| { AccumMeansLater(g, t); }
    }
  }

  lemma AccumMeansLater(g: Shape, t: Tile)
    requires g.Aligned() && WellMade(g, t)
    ensures t.accum <==> t.K != 0
  {
  }

  /** Both points of the loops have the same tiles before them. */
  ghost predicate SameTiles(g: Shape, B: nat, M: nat, K: nat, N: nat, B': nat, M': nat, K': nat, N': nat) {
    forall b, a, c, d :: 0 <= b < g.batches && 0 <= a < g.outerM && 0 <= c < g.outerK && 0 <= d < g.outerN ==>
      (TileBefore(b, a, c, d, B, M, K, N) <==> TileBefore(b, a, c, d, B', M', K', N'))
  }

  lemma SamePointGemms(g: Shape, tiles: seq<Tile>, B: nat, M: nat, K: nat, N: nat, B': nat, M': nat, N': nat)
    requires g.Aligned() && GemmsSoFar(g, tiles, B, M, K, N) && SameTiles(g, B, M, K, N, B', M', 0, N')
    ensures GemmsSoFar(g, tiles, B', M', 0, N')
  {
    hide Total, OnGrid, Count, TileBefore, GemmAt;
    forall b: nat, m: nat, k: nat, n: nat | b < g.batches && OnGrid(g, m, k, n)
      ensures Total(tiles, b, GemmAt(m, k, n)) ==
        if TileBefore(b, m / g.innerM, k / g.innerK, n / g.innerN, B', M', 0, N') then 1 else 0
    {
      OnGridIs(g, m, k, n);
    }
  }

  lemma SamePointOuts(g: Shape, tiles: seq<Tile>, B: nat, M: nat, K: nat, N: nat, B': nat, M': nat, N': nat)
    requires g.Aligned() && OutsSoFar(g, tiles, B, M, K, N) && SameTiles(g, B, M, K, N, B', M', 0, N')
    ensures OutsSoFar(g, tiles, B', M', 0, N')
  {
    hide Total, OnGrid, Count, TileBefore;
    forall b: nat, m: nat, n: nat | b < g.batches && OnGrid(g, m, 0, n)
      ensures Total(tiles, b, OutAt(m, n)) ==
        if TileBefore(b, m / g.innerM, g.outerK - 1, n / g.innerN, B', M', 0, N') then 1 else 0
    {
      OnGridIs(g, m, 0, n);
    }
  }

  lemma SamePointSoFar(g: Shape, tiles: seq<Tile>, B: nat, M: nat, K: nat, N: nat, B': nat, M': nat, N': nat)
    requires g.Aligned() && SoFar(g, tiles, B, M, K, N) && SameTiles(g, B, M, K, N, B', M', 0, N')
    ensures SoFar(g, tiles, B', M', 0, N')
  {
    SamePointGemms(g, tiles, B, M, K, N, B', M', N');
    SamePointOuts(g, tiles, B, M, K, N, B', M', N');
    hide GemmsSoFar, OutsSoFar, TileBefore, Done;
    forall i | 0 <= i < |tiles| ensures TileBefore(tiles[i].batch, tiles[i].M, tiles[i].K, tiles[i].N, B', M', 0, N') {
      assert WellMade(g, tiles[i]);
    }
  }

  lemma NoTiles(g: Shape)
    requires g.Aligned()
    ensures SoFar(g, [], 0, 0, 0, 0)
  {
  }

  // ---- the whole program ----

  /** Every block of the grid is multiplied once per batch, every output block stored once per batch. */
  ghost predicate Covers(g: Shape, tiles: seq<Tile>)
    requires g.Aligned()
  {
    && (forall b: nat, m: nat, k: nat, n: nat | b < g.batches && OnGrid(g, m, k, n) ::
        Total(tiles, b, GemmAt(m, k, n)) == 1)
    && (forall b: nat, m: nat, n: nat | b < g.batches && OnGrid(g, m, 0, n) :: Total(tiles, b, OutAt(m, n)) == 1)
  }

  /** No product into an output block comes after its store: not in the same tile, not in a later one. */
  ghost predicate StoresAfterContributions(tiles: seq<Tile>) {
    && (forall i, x, y ::
        0 <= i < |tiles| && 0 <= x < y < |tiles[i].instrs| ==> Independent(tiles[i].instrs[x], tiles[i].instrs[y]))
    && (forall i, j, x, y ::
        0 <= i < j < |tiles| && tiles[i].batch == tiles[j].batch && 0 <= x < |tiles[i].instrs|
          && 0 <= y < |tiles[j].instrs| ==>
          Independent(tiles[i].instrs[x], tiles[j].instrs[y]))
  }

  predicate Independent(store: Instr, product: Instr) {
    store.MovOut? && product.Gemm? ==> store.m != product.m || store.n != product.n
  }

  /** The last tile of the grid lies inside the tensors. */
  predicate GridInside(g: Shape)
    requires g.Sized()
  {
    && (g.outerM - 1) * g.innerM + g.Rounded(g.innerM) <= g.dimM
    && (g.outerK - 1) * g.innerK + g.Rounded(g.innerK) <= g.dimK
    && (g.outerN - 1) * g.innerN + g.Rounded(g.innerN) <= g.dimN
  }

  lemma StoreIsLast(g: Shape, tiles: seq<Tile>, i: nat, j: nat, x: nat, y: nat)
    requires g.Aligned() && InOrder(g, tiles) && i < j < |tiles| && tiles[i].batch == tiles[j].batch
    requires x < |tiles[i].instrs| && y < |tiles[j].instrs|
    ensures Independent(tiles[i].instrs[x], tiles[j].instrs[y])
  {
    hide Done, Count, InTile, LastK, TileInside;
    var s, t := tiles[i], tiles[j];
    var store, product := s.instrs[x], t.instrs[y];
    if store.MovOut? && product.Gemm? {
      assert WellMade(g, s) && WellMade(g, t);
      var p, q := PlaceOf(g, s.M, s.K, s.N), PlaceOf(g, t.M, t.K, t.N);
      DoneCounts(g, p, s.instrs, store.m, 0, store.n);
      CountMember(s.instrs, x, OutAt(store.m, store.n));
      LastKOfTile(g, s.M, s.K, s.N, store.m, store.n);
      DoneCounts(g, q, t.instrs, product.m, product.k, product.n);
      CountMember(t.instrs, y, GemmAt(product.m, product.k, product.n));
      TileOfBlock(g, t.M, t.K, t.N, product.m, product.k, product.n);
    }
  }

  lemma OrderedStores(g: Shape, tiles: seq<Tile>)
    requires g.Aligned() && InOrder(g, tiles)
    ensures StoresAfterContributions(tiles)
  {
    forall i, x, y | 0 <= i < |tiles| && 0 <= x < y < |tiles[i].instrs|
      ensures Independent(tiles[i].instrs[x], tiles[i].instrs[y])
    {
      assert WellMade(g, tiles[i]);
      DoneIsOrdered(g, PlaceOf(g, tiles[i].M, tiles[i].K, tiles[i].N), tiles[i].instrs);
    }
    forall i, j, x, y | 0 <= i < j < |tiles| && tiles[i].batch == tiles[j].batch && 0 <= x < |tiles[i].instrs|
      && 0 <= y < |tiles[j].instrs|
      ensures Independent(tiles[i].instrs[x], tiles[j].instrs[y])
    {
      StoreIsLast(g, tiles, i, j, x, y);
    }
  }

  lemma DoneIsOrdered(g: Shape, p: Place, s: seq<Instr>)
    requires g.Aligned() && Done(g, p, s, p.m0, p.k0, p.n0 + g.innerN)
    ensures StoredLast(g, p, s) && LoadedBefore(g, p, s)
  {
  }

  lemma AllCovered(g: Shape, tiles: seq<Tile>)
    requires g.Aligned() && SoFar(g, tiles, g.batches, 0, 0, 0)
    ensures Covers(g, tiles)
  {
    hide Total, OnGrid;
  }

  lemma GrowsTo(a: nat, b: nat, c: nat)
    requires a < b
    ensures a * c <= (b - 1) * c
  {
  }

  lemma TileOfInsideGrid(g: Shape, M: nat, K: nat, N: nat)
    requires g.Sized() && M < g.outerM && K < g.outerK && N < g.outerN
    ensures GridInside(g) ==> TileInside(g, PlaceOf(g, M, K, N))
    ensures M + 1 == g.outerM && K + 1 == g.outerK && N + 1 == g.outerN && TileInside(g, PlaceOf(g, M, K, N)) ==>
      GridInside(g)
  {
    TouchedIsInside(g);
    GrowsTo(M, g.outerM, g.innerM);
    GrowsTo(K, g.outerK, g.innerK);
    GrowsTo(N, g.outerN, g.innerN);
  }

  /** The tile made last before a point of the loops lies inside the tensors. */
  ghost predicate LastInside(g: Shape, M: int, K: int, N: int)
    requires g.Sized()
  {
    0 <= M < g.outerM && 0 <= K < g.outerK && 0 <= N < g.outerN ==> TileInside(g, PlaceOf(g, M, K, N))
  }

  /** The tiles of the multiplication: refused exactly when the grid sticks out of the tensors; otherwise, with inner
      sizes that are multiples of the core width, every block is multiplied exactly once and every output block stored
      exactly once, after all its contributions; the tiles of one output follow each other directly and only the first
      begins an accumulation. */
  method InitializeTiles(g: Shape) returns (r: Option<seq<Tile>>)
    requires g.Sized()
    ensures r.Some? <==> g.batches == 0 || GridInside(g)
    ensures r.Some? && g.Aligned() ==> Covers(g, r.value) && StoresAfterContributions(r.value) && InOrder(g, r.value)
  {
    hide SoFar, InOrder, Covers, StoresAfterContributions, TileInside, WellMade, GridInside, Done, PlaceOf;
    var tiles: seq<Tile> := [];
    if g.Aligned() { NoTiles(g); }
    for B := 0 to g.batches
      invariant g.Aligned() ==> SoFar(g, tiles, B, 0, 0, 0)
      invariant B > 0 ==> GridInside(g)
    {
      for M := 0 to g.outerM
        invariant g.Aligned() ==> SoFar(g, tiles, B, M, 0, 0)
        invariant LastInside(g, M - 1, g.outerK - 1, g.outerN - 1)
      {
        for N := 0 to g.outerN
          invariant g.Aligned() ==> SoFar(g, tiles, B, M, 0, N)
          invariant LastInside(g, M, g.outerK - 1, N - 1)
        {
          for K := 0 to g.outerK
            invariant g.Aligned() ==> SoFar(g, tiles, B, M, K, N)
            invariant LastInside(g, M, K - 1, N)
          {
            TileOfInsideGrid(g, M, K, N);
            var instrs := InitializeInstructions(g, PlaceOf(g, M, K, N));
            if instrs.None? { return None; }
            var tile := Tile(B, M, K, N, K != 0, instrs.value);
            if g.Aligned() {
              Made(g, tile);
              TileSoFar(g, tiles, tile);
            }
            tiles := tiles + [tile];
          }
          if g.Aligned() { SamePointSoFar(g, tiles, B, M, g.outerK, N, B, M, N + 1); }
        }
        if g.Aligned() { SamePointSoFar(g, tiles, B, M, 0, g.outerN, B, M + 1, 0); }
      }
      if g.Aligned() { SamePointSoFar(g, tiles, B, g.outerM, 0, 0, B + 1, 0, 0); }
      TileOfInsideGrid(g, g.outerM - 1, g.outerK - 1, g.outerN - 1);
    }
    if g.Aligned() {
      SoFarIsOrdered(g, tiles);
      AllCovered(g, tiles);
      OrderedStores(g, tiles);
    }
    r := Some(tiles);
  }

  lemma SoFarIsOrdered(g: Shape, tiles: seq<Tile>)
    requires g.Aligned() && SoFar(g, tiles, g.batches, 0, 0, 0)
    ensures InOrder(g, tiles)
  {
  }

  lemma Made(g: Shape, t: Tile)
    requires g.Aligned() && t.batch < g.batches && t.M < g.outerM && t.K < g.outerK && t.N < g.outerN
    requires (t.accum <==> t.K != 0)
    requires var p := PlaceOf(g, t.M, t.K, t.N); TileInside(g, p) && Done(g, p, t.instrs, p.m0, p.k0, p.n0 + g.innerN)
    ensures WellMade(g, t)
  {
  }

  /** With a bias, the tiles that begin an accumulation load each bias block of their columns once; no other tile
      does. */
  lemma BiasesOfTile(g: Shape, t: Tile, n: nat)
    requires g.Aligned() && WellMade(g, t)
    ensures Count(t.instrs, LoadAt(Bias, 0, n)) ==
      if g.bias && !t.accum && n % g.width == 0 && n / g.innerN == t.N then 1 else 0
  {
    AxisOfTile(g, n, t.N, g.innerN);
    DoneBiases(g, PlaceOf(g, t.M, t.K, t.N), t.instrs, n);
  }

  lemma DoneBiases(g: Shape, p: Place, s: seq<Instr>, n: nat)
    requires g.Aligned() && Done(g, p, s, p.m0, p.k0, p.n0 + g.innerN)
    ensures Count(s, LoadAt(Bias, 0, n)) == if g.bias && p.first && On(g, n, p.n0, g.innerN) then 1 else 0
  {
  }

  // ---- addresses inside a tile ----

  lemma LinearApart(a: nat, b: nat, a': nat, b': nat, len: nat, precision: nat)
    requires precision > 0 && b < len && b' < len
    ensures (a * len + b) * precision == (a' * len + b') * precision <==> a == a' && b == b'
  {
    var x, y := a * len + b, a' * len + b';
    if x * precision == y * precision {
      assert (x - y) * precision == 0;
      Multiple(x - y, precision);
      assert (a - a') * len == b' - b;
      Multiple(a - a', len);
    }
  }

  lemma BelowTheEnd(a: nat, b: nat, rows: nat, len: nat, precision: nat)
    requires a < rows && b < len
    ensures (a * len + b) * precision + precision <= rows * len * precision
  {
    GrowsTo(a, rows, len);
    assert (rows - 1) * len + len == rows * len;
    assert (a * len + b + 1) * precision == (a * len + b) * precision + precision;
    Grows(a * len + b + 1, rows * len, precision);
  }

  lemma Grows(a: nat, b: nat, c: nat)
    requires a <= b
    ensures a * c <= b * c
  {
  }

  /** Inside a tile, blocks of one operand, and blocks of the output, have different addresses. */
  lemma AddressesApart(g: Shape, m: nat, k: nat, n: nat, m': nat, k': nat, n': nat)
    requires g.precision > 0 && k < g.innerK && k' < g.innerK && n < g.innerN && n' < g.innerN
    ensures g.ActAddr(m, k) == g.ActAddr(m', k') <==> m == m' && k == k'
    ensures g.WgtAddr(k, n) == g.WgtAddr(k', n') <==> k == k' && n == n'
    ensures g.OutAddr(m, n) == g.OutAddr(m', n') <==> m == m' && n == n'
  {
    LinearApart(m, k, m', k', g.innerK, g.precision);
    LinearApart(k, n, k', n', g.innerN, g.precision);
    LinearApart(m, n, m', n', g.innerN, g.precision);
  }

  /** All activations of a tile end below its weights. */
  lemma OperandsApart(g: Shape, m: nat, k: nat, k': nat, n': nat)
    requires m < g.innerM && k < g.innerK
    ensures g.ActAddr(m, k) + g.precision <= g.WgtAddr(k', n')
  {
    BelowTheEnd(m, k, g.innerM, g.innerK, g.precision);
  }
}
