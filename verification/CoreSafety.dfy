/** Flushing half a scratchpad loses nothing. */
module CoreSafety {
  // What every step of a core keeps, and safety over whole runs with work completing in any order.

  import opened Counting
  import opened Scratchpads
  import opened CoreModel

  // ---- counting ----

  lemma {:induction false} CountRequests(n: nat, r: Request, p: Request -> bool)
    ensures Count(Requests(n, r), p) == if p(r) then n else 0
  {
    if n > 0 {
      CountRequests(n - 1, r, p);
      assert Requests(n, r)[..n - 1] == Requests(n - 1, r);
    }
  }

  // ---- what is outstanding ----

  ghost function OfTile(t: nat): Job -> bool { (j: Job) => j.tile == t }
  ghost function ReadOf(t: nat): Request -> bool { (r: Request) => r.tile == t && !r.write }
  ghost function WriteOf(t: nat): Request -> bool { (r: Request) => r.tile == t && r.write }
  ghost function Into(addr: nat, h: nat): Job -> bool { (j: Job) => j.instr.dest == addr && j.acc == h }
  ghost function ReadTo(addr: nat, h: nat): Request -> bool {
    (r: Request) => !r.write && r.dest == addr && r.half == h
  }

  ghost function LoadsOf(c: Core, t: nat): int { Count(c.ld, OfTile(t)) + Count(c.flying, ReadOf(t)) }
  ghost function ComputesOf(c: Core, t: nat): int { Count(c.ex, OfTile(t)) + CountAll(c.units, OfTile(t)) }
  ghost function AccIoOf(c: Core, t: nat): int {
    ComputesOf(c, t) + Count(c.st, OfTile(t)) + Count(c.flying, WriteOf(t))
  }

  /** The fills that a half's address will still receive. */
  ghost function FillsOfSpad(c: Core, addr: nat, h: nat): nat {
    if addr < ACCUM_BASE then Count(c.flying, ReadTo(addr, h)) else 0
  }
  ghost function FillsOfAcc(c: Core, addr: nat, h: nat): nat {
    (if addr >= ACCUM_BASE then Count(c.flying, ReadTo(addr, h)) else 0) + CountAll(c.units, Into(addr, h))
  }

  // ---- the invariant ----

  ghost predicate JobFits(c: Core, j: Job) {
    && j.tile in c.running && j.tile in c.objects
    && j.spad == c.objects[j.tile].spad && j.acc == c.objects[j.tile].acc
  }

  ghost predicate RequestFits(c: Core, r: Request) {
    && r.tile in c.running && r.tile in c.objects
    && r.half < 2 && (!r.write ==>
                      r.half == if r.dest >= ACCUM_BASE then c.objects[r.tile].acc else c.objects[r.tile].spad)
  }

  /** Tile objects: every queued tile has one, none is queued twice, halves exist. */
  ghost predicate Tiles(c: Core) {
    && c.Shaped()
    && (forall t :: t in c.objects ==> t < c.next && c.objects[t].spad < 2 && c.objects[t].acc < 2)
    && (forall i :: 0 <= i < |c.running| ==> c.running[i] in c.objects)
    && (forall i :: 0 <= i < |c.finished| ==> c.finished[i] in c.objects && c.finished[i] !in c.running)
    && (forall i, j :: 0 <= i < j < |c.running| ==> c.running[i] != c.running[j])
    && (forall i, j :: 0 <= i < j < |c.finished| ==> c.finished[i] != c.finished[j])
  }

  /** Every piece of work belongs to a running tile and sits in that tile's halves. */
  ghost predicate Owned(c: Core) {
    && (forall i :: 0 <= i < |c.ld| ==> JobFits(c, c.ld[i]))
    && (forall i :: 0 <= i < |c.st| ==> JobFits(c, c.st[i]))
    && (forall i :: 0 <= i < |c.ex| ==> JobFits(c, c.ex[i]))
    && (forall u, i :: 0 <= u < |c.units| && 0 <= i < |c.units[u]| ==> JobFits(c, c.units[u][i]))
    && (forall i :: 0 <= i < |c.flying| ==> RequestFits(c, c.flying[i]))
  }

  ghost predicate Counted(c: Core, t: nat)
    requires t in c.objects
  {
    c.objects[t].loads == LoadsOf(c, t) && c.objects[t].computes == ComputesOf(c, t)
      && c.objects[t].accIo == AccIoOf(c, t)
  }

  /** The counters are exact. */
  ghost predicate Exact(c: Core)
    requires Tiles(c)
  {
    forall i :: 0 <= i < |c.running| ==> Counted(c, c.running[i])
  }

  /** Entries wait for exactly the fills on their way. */
  ghost predicate Awaited(c: Core)
    requires c.Shaped()
  {
    && c.spad.Settled() && c.acc.Settled()
    && (forall addr: nat, h: nat :: h < 2 ==> c.spad.Waiting(addr, h) == FillsOfSpad(c, addr, h))
    && (forall addr: nat, h: nat :: h < 2 ==> c.acc.Waiting(addr, h) == FillsOfAcc(c, addr, h))
  }

  /** In the current scratchpad half only tiles of the current accumulation half still load. */
  ghost predicate Alternating(c: Core)
    requires Tiles(c)
  {
    forall i :: 0 <= i < |c.running| ==>
      var t := c.objects[c.running[i]];
      t.spad == c.curSpad && t.acc != c.curAcc ==> t.loads == 0
  }

  /** Computations aim at the accumulation scratchpad. */
  predicate Aims(i: Instr) { i.kind.Gemm? || i.kind.VectorOp? ==> i.InAccum() }

  ghost predicate AllAim(c: Core) {
    && (forall i :: 0 <= i < |c.ex| ==>
        Aims(c.ex[i].instr) && (c.ex[i].instr.kind.Gemm? || c.ex[i].instr.kind.VectorOp?))
    && (forall u, i :: 0 <= u < |c.units| && 0 <= i < |c.units[u]| ==> c.units[u][i].instr.InAccum())
  }

  ghost predicate Inv(c: Core) { Tiles(c) && Owned(c) && Exact(c) && Awaited(c) && Alternating(c) && AllAim(c) }

  /** A step keeps the invariant, or stops the run with a refused allocation: nothing lost, nothing unexpected. */
  ghost predicate Safe(r: Outcome<Core>) {
    match r case Ok(c) => Inv(c) case Failed(why) => why == Full || why == Occupied
  }

  // ---- what a passed gate means ----

  /** Work of tile `t` is counted. */
  lemma WorkIsCounted(c: Core, t: nat)
    requires Tiles(c) && Exact(c) && t in c.running
    ensures Counted(c, t)
  {
    var i :| 0 <= i < |c.running| && c.running[i] == t;
  }

  /** A read on its way belongs to a tile that still loads. */
  lemma ReadMeansLoads(c: Core, i: nat)
    requires Tiles(c) && Owned(c) && Exact(c) && i < |c.flying| && !c.flying[i].write
    ensures var t := c.flying[i].tile; t in c.running && t in c.objects && c.objects[t].loads > 0
  {
    var t := c.flying[i].tile;
    assert RequestFits(c, c.flying[i]);
    WorkIsCounted(c, t);
    CountMember(c.flying, i, ReadOf(t));
  }

  lemma ComputingMeansComputes(c: Core, u: nat, i: nat)
    requires Tiles(c) && Owned(c) && Exact(c) && u < |c.units| && i < |c.units[u]|
    ensures var t := c.units[u][i].tile;
      t in c.running && t in c.objects && c.objects[t].computes > 0 && c.objects[t].accIo > 0
  {
    var t := c.units[u][i].tile;
    assert JobFits(c, c.units[u][i]);
    WorkIsCounted(c, t);
    CountMember(c.units[u], i, OfTile(t));
    CountAllUpdate(c.units, u, [], OfTile(t));
  }

  /** The scratchpad half flushed by the next issue has no fill on its way and no computation left that reads it. */
  lemma SpadHalfIsQuiet(c: Core, accum: bool, addr: nat)
    requires Inv(c) && CanIssue(c, accum)
    ensures FillsOfSpad(c, addr, 1 - c.curSpad) == 0
    ensures forall i :: 0 <= i < |c.ex| ==> c.ex[i].spad == c.curSpad
  {
    hide Awaited, AllAim, Alternating;
    var h := 1 - c.curSpad;
    if addr < ACCUM_BASE {
      forall i | 0 <= i < |c.flying| ensures !ReadTo(addr, h)(c.flying[i]) {
        if ReadTo(addr, h)(c.flying[i]) {
          assert RequestFits(c, c.flying[i]);
          ReadMeansLoads(c, i);
        }
      }
      CountNone(c.flying, ReadTo(addr, h));
    }
    forall i | 0 <= i < |c.ex| ensures c.ex[i].spad == c.curSpad {
      assert JobFits(c, c.ex[i]);
      WorkIsCounted(c, c.ex[i].tile);
      CountMember(c.ex, i, OfTile(c.ex[i].tile));
    }
  }

  /** A bias load on its way is older than two issues, the first of which waited for loads in its scratchpad half. */
  lemma AccReadsAreQuiet(c: Core, addr: nat)
    requires Inv(c) && CanIssue(c, false) && addr >= ACCUM_BASE
    ensures Count(c.flying, ReadTo(addr, 1 - c.curAcc)) == 0
  {
    hide Exact, Awaited, AllAim;
    forall i | 0 <= i < |c.flying| ensures !ReadTo(addr, 1 - c.curAcc)(c.flying[i]) {
      if ReadTo(addr, 1 - c.curAcc)(c.flying[i]) {
        assert RequestFits(c, c.flying[i]);
        ReadMeansLoads(c, i);
      }
    }
    CountNone(c.flying, ReadTo(addr, 1 - c.curAcc));
  }

  /** Computations into the half are counted in accumulation work. */
  lemma AccUnitsAreQuiet(c: Core, addr: nat)
    requires Inv(c) && CanIssue(c, false)
    ensures CountAll(c.units, Into(addr, 1 - c.curAcc)) == 0
  {
    hide Exact, Awaited, AllAim, Alternating;
    forall u, i | 0 <= u < |c.units| && 0 <= i < |c.units[u]| ensures !Into(addr, 1 - c.curAcc)(c.units[u][i]) {
      ComputingMeansComputes(c, u, i);
      assert JobFits(c, c.units[u][i]);
    }
    CountAllNone(c.units, Into(addr, 1 - c.curAcc));
  }

  /** So are stores. */
  lemma AccStoresAreCurrent(c: Core)
    requires Inv(c) && CanIssue(c, false)
    ensures forall i :: 0 <= i < |c.st| ==> c.st[i].acc == c.curAcc
  {
    hide Awaited, AllAim, Alternating;
    forall i | 0 <= i < |c.st| ensures c.st[i].acc == c.curAcc {
      assert JobFits(c, c.st[i]);
      WorkIsCounted(c, c.st[i].tile);
      CountMember(c.st, i, OfTile(c.st[i].tile));
    }
  }

  /** Nor has the accumulation half when it is flushed. */
  lemma AccHalfIsQuiet(c: Core, addr: nat)
    requires Inv(c) && CanIssue(c, false)
    ensures FillsOfAcc(c, addr, 1 - c.curAcc) == 0
    ensures forall i :: 0 <= i < |c.st| ==> c.st[i].acc == c.curAcc
  {
    hide Inv, CanIssue;
    if addr >= ACCUM_BASE { AccReadsAreQuiet(c, addr); }
    AccUnitsAreQuiet(c, addr);
    AccStoresAreCurrent(c);
  }

  // ---- steps that keep the tiles ----

  /** The same tiles in the same halves; counters may differ. */
  ghost predicate SameTiles(c: Core, d: Core) {
    && d.running == c.running && d.finished == c.finished && d.next == c.next && d.curSpad == c.curSpad
      && d.curAcc == c.curAcc
    && d.objects.Keys == c.objects.Keys
    && (forall t :: t in c.objects ==> d.objects[t].spad == c.objects[t].spad && d.objects[t].acc == c.objects[t].acc)
  }

  lemma SameTilesFit(c: Core, d: Core)
    requires SameTiles(c, d)
    ensures Tiles(c) && d.Shaped() ==> Tiles(d)
    ensures forall j :: JobFits(c, j) ==> JobFits(d, j)
    ensures forall r :: RequestFits(c, r) ==> RequestFits(d, r)
  {
  }

  /** Only the counters of tile `t` change, by as much as its outstanding work. */
  ghost predicate Balanced(c: Core, d: Core, t: nat)
    requires Tiles(c) && Tiles(d) && t in c.objects && t in d.objects
  {
    && d.objects[t].loads - c.objects[t].loads == LoadsOf(d, t) - LoadsOf(c, t)
    && d.objects[t].computes - c.objects[t].computes == ComputesOf(d, t) - ComputesOf(c, t)
    && d.objects[t].accIo - c.objects[t].accIo == AccIoOf(d, t) - AccIoOf(c, t)
  }

  lemma BalancedIsExact(c: Core, d: Core)
    requires Tiles(c) && Tiles(d) && SameTiles(c, d) && Exact(c)
    requires forall t :: t in c.running ==> Balanced(c, d, t)
    ensures Exact(d)
  {
    hide LoadsOf, ComputesOf, AccIoOf;
    forall i | 0 <= i < |d.running| ensures Counted(d, d.running[i]) {
      assert Counted(c, c.running[i]) && Balanced(c, d, d.running[i]);
    }
  }

  // ---- a load is started ----

  lemma LoadedOwned(c: Core, n: nat)
    requires Inv(c) && c.ld != [] && n > 0 && JobFits(c, c.ld[0]) && Loaded(c, n).Ok?
    ensures SameTiles(c, Loaded(c, n).value) && Tiles(Loaded(c, n).value) && Owned(Loaded(c, n).value)
  {
    hide Awaited, Exact, Alternating, AllAim;
    var d := Loaded(c, n).value;
    SameTilesFit(c, d);
  }

  lemma LoadedCounts(c: Core, n: nat, t: nat)
    requires c.Shaped() && c.ld != [] && n > 0 && c.ld[0].spad < 2 && c.ld[0].acc < 2 && Loaded(c, n).Ok?
    ensures var d := Loaded(c, n).value;
      && LoadsOf(d, t) == LoadsOf(c, t) + (if c.ld[0].tile == t then n - 1 else 0)
      && ComputesOf(d, t) == ComputesOf(c, t) && AccIoOf(d, t) == AccIoOf(c, t)
  {
    var j := c.ld[0];
    var r := Request(j.tile, false, j.instr.dest, j.Half());
    CountTail(c.ld, OfTile(t));
    CountAppends(c.flying, Requests(n, r), ReadOf(t));
    CountAppends(c.flying, Requests(n, r), WriteOf(t));
    CountRequests(n, r, ReadOf(t));
    CountRequests(n, r, WriteOf(t));
    hide Count, CountAll, Requests, Spad.Reserved;
  }

  lemma LoadedBalanced(c: Core, n: nat, t: nat)
    requires Tiles(c) && c.ld != [] && n > 0 && JobFits(c, c.ld[0]) && Loaded(c, n).Ok? && Tiles(Loaded(c, n).value)
    requires t in c.running
    ensures t in c.objects && t in Loaded(c, n).value.objects && Balanced(c, Loaded(c, n).value, t)
  {
    hide LoadsOf, ComputesOf, AccIoOf, Spad.Reserved;
    LoadedCounts(c, n, t);
  }

  lemma LoadedExact(c: Core, n: nat)
    requires Inv(c) && c.ld != [] && n > 0 && JobFits(c, c.ld[0]) && Loaded(c, n).Ok? && Tiles(Loaded(c, n).value)
    requires SameTiles(c, Loaded(c, n).value)
    ensures Exact(Loaded(c, n).value)
  {
    hide Count, CountAll, Awaited, AllAim, Alternating, Owned, Exact, Balanced;
    var d := Loaded(c, n).value;
    forall t | t in c.running ensures t in c.objects && t in d.objects && Balanced(c, d, t) { LoadedBalanced(c, n, t); }
    BalancedIsExact(c, d);
  }

  lemma LoadedAwaited(c: Core, n: nat)
    requires Inv(c) && c.ld != [] && n > 0 && JobFits(c, c.ld[0]) && Loaded(c, n).Ok? && Tiles(Loaded(c, n).value)
    ensures Awaited(Loaded(c, n).value)
  {
    var d, j := Loaded(c, n).value, c.ld[0];
    var r := Request(j.tile, false, j.instr.dest, j.Half());
    ReservedWaits(if j.instr.InAccum() then c.acc else c.spad, j.instr.dest, j.Half(), j.instr.size, n);
    hide Spad.Reserved, Spad.Settled, Spad.Waiting, Count, CountAll, Requests;
    forall addr: nat, h: nat | h < 2
      ensures d.spad.Waiting(addr, h) == FillsOfSpad(d, addr, h) && d.acc.Waiting(addr, h) == FillsOfAcc(d, addr, h)
    {
      CountAppends(c.flying, Requests(n, r), ReadTo(addr, h));
      CountRequests(n, r, ReadTo(addr, h));
      assert c.spad.Waiting(addr, h) == FillsOfSpad(c, addr, h) && c.acc.Waiting(addr, h) == FillsOfAcc(c, addr, h);
    }
  }

  lemma LoadedAlternates(c: Core, n: nat)
    requires Inv(c) && c.ld != [] && n > 0 && JobFits(c, c.ld[0]) && Loaded(c, n).Ok?
    requires SameTiles(c, Loaded(c, n).value) && Tiles(Loaded(c, n).value)
    ensures Alternating(Loaded(c, n).value) && AllAim(Loaded(c, n).value)
  {
    WorkIsCounted(c, c.ld[0].tile);
    CountMember(c.ld, 0, OfTile(c.ld[0].tile));
    hide Awaited, Owned, Exact, Count, CountAll, JobFits;
  }

  lemma LoadedKeepsInv(c: Core, n: nat)
    requires Inv(c) && c.ld != [] && n > 0
    ensures c.ld[0].spad < 2 && c.ld[0].acc < 2
    ensures Safe(Loaded(c, n))
  {
    assert JobFits(c, c.ld[0]);
    if Loaded(c, n).Ok? {
      hide Awaited, Owned, Exact, Alternating, AllAim;
      LoadedOwned(c, n);
      LoadedExact(c, n);
      LoadedAwaited(c, n);
      LoadedAlternates(c, n);
    }
  }

  // ---- a store is started ----

  lemma StoredCounts(c: Core, n: nat, t: nat)
    requires c.Shaped() && c.st != [] && n > 0 && c.st[0].spad < 2 && c.st[0].acc < 2 && Stored(c, n).Ok?
    ensures var d := Stored(c, n).value;
      && LoadsOf(d, t) == LoadsOf(c, t) && ComputesOf(d, t) == ComputesOf(c, t)
      && AccIoOf(d, t) == AccIoOf(c, t) + if d != c && c.st[0].tile == t then n - 1 else 0
  {
    var j := c.st[0];
    var r := Request(j.tile, true, j.instr.dest, j.Half());
    CountTail(c.st, OfTile(t));
    CountAppends(c.flying, Requests(n, r), ReadOf(t));
    CountAppends(c.flying, Requests(n, r), WriteOf(t));
    CountRequests(n, r, ReadOf(t));
    CountRequests(n, r, WriteOf(t));
    assert c.st[1..] != c.st;
    hide Count, CountAll, Requests, Spad.Hit;
  }

  lemma StoredBalanced(c: Core, n: nat, t: nat)
    requires Tiles(c) && c.st != [] && n > 0 && JobFits(c, c.st[0]) && Stored(c, n).Ok? && Tiles(Stored(c, n).value)
    requires t in c.running
    ensures t in c.objects && t in Stored(c, n).value.objects && Balanced(c, Stored(c, n).value, t)
  {
    hide LoadsOf, ComputesOf, AccIoOf, Spad.Hit;
    StoredCounts(c, n, t);
    assert c.st[1..] != c.st;
  }

  lemma StoredExact(c: Core, n: nat)
    requires Inv(c) && c.st != [] && n > 0 && JobFits(c, c.st[0]) && Stored(c, n).Ok?
    ensures SameTiles(c, Stored(c, n).value) && Tiles(Stored(c, n).value) && Exact(Stored(c, n).value)
  {
    hide Count, CountAll, Awaited, AllAim, Alternating, Owned, Exact, Requests, Balanced;
    var d := Stored(c, n).value;
    SameTilesFit(c, d);
    forall t | t in c.running ensures t in c.objects && t in d.objects && Balanced(c, d, t) { StoredBalanced(c, n, t); }
    BalancedIsExact(c, d);
  }

  lemma StoredAwaited(c: Core, n: nat)
    requires Inv(c) && c.st != [] && n > 0 && JobFits(c, c.st[0]) && Stored(c, n).Ok?
    ensures Awaited(Stored(c, n).value)
  {
    var d, j := Stored(c, n).value, c.st[0];
    var r := Request(j.tile, true, j.instr.dest, j.Half());
    hide Spad.Settled, Spad.Waiting, Count, CountAll, Requests;
    forall addr: nat, h: nat | h < 2
      ensures d.spad.Waiting(addr, h) == FillsOfSpad(d, addr, h) && d.acc.Waiting(addr, h) == FillsOfAcc(d, addr, h)
    {
      CountAppends(c.flying, Requests(n, r), ReadTo(addr, h));
      CountRequests(n, r, ReadTo(addr, h));
      assert c.spad.Waiting(addr, h) == FillsOfSpad(c, addr, h) && c.acc.Waiting(addr, h) == FillsOfAcc(c, addr, h);
    }
  }

  lemma StoredKeepsInv(c: Core, n: nat)
    requires Inv(c) && c.st != [] && n > 0
    ensures c.st[0].spad < 2 && c.st[0].acc < 2
    ensures Stored(c, n).Ok? && Inv(Stored(c, n).value)
  {
    assert JobFits(c, c.st[0]);
    StoredExact(c, n);
    StoredAwaited(c, n);
    SameTilesFit(c, Stored(c, n).value);
    hide Awaited, Exact, Count;
  }

  // ---- a computation is started ----

  lemma ExecutedOwned(c: Core, u: nat)
    requires Inv(c) && c.ex != [] && 0 < u < |c.units| && JobFits(c, c.ex[0]) && Executed(c, u).Ok?
    ensures SameTiles(c, Executed(c, u).value) && Tiles(Executed(c, u).value) && Owned(Executed(c, u).value)
      && AllAim(Executed(c, u).value)
    ensures Alternating(Executed(c, u).value)
  {
    hide Count, CountAll, Awaited, Exact;
    var d, j := Executed(c, u).value, c.ex[0];
    assert Aims(c.ex[0].instr);
    SameTilesFit(c, d);
  }

  lemma ExecutedCounts(c: Core, u: nat, t: nat)
    requires c.Shaped() && c.ex != [] && 0 < u < |c.units| && c.ex[0].spad < 2 && c.ex[0].acc < 2 && Executed(c, u).Ok?
    ensures var d := Executed(c, u).value;
      d.objects == c.objects && LoadsOf(d, t) == LoadsOf(c, t) && ComputesOf(d, t) == ComputesOf(c, t)
        && AccIoOf(d, t) == AccIoOf(c, t)
  {
    hide Spad.Reserved, Spad.CountedUp, Spad.Allocated, CanCompute;
    var j := c.ex[0];
    var unit := if j.instr.kind.Gemm? then 0 else u;
    CountTail(c.ex, OfTile(t));
    CountAdd(c.units[unit], j, OfTile(t));
    CountAllUpdate(c.units, unit, c.units[unit] + [j], OfTile(t));
    hide Count, CountAll;
  }

  lemma ExecutedExact(c: Core, u: nat)
    requires Inv(c) && c.ex != [] && 0 < u < |c.units| && JobFits(c, c.ex[0]) && Executed(c, u).Ok?
    requires Tiles(Executed(c, u).value)
    requires SameTiles(c, Executed(c, u).value)
    ensures Exact(Executed(c, u).value)
  {
    hide Count, CountAll, Awaited, AllAim, Alternating, Owned, Exact, Executed, LoadsOf, ComputesOf, AccIoOf;
    var d := Executed(c, u).value;
    forall t | t in c.running ensures t in c.objects && t in d.objects && Balanced(c, d, t) { ExecutedCounts(c, u, t); }
    BalancedIsExact(c, d);
  }

  lemma ExecutedAwaited(c: Core, u: nat)
    requires Inv(c) && c.ex != [] && 0 < u < |c.units| && JobFits(c, c.ex[0]) && Executed(c, u).Ok?
    requires Tiles(Executed(c, u).value)
    ensures Awaited(Executed(c, u).value)
  {
    hide Owned, Exact, AllAim, Alternating, CanCompute;
    var d, j := Executed(c, u).value, c.ex[0];
    var unit := if j.instr.kind.Gemm? then 0 else u;
    if d != c {
      if c.acc.Allocated(j.instr.dest, j.acc) { CountedUpWaits(c.acc, j.instr.dest, j.acc); }
      else { ReservedWaits(c.acc, j.instr.dest, j.acc, j.instr.size, 1); }
      hide Spad.Reserved, Spad.CountedUp, Spad.Settled, Spad.Waiting, Spad.Allocated, CanCompute, Count, CountAll,
        Owned, Exact, AllAim, Tiles;
      forall addr: nat, h: nat | h < 2
        ensures d.spad.Waiting(addr, h) == FillsOfSpad(d, addr, h) && d.acc.Waiting(addr, h) == FillsOfAcc(d, addr, h)
      {
        CountAdd(c.units[unit], j, Into(addr, h));
        CountAllUpdate(c.units, unit, c.units[unit] + [j], Into(addr, h));
        assert c.spad.Waiting(addr, h) == FillsOfSpad(c, addr, h) && c.acc.Waiting(addr, h) == FillsOfAcc(c, addr, h);
      }
    }
  }

  lemma ExecutedKeepsInv(c: Core, u: nat)
    requires Inv(c) && c.ex != [] && 0 < u < |c.units|
    ensures c.ex[0].spad < 2 && c.ex[0].acc < 2
    ensures Safe(Executed(c, u))
  {
    assert JobFits(c, c.ex[0]);
    if Executed(c, u).Ok? {
      ExecutedOwned(c, u);
      ExecutedExact(c, u);
      ExecutedAwaited(c, u);
    }
  }

  // ---- a computation is done ----

  /** Its entry is there and waits, its tile is there and counts it. */
  lemma ComputedSucceeds(c: Core, u: nat)
    requires Inv(c) && u < |c.units| && c.units[u] != []
    ensures var j := c.units[u][0];
      JobFits(c, j) && j.acc < 2 && j.instr.InAccum() && c.acc.Filled(j.instr.dest, j.acc).Ok?
    ensures Computed(c, u).Ok?
  {
    var j := c.units[u][0];
    assert JobFits(c, j);
    CountMember(c.units[u], 0, Into(j.instr.dest, j.acc));
    CountAllUpdate(c.units, u, [], Into(j.instr.dest, j.acc));
    assert c.acc.Waiting(j.instr.dest, j.acc) == FillsOfAcc(c, j.instr.dest, j.acc);
    FilledWaits(c.acc, j.instr.dest, j.acc);
  }

  lemma ComputedOwned(c: Core, u: nat)
    requires Inv(c) && u < |c.units| && c.units[u] != [] && JobFits(c, c.units[u][0]) && Computed(c, u).Ok?
    ensures var d := Computed(c, u).value; SameTiles(c, d) && Tiles(d) && Owned(d) && AllAim(d) && Alternating(d)
  {
    hide Count, CountAll, Awaited, Exact;
    SameTilesFit(c, Computed(c, u).value);
  }

  lemma ComputedCounts(c: Core, u: nat, t: nat)
    requires c.Shaped() && u < |c.units| && c.units[u] != [] && c.units[u][0].acc < 2 && Computed(c, u).Ok?
    ensures var d, own := Computed(c, u).value, if c.units[u][0].tile == t then 1 else 0;
      LoadsOf(d, t) == LoadsOf(c, t) && ComputesOf(d, t) == ComputesOf(c, t) - own
        && AccIoOf(d, t) == AccIoOf(c, t) - own
  {
    hide Spad.Filled;
    CountTail(c.units[u], OfTile(t));
    CountAllUpdate(c.units, u, c.units[u][1..], OfTile(t));
    hide Count, CountAll;
  }

  lemma ComputedBalanced(c: Core, u: nat, t: nat)
    requires Tiles(c) && u < |c.units| && c.units[u] != [] && JobFits(c, c.units[u][0]) && Computed(c, u).Ok?
    requires Tiles(Computed(c, u).value)
    requires t in c.running
    ensures t in c.objects && t in Computed(c, u).value.objects && Balanced(c, Computed(c, u).value, t)
  {
    hide LoadsOf, ComputesOf, AccIoOf, Spad.Filled;
    ComputedCounts(c, u, t);
  }

  lemma ComputedExact(c: Core, u: nat)
    requires Inv(c) && u < |c.units| && c.units[u] != [] && JobFits(c, c.units[u][0]) && Computed(c, u).Ok?
    requires Tiles(Computed(c, u).value)
    requires SameTiles(c, Computed(c, u).value)
    ensures Exact(Computed(c, u).value)
  {
    hide Count, CountAll, Awaited, AllAim, Alternating, Owned, Exact, Balanced;
    var d := Computed(c, u).value;
    forall t | t in c.running
      ensures t in c.objects && t in d.objects && Balanced(c, d, t) { ComputedBalanced(c, u, t); }
    BalancedIsExact(c, d);
  }

  lemma ComputedAwaited(c: Core, u: nat)
    requires Inv(c) && u < |c.units| && c.units[u] != [] && JobFits(c, c.units[u][0]) && Computed(c, u).Ok?
    requires Tiles(Computed(c, u).value)
    ensures Awaited(Computed(c, u).value)
  {
    var d, j := Computed(c, u).value, c.units[u][0];
    FilledWaits(c.acc, j.instr.dest, j.acc);
    hide Spad.Filled, Spad.Settled, Spad.Waiting, Count, CountAll;
    forall addr: nat, h: nat | h < 2
      ensures d.spad.Waiting(addr, h) == FillsOfSpad(d, addr, h) && d.acc.Waiting(addr, h) == FillsOfAcc(d, addr, h)
    {
      CountTail(c.units[u], Into(addr, h));
      CountAllUpdate(c.units, u, c.units[u][1..], Into(addr, h));
      assert c.spad.Waiting(addr, h) == FillsOfSpad(c, addr, h) && c.acc.Waiting(addr, h) == FillsOfAcc(c, addr, h);
    }
  }

  lemma ComputedKeepsInv(c: Core, u: nat)
    requires Inv(c) && u < |c.units| && c.units[u] != []
    ensures c.units[u][0].acc < 2 && Computed(c, u).Ok? && Inv(Computed(c, u).value)
  {
    ComputedSucceeds(c, u);
    ComputedOwned(c, u);
    ComputedExact(c, u);
    ComputedAwaited(c, u);
  }

  // ---- a response arrives ----

  lemma AnsweredSucceeds(c: Core, i: nat)
    requires Inv(c) && i < |c.flying|
    ensures var r := c.flying[i]; RequestFits(c, r) && Answered(c, i).Ok?
    ensures var r := c.flying[i];
      !r.write ==> (if r.dest >= ACCUM_BASE then c.acc else c.spad).Filled(r.dest, r.half).Ok?
    ensures var r := c.flying[i]; !r.write ==> c.objects[r.tile].loads > 0
  {
    var r := c.flying[i];
    assert RequestFits(c, r);
    if !r.write {
      ReadMeansLoads(c, i);
      CountMember(c.flying, i, ReadTo(r.dest, r.half));
      if r.dest >= ACCUM_BASE {
        assert c.acc.Waiting(r.dest, r.half) == FillsOfAcc(c, r.dest, r.half);
        FilledWaits(c.acc, r.dest, r.half);
      } else {
        assert c.spad.Waiting(r.dest, r.half) == FillsOfSpad(c, r.dest, r.half);
        FilledWaits(c.spad, r.dest, r.half);
      }
    }
  }

  lemma AnsweredOwned(c: Core, i: nat)
    requires Inv(c) && i < |c.flying| && RequestFits(c, c.flying[i]) && Answered(c, i).Ok?
    ensures var d := Answered(c, i).value; SameTiles(c, d) && Tiles(d) && Owned(d) && AllAim(d)
    ensures !c.flying[i].write ==> c.objects[c.flying[i].tile].loads > 0
    ensures Alternating(Answered(c, i).value)
  {
    hide Count, CountAll, Awaited, Exact;
    SameTilesFit(c, Answered(c, i).value);
  }

  lemma AnsweredCounts(c: Core, i: nat, t: nat)
    requires c.Shaped() && i < |c.flying| && c.flying[i].half < 2 && Answered(c, i).Ok?
    ensures var d, r := Answered(c, i).value, c.flying[i];
      && LoadsOf(d, t) == LoadsOf(c, t) - (if !r.write && r.tile == t then 1 else 0)
      && ComputesOf(d, t) == ComputesOf(c, t)
      && AccIoOf(d, t) == AccIoOf(c, t) - if r.write && r.tile == t then 1 else 0
  {
    CountWithout(c.flying, i, ReadOf(t));
    CountWithout(c.flying, i, WriteOf(t));
    hide Count, CountAll, Spad.Filled;
  }

  lemma AnsweredBalanced(c: Core, i: nat, t: nat)
    requires Tiles(c) && i < |c.flying| && RequestFits(c, c.flying[i]) && Answered(c, i).Ok?
    requires Tiles(Answered(c, i).value) && t in c.running
    ensures t in c.objects && t in Answered(c, i).value.objects && Balanced(c, Answered(c, i).value, t)
  {
    hide LoadsOf, ComputesOf, AccIoOf, Spad.Filled;
    AnsweredCounts(c, i, t);
  }

  lemma AnsweredExact(c: Core, i: nat)
    requires Inv(c) && i < |c.flying| && RequestFits(c, c.flying[i]) && Answered(c, i).Ok?
    requires Tiles(Answered(c, i).value)
    requires SameTiles(c, Answered(c, i).value)
    ensures Exact(Answered(c, i).value)
  {
    hide Count, CountAll, Awaited, AllAim, Alternating, Owned, Exact, Balanced, Spad.Filled;
    var d := Answered(c, i).value;
    forall t | t in c.running
      ensures t in c.objects && t in d.objects && Balanced(c, d, t) { AnsweredBalanced(c, i, t); }
    BalancedIsExact(c, d);
  }

  lemma AnsweredAwaited(c: Core, i: nat)
    requires Inv(c) && i < |c.flying| && RequestFits(c, c.flying[i]) && Answered(c, i).Ok?
    requires Tiles(Answered(c, i).value)
    ensures Awaited(Answered(c, i).value)
  {
    var d, r := Answered(c, i).value, c.flying[i];
    FilledWaits(if r.dest >= ACCUM_BASE then c.acc else c.spad, r.dest, r.half);
    hide Spad.Filled, Spad.Settled, Spad.Waiting, Count, CountAll;
    forall addr: nat, h: nat | h < 2
      ensures d.spad.Waiting(addr, h) == FillsOfSpad(d, addr, h) && d.acc.Waiting(addr, h) == FillsOfAcc(d, addr, h)
    {
      CountWithout(c.flying, i, ReadTo(addr, h));
      assert c.spad.Waiting(addr, h) == FillsOfSpad(c, addr, h) && c.acc.Waiting(addr, h) == FillsOfAcc(c, addr, h);
    }
  }

  lemma AnsweredKeepsInv(c: Core, i: nat)
    requires Inv(c) && i < |c.flying|
    ensures c.flying[i].half < 2 && Answered(c, i).Ok? && Inv(Answered(c, i).value)
  {
    AnsweredSucceeds(c, i);
    AnsweredOwned(c, i);
    AnsweredExact(c, i);
    AnsweredAwaited(c, i);
  }

  // ---- issuing ----

  /** Nothing belongs to a tile that is not running. */
  lemma NoWork(c: Core, t: nat)
    requires Owned(c) && t !in c.running
    ensures LoadsOf(c, t) == 0 && ComputesOf(c, t) == 0 && AccIoOf(c, t) == 0
  {
    forall i | 0 <= i < |c.ld| ensures !OfTile(t)(c.ld[i]) { assert JobFits(c, c.ld[i]); }
    forall i | 0 <= i < |c.st| ensures !OfTile(t)(c.st[i]) { assert JobFits(c, c.st[i]); }
    forall i | 0 <= i < |c.ex| ensures !OfTile(t)(c.ex[i]) { assert JobFits(c, c.ex[i]); }
    forall u, i | 0 <= u < |c.units| && 0 <= i < |c.units[u]|
      ensures !OfTile(t)(c.units[u][i]) { assert JobFits(c, c.units[u][i]); }
    forall i | 0 <= i < |c.flying|
      ensures !ReadOf(t)(c.flying[i]) && !WriteOf(t)(c.flying[i]) { assert RequestFits(c, c.flying[i]); }
    CountNone(c.ld, OfTile(t));
    CountNone(c.st, OfTile(t));
    CountNone(c.ex, OfTile(t));
    CountAllNone(c.units, OfTile(t));
    CountNone(c.flying, ReadOf(t));
    CountNone(c.flying, WriteOf(t));
  }

  lemma OpenedOwned(c: Core, accum: bool)
    requires Inv(c) && CanIssue(c, accum)
    ensures var d := Opened(c, accum); Tiles(d) && Owned(d) && AllAim(d) && Alternating(d)
  {
    hide Count, CountAll, Awaited, Exact;
    var d := Opened(c, accum);
    assert c.next !in c.objects;
    forall j | JobFits(c, j) ensures JobFits(d, j) {}
    forall r | RequestFits(c, r) ensures RequestFits(d, r) {}
  }

  lemma OpenedExact(c: Core, accum: bool)
    requires Inv(c) && CanIssue(c, accum) && Tiles(Opened(c, accum))
    ensures Exact(Opened(c, accum))
  {
    var d := Opened(c, accum);
    NoWork(c, c.next);
    hide Count, CountAll, Awaited, Owned, AllAim, Alternating;
    assert forall t ::
      LoadsOf(d, t) == LoadsOf(c, t) && ComputesOf(d, t) == ComputesOf(c, t) && AccIoOf(d, t) == AccIoOf(c, t);
    forall i | 0 <= i < |d.running| ensures Counted(d, d.running[i]) {
      if i < |c.running| { assert Counted(c, c.running[i]); }
    }
  }

  lemma OpenedAwaited(c: Core, accum: bool)
    requires Inv(c) && CanIssue(c, accum)
    ensures Awaited(Opened(c, accum))
  {
    var d := Opened(c, accum);
    hide Count, CountAll;
    forall addr: nat, h: nat | h < 2
      ensures d.spad.Waiting(addr, h) == FillsOfSpad(d, addr, h) && d.acc.Waiting(addr, h) == FillsOfAcc(d, addr, h)
    {
      SpadHalfIsQuiet(c, accum, addr);
      if !accum { AccHalfIsQuiet(c, addr); }
      assert c.spad.Waiting(addr, h) == FillsOfSpad(c, addr, h) && c.acc.Waiting(addr, h) == FillsOfAcc(c, addr, h);
    }
    FlushedSettles(c.spad, d.curSpad);
    if !accum { FlushedSettles(c.acc, d.curAcc); }
  }

  lemma FlushedSettles(s: Spad, h: nat)
    requires s.Settled() && h < 2
    ensures s.Flushed(h).Settled()
  {
    var r := s.Flushed(h);
    forall g, addr | 0 <= g < 2 && addr in r.halves[g].table ensures r.Hit(addr, g) <==> r.Waiting(addr, g) == 0 {
      assert addr in s.halves[g].table;
      assert s.Hit(addr, g) <==> s.Waiting(addr, g) == 0;
    }
  }

  /** `t` is the tile being issued. */
  ghost predicate Current(c: Core, t: nat) {
    HasTile(c, t) && t in c.running && c.objects[t].spad == c.curSpad && c.objects[t].acc == c.curAcc
  }

  lemma QueuedOwned(c: Core, t: nat, i: Instr)
    requires Inv(c) && Current(c, t) && Aims(i) && Queued(c, t, i).Ok?
    ensures var d := Queued(c, t, i).value;
      SameTiles(c, d) && Tiles(d) && Owned(d) && AllAim(d) && Alternating(d) && Current(d, t)
  {
    hide Count, CountAll, Awaited, Exact;
    SameTilesFit(c, Queued(c, t, i).value);
  }

  lemma QueuedCounts(c: Core, t: nat, i: Instr, x: nat)
    requires HasTile(c, t) && Queued(c, t, i).Ok?
    ensures var d := Queued(c, t, i).value;
      && LoadsOf(d, x) == LoadsOf(c, x) + (if x == t && i.kind.MovIn? then 1 else 0)
      && ComputesOf(d, x) == ComputesOf(c, x) + (if x == t && (i.kind.Gemm? || i.kind.VectorOp?) then 1 else 0)
      && AccIoOf(d, x) == AccIoOf(c, x) + if x == t && !i.kind.MovIn? then 1 else 0
  {
    var j := Job(i, t, c.objects[t].spad, c.objects[t].acc);
    QueuedFields(c, t, i);
    CountAdd(c.ld, j, OfTile(x));
    CountAdd(c.st, j, OfTile(x));
    CountAdd(c.ex, j, OfTile(x));
    hide Count, CountAll, Queued;
  }

  lemma QueuedFields(c: Core, t: nat, i: Instr)
    requires HasTile(c, t) && Queued(c, t, i).Ok?
    ensures var d, j := Queued(c, t, i).value, Job(i, t, c.objects[t].spad, c.objects[t].acc);
      && d.flying == c.flying && d.units == c.units
      && d.ld == (if i.kind.MovIn? then c.ld + [j] else c.ld)
      && d.st == (if i.kind.MovOut? then c.st + [j] else c.st)
      && d.ex == (if i.kind.Gemm? || i.kind.VectorOp? then c.ex + [j] else c.ex)
  {
    hide Spad.Allocated, Spad.HasRoom;
  }

  lemma QueuedExact(c: Core, t: nat, i: Instr)
    requires Inv(c) && Current(c, t) && Queued(c, t, i).Ok? && SameTiles(c, Queued(c, t, i).value)
    requires Tiles(Queued(c, t, i).value)
    ensures Exact(Queued(c, t, i).value)
  {
    hide Count, CountAll, Awaited, Owned, AllAim, Alternating, LoadsOf, ComputesOf, AccIoOf, Exact;
    var d := Queued(c, t, i).value;
    forall x | x in c.running
      ensures x in c.objects && x in d.objects && Balanced(c, d, x) { QueuedCounts(c, t, i, x); }
    BalancedIsExact(c, d);
  }

  lemma QueuedAwaited(c: Core, t: nat, i: Instr)
    requires Inv(c) && Current(c, t) && Queued(c, t, i).Ok?
    ensures Awaited(Queued(c, t, i).value)
  {
    var d := Queued(c, t, i).value;
    hide Count, CountAll, Spad.Settled, Spad.Waiting;
    forall addr: nat, h: nat | h < 2
      ensures d.spad.Waiting(addr, h) == FillsOfSpad(d, addr, h) && d.acc.Waiting(addr, h) == FillsOfAcc(d, addr, h)
    {
      assert c.spad.Waiting(addr, h) == FillsOfSpad(c, addr, h) && c.acc.Waiting(addr, h) == FillsOfAcc(c, addr, h);
    }
  }

  lemma {:induction false} AllQueuedKeepsInv(c: Core, t: nat, instrs: seq<Instr>)
    requires Inv(c) && Current(c, t) && forall i :: 0 <= i < |instrs| ==> Aims(instrs[i])
    ensures Safe(AllQueued(c, t, instrs)) && (AllQueued(c, t, instrs).Ok? ==> Current(AllQueued(c, t, instrs).value, t))
    decreases |instrs|
  {
    assert HasTile(c, t);
    hide Inv, Current;
    if instrs != [] {
      var init, last := instrs[..|instrs| - 1], instrs[|instrs| - 1];
      AllQueuedKeepsInv(c, t, init);
      if AllQueued(c, t, init).Ok? {
        var d := AllQueued(c, t, init).value;
        QueuedKeepsInv(d, t, last);
      }
    }
  }

  lemma QueuedKeepsInv(c: Core, t: nat, i: Instr)
    requires Inv(c) && Current(c, t) && Aims(i)
    ensures Safe(Queued(c, t, i)) && (Queued(c, t, i).Ok? ==> Current(Queued(c, t, i).value, t))
  {
    if Queued(c, t, i).Ok? {
      QueuedOwned(c, t, i);
      QueuedExact(c, t, i);
      QueuedAwaited(c, t, i);
    }
  }

  predicate WellAimed(p: Program) { forall i :: 0 <= i < |p.instrs| ==> Aims(p.instrs[i]) }

  lemma IssuedKeepsInv(c: Core, p: Program)
    requires Inv(c) && WellAimed(p) && CanIssue(c, p.accum)
    ensures Safe(Issued(c, p))
  {
    if p.skip {
      SkippedKeepsInv(c, p);
    } else {
      OpenedOwned(c, p.accum);
      OpenedExact(c, p.accum);
      OpenedAwaited(c, p.accum);
      AllQueuedKeepsInv(Opened(c, p.accum), c.next, p.instrs);
    }
  }

  /** Changing only the queue of finished tiles and objects of tiles that do not run. */
  lemma SameWork(c: Core, d: Core)
    requires Inv(c) && Tiles(d)
    requires d.ld == c.ld && d.st == c.st && d.ex == c.ex && d.units == c.units && d.flying == c.flying
    requires d.spad == c.spad && d.acc == c.acc
    requires d.curSpad == c.curSpad && d.curAcc == c.curAcc && d.running == c.running
    requires forall i :: 0 <= i < |c.running| ==> d.objects[c.running[i]] == c.objects[c.running[i]]
    ensures Inv(d)
  {
    hide Count, CountAll;
    assert forall j :: JobFits(c, j) ==> JobFits(d, j);
    assert forall r :: RequestFits(c, r) ==> RequestFits(d, r);
    assert forall t ::
      LoadsOf(d, t) == LoadsOf(c, t) && ComputesOf(d, t) == ComputesOf(c, t) && AccIoOf(d, t) == AccIoOf(c, t);
    assert Exact(d) by {
      forall i | 0 <= i < |d.running| ensures Counted(d, d.running[i]) { assert Counted(c, c.running[i]); }
    }
    assert Awaited(d) by {
      assert forall addr, h ::
        FillsOfSpad(d, addr, h) == FillsOfSpad(c, addr, h) && FillsOfAcc(d, addr, h) == FillsOfAcc(c, addr, h);
    }
  }

  lemma SkippedKeepsInv(c: Core, p: Program)
    requires Inv(c) && p.skip
    ensures Inv(Issued(c, p).value)
  {
    hide Count, CountAll, Awaited, Exact, Owned, Alternating, AllAim;
    var d := Issued(c, p).value;
    assert Tiles(d);
    SameWork(c, d);
  }

  // ---- tiles finish ----

  lemma {:induction false} Sorted(objects: map<nat, Tile>, ids: seq<nat>)
    requires forall i :: 0 <= i < |ids| ==> ids[i] in objects
    ensures forall t :: t in StillRunning(objects, ids) <==> t in ids && t in objects && !objects[t].Done()
    ensures forall t :: t in NowDone(objects, ids) <==> t in ids && t in objects && objects[t].Done()
  {
    if ids != [] {
      Sorted(objects, ids[..|ids| - 1]);
      assert ids == ids[..|ids| - 1] + [ids[|ids| - 1]];
    }
  }

  predicate Distinct(ids: seq<nat>) { forall i, j :: 0 <= i < j < |ids| ==> ids[i] != ids[j] }

  lemma {:induction false} SortedDistinct(objects: map<nat, Tile>, ids: seq<nat>)
    requires (forall i :: 0 <= i < |ids| ==> ids[i] in objects) && Distinct(ids)
    ensures Distinct(StillRunning(objects, ids)) && Distinct(NowDone(objects, ids))
  {
    if ids != [] {
      var init, last := ids[..|ids| - 1], ids[|ids| - 1];
      SortedDistinct(objects, init);
      Sorted(objects, init);
      assert last !in init;
    }
  }

  lemma CollectedTiles(c: Core)
    requires Tiles(c)
    ensures Tiles(Collected(c))
  {
    var d := Collected(c);
    Sorted(c.objects, c.running);
    assert Distinct(c.running);
    SortedDistinct(c.objects, c.running);
    hide StillRunning, NowDone;
    forall i | 0 <= i < |d.running|
      ensures d.running[i] in d.objects && d.running[i] in c.running { assert d.running[i] in d.running; }
    forall i | 0 <= i < |d.finished| ensures d.finished[i] in d.objects && d.finished[i] !in d.running {
      if i >= |c.finished| { assert d.finished[i] in NowDone(c.objects, c.running); }
    }
  }

  /** A tile with work left is not done. */
  lemma WorkersStay(c: Core)
    requires Inv(c)
    ensures forall j :: JobFits(c, j) && !c.objects[j.tile].Done() ==> JobFits(Collected(c), j)
    ensures forall r :: RequestFits(c, r) && !c.objects[r.tile].Done() ==> RequestFits(Collected(c), r)
  {
    Sorted(c.objects, c.running);
  }

  lemma CollectedOwned(c: Core)
    requires Inv(c)
    ensures Owned(Collected(c))
  {
    var d := Collected(c);
    WorkersStay(c);
    hide Count, CountAll, Collected, Awaited;
    forall i | 0 <= i < |c.ld| ensures JobFits(d, c.ld[i]) {
      assert JobFits(c, c.ld[i]);
      WorkIsCounted(c, c.ld[i].tile);
      CountMember(c.ld, i, OfTile(c.ld[i].tile));
    }
    forall i | 0 <= i < |c.st| ensures JobFits(d, c.st[i]) {
      assert JobFits(c, c.st[i]);
      WorkIsCounted(c, c.st[i].tile);
      CountMember(c.st, i, OfTile(c.st[i].tile));
    }
    forall i | 0 <= i < |c.ex| ensures JobFits(d, c.ex[i]) {
      assert JobFits(c, c.ex[i]);
      WorkIsCounted(c, c.ex[i].tile);
      CountMember(c.ex, i, OfTile(c.ex[i].tile));
    }
    forall u, i | 0 <= u < |c.units| && 0 <= i < |c.units[u]| ensures JobFits(d, c.units[u][i]) {
      assert JobFits(c, c.units[u][i]);
      ComputingMeansComputes(c, u, i);
    }
    forall i | 0 <= i < |c.flying| ensures RequestFits(d, c.flying[i]) {
      assert RequestFits(c, c.flying[i]);
      WorkIsCounted(c, c.flying[i].tile);
      if c.flying[i].write { CountMember(c.flying, i, WriteOf(c.flying[i].tile)); }
      else { CountMember(c.flying, i, ReadOf(c.flying[i].tile)); }
    }
    SameQueues(c);
  }

  lemma SameQueues(c: Core)
    requires Tiles(c)
    ensures var d := Collected(c);
      && d.ld == c.ld && d.st == c.st && d.ex == c.ex && d.units == c.units && d.flying == c.flying
      && d.objects == c.objects && d.spad == c.spad && d.acc == c.acc && d.curSpad == c.curSpad && d.curAcc == c.curAcc
      && forall i :: 0 <= i < |d.running| ==> d.running[i] in c.running
  {
    Sorted(c.objects, c.running);
    forall i | 0 <= i < |Collected(c).running|
      ensures Collected(c).running[i] in c.running { assert Collected(c).running[i] in Collected(c).running; }
  }

  lemma CollectedKeepsInv(c: Core)
    requires Inv(c)
    ensures Inv(Collected(c))
  {
    var d := Collected(c);
    CollectedTiles(c);
    CollectedOwned(c);
    SameQueues(c);
    hide Count, CountAll, Collected;
    assert Exact(d) by {
      forall i | 0 <= i < |d.running| ensures Counted(d, d.running[i]) { WorkIsCounted(c, d.running[i]); }
    }
    assert Alternating(d) by {
      forall i | 0 <= i < |d.running| && d.objects[d.running[i]].spad == d.curSpad
        && d.objects[d.running[i]].acc != d.curAcc
        ensures d.objects[d.running[i]].loads == 0
      {
        var k :| 0 <= k < |c.running| && c.running[k] == d.running[i];
      }
    }
    assert Awaited(d) by {
      assert forall addr, h ::
        FillsOfSpad(d, addr, h) == FillsOfSpad(c, addr, h) && FillsOfAcc(d, addr, h) == FillsOfAcc(c, addr, h);
    }
  }

  lemma HandedBackKeepsInv(c: Core)
    requires Inv(c) && c.finished != []
    ensures Inv(HandedBack(c))
  {
    hide Count, CountAll, Awaited, Exact, Owned, Alternating, AllAim;
    var d := HandedBack(c);
    assert c.finished[0] !in c.running;
    assert Tiles(d);
    SameWork(c, d);
  }

  // ---- runs ----

  datatype Step =
    | Issue(program: Program) | Load(count: nat) | Store(count: nat) | Execute(vector: nat) | Complete(unit: nat)
    | Respond(which: nat) | Collect | HandBack

  /** A tile is issued only past the gate, and every instruction makes at least one request. */
  ghost predicate Allowed(c: Core, s: Step)
    requires Inv(c)
  {
    match s
    case Issue(p) => WellAimed(p) && CanIssue(c, p.accum)
    case Load(n) => c.ld != [] && n > 0
    case Store(n) => c.st != [] && n > 0
    case Execute(u) => c.ex != [] && 0 < u < |c.units|
    case Complete(u) => u < |c.units| && c.units[u] != []
    case Respond(i) => i < |c.flying|
    case Collect => true
    case HandBack => c.finished != []
  }

  ghost function Do(c: Core, s: Step): (r: Outcome<Core>)
    requires Inv(c) && Allowed(c, s)
    ensures Safe(r)
    ensures s.Complete? || s.Respond? || s.Store? || s.Collect? || s.HandBack? ==> r.Ok?
  {
    match s
    case Issue(p) => IssuedKeepsInv(c, p); Issued(c, p)
    case Load(n) => LoadedKeepsInv(c, n); Loaded(c, n)
    case Store(n) => StoredKeepsInv(c, n); Stored(c, n)
    case Execute(u) => ExecutedKeepsInv(c, u); Executed(c, u)
    case Complete(u) => ComputedKeepsInv(c, u); Computed(c, u)
    case Respond(i) => AnsweredKeepsInv(c, i); Answered(c, i)
    case Collect => CollectedKeepsInv(c); Ok(Collected(c))
    case HandBack => HandedBackKeepsInv(c); Ok(HandedBack(c))
  }

  lemma StartInv(size: nat, vectors: nat)
    requires vectors > 0
    ensures Inv(Start(size, vectors))
  {
    var c := Start(size, vectors);
    forall addr: nat, h: nat | h < 2 ensures FillsOfSpad(c, addr, h) == 0 == FillsOfAcc(c, addr, h) {
      CountNone(c.flying, ReadTo(addr, h));
      CountAllNone(c.units, Into(addr, h));
    }
  }

  ghost function Started(size: nat, vectors: nat): (c: Core)
    requires vectors > 0
    ensures Inv(c)
  {
    StartInv(size, vectors);
    Start(size, vectors)
  }

  /** Each step is allowed where it is taken; a run may end in a refused allocation. */
  ghost predicate Legal(c: Core, steps: seq<Step>)
    requires Inv(c)
    decreases |steps|
  {
    steps == [] || (Allowed(c, steps[0]) &&
                    match Do(c, steps[0])
                    case Ok(d) => Legal(d, steps[1..])
                    case Failed(_) => |steps| == 1)
  }

  ghost function After(c: Core, steps: seq<Step>): (r: Outcome<Core>)
    requires Inv(c) && Legal(c, steps)
    ensures Safe(r)
    decreases |steps|
  {
    if steps == [] then Ok(c)
    else
      match Do(c, steps[0])
      case Ok(d) => After(d, steps[1..])
      case Failed(why) => Failed(why)
  }

  /** Nothing awaited, loading, computing or storing touches the halves the next issue flushes. */
  ghost predicate FlushIsQuiet(c: Core, accum: bool)
    requires c.Shaped()
  {
    var h, a := 1 - c.curSpad, 1 - c.curAcc;
    && (forall addr: nat :: addr in c.spad.halves[h].table ==> c.spad.Hit(addr, h))
    && (forall i :: 0 <= i < |c.flying| && !c.flying[i].write && c.flying[i].dest < ACCUM_BASE ==>
        c.flying[i].half == c.curSpad)
    && (forall i :: 0 <= i < |c.ex| ==> c.ex[i].spad == c.curSpad)
    && (!accum ==>
          && (forall addr: nat :: addr in c.acc.halves[a].table ==> c.acc.Hit(addr, a))
          && (forall i :: 0 <= i < |c.flying| && !c.flying[i].write && c.flying[i].dest >= ACCUM_BASE ==>
              c.flying[i].half == c.curAcc)
          && (forall u, i :: 0 <= u < |c.units| && 0 <= i < |c.units[u]| ==> c.units[u][i].acc == c.curAcc)
          && (forall i :: 0 <= i < |c.st| ==> c.st[i].acc == c.curAcc))
  }

  lemma UnitsAreCurrent(c: Core)
    requires Inv(c) && CanIssue(c, false)
    ensures forall u, i :: 0 <= u < |c.units| && 0 <= i < |c.units[u]| ==> c.units[u][i].acc == c.curAcc
  {
    forall u, i | 0 <= u < |c.units| && 0 <= i < |c.units[u]| ensures c.units[u][i].acc == c.curAcc {
      assert JobFits(c, c.units[u][i]);
      ComputingMeansComputes(c, u, i);
    }
  }

  lemma SettledIs(c: Core)
    requires Inv(c)
    ensures c.spad.Settled() && c.acc.Settled()
    ensures forall addr: nat, h: nat :: h < 2 ==> c.spad.Waiting(addr, h) == FillsOfSpad(c, addr, h)
    ensures forall addr: nat, h: nat :: h < 2 ==> c.acc.Waiting(addr, h) == FillsOfAcc(c, addr, h)
  {
  }

  lemma GateMeansQuiet(c: Core, accum: bool)
    requires Inv(c) && CanIssue(c, accum)
    ensures FlushIsQuiet(c, accum)
  {
    hide Awaited, Exact, Alternating, AllAim, Count, CountAll, CanIssue;
    var h, a := 1 - c.curSpad, 1 - c.curAcc;
    SettledIs(c);
    SpadHalfIsQuiet(c, accum, 0);
    forall addr: nat | addr in c.spad.halves[h].table ensures c.spad.Hit(addr, h) { SpadHalfIsQuiet(c, accum, addr); }
    forall i | 0 <= i < |c.flying| && !c.flying[i].write && c.flying[i].dest < ACCUM_BASE
      ensures c.flying[i].half == c.curSpad
    {
      assert RequestFits(c, c.flying[i]);
      SpadHalfIsQuiet(c, accum, c.flying[i].dest);
      if c.flying[i].half == h { CountMember(c.flying, i, ReadTo(c.flying[i].dest, h)); }
    }
    if !accum {
      AccHalfIsQuiet(c, 0);
      forall addr: nat | addr in c.acc.halves[a].table ensures c.acc.Hit(addr, a) { AccHalfIsQuiet(c, addr); }
      forall i | 0 <= i < |c.flying| && !c.flying[i].write && c.flying[i].dest >= ACCUM_BASE
        ensures c.flying[i].half == c.curAcc
      {
        assert RequestFits(c, c.flying[i]);
        AccHalfIsQuiet(c, c.flying[i].dest);
        if c.flying[i].half == a { CountMember(c.flying, i, ReadTo(c.flying[i].dest, a)); }
      }
      UnitsAreCurrent(c);
    }
  }

  /** An open gate means a quiet flush; every response and every finished computation finds its tile and its entry. */
  ghost predicate NothingMissing(c: Core)
    requires Inv(c)
  {
    && (forall accum | CanIssue(c, accum) :: FlushIsQuiet(c, accum))
    && (forall i: nat | i < |c.flying| :: c.flying[i].half < 2 && Answered(c, i).Ok?)
    && (forall u: nat | u < |c.units| && c.units[u] != [] :: c.units[u][0].acc < 2 && Computed(c, u).Ok?)
  }

  /** In every run whose issues pass the gate: whenever the gate is open the flush drops no entry that awaits
      anything and touches nothing outstanding; and every response and every finished computation finds its tile,
      and its entry still waiting. The only way a run stops is an allocation refused for lack of room or for a
      repeated address. */
  lemma NothingIsLost(size: nat, vectors: nat, steps: seq<Step>)
    requires vectors > 0 && Legal(Started(size, vectors), steps)
    ensures Safe(After(Started(size, vectors), steps))
    ensures After(Started(size, vectors), steps).Ok? ==> NothingMissing(After(Started(size, vectors), steps).value)
  {
    hide Legal, After, Started;
    var r := After(Started(size, vectors), steps);
    if r.Ok? { InvMeansNothingMissing(r.value); }
  }

  lemma InvMeansNothingMissing(c: Core)
    requires Inv(c)
    ensures NothingMissing(c)
  {
    hide Inv, FlushIsQuiet, CanIssue, Answered, Computed;
    ShapedInv(c);
    forall accum | CanIssue(c, accum) ensures FlushIsQuiet(c, accum) { GateMeansQuiet(c, accum); }
    forall i: nat | i < |c.flying| ensures c.flying[i].half < 2 && Answered(c, i).Ok? { AnsweredKeepsInv(c, i); }
    forall u: nat | u < |c.units| && c.units[u] != []
      ensures c.units[u][0].acc < 2 && Computed(c, u).Ok? { ComputedKeepsInv(c, u); }
  }

  lemma ShapedInv(c: Core)
    requires Inv(c)
    ensures c.Shaped() && forall i :: 0 <= i < |c.running| ==> c.running[i] in c.objects
  {
  }
}
