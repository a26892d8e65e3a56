/** When a core's work goes on: what a computation and a store wait for, when the gate opens, when a tile is done. */
module CoreWork {
  // The state machine decides by counters and valid bits. Over gated runs these mean what they are for: a computation
  // enters a pipeline exactly when its operands are loaded, a store leaves exactly when its data is complete, and the
  // gate and the end of a tile come exactly when nothing outstanding stands against them.

  import opened Counting
  import opened Scratchpads
  import opened CoreModel
  import opened CoreSafety

  // ---- operands ----

  /** The address has an entry in half `h` of the scratchpad, and no read for it is on its way. */
  ghost predicate SpadHolds(c: Core, addr: nat, h: nat)
    requires c.spad.Valid() && h < 2
  {
    && addr in c.spad.halves[h].table
    && (addr < ACCUM_BASE ==>
          forall i | 0 <= i < |c.flying| :: c.flying[i].write || c.flying[i].dest != addr || c.flying[i].half != h)
  }

  /** The same in the accumulation scratchpad, and no computation into it is underway. */
  ghost predicate AccHolds(c: Core, addr: nat, h: nat)
    requires c.acc.Valid() && h < 2
  {
    && addr in c.acc.halves[h].table
    && (addr >= ACCUM_BASE ==>
          forall i | 0 <= i < |c.flying| :: c.flying[i].write || c.flying[i].dest != addr || c.flying[i].half != h)
    && (forall u, i | 0 <= u < |c.units| && 0 <= i < |c.units[u]| ::
          c.units[u][i].instr.dest != addr || c.units[u][i].acc != h)
  }

  lemma SpadHitMeansHeld(c: Core, addr: nat, h: nat)
    requires Inv(c) && h < 2
    ensures c.spad.Valid() && (c.spad.Hit(addr, h) <==> SpadHolds(c, addr, h))
  {
    SettledIs(c);
    hide Inv;
    if addr in c.spad.halves[h].table {
      assert c.spad.Hit(addr, h) <==> c.spad.Waiting(addr, h) == 0;
      if addr < ACCUM_BASE { NoneReads(c.flying, addr, h); }
    }
  }

  lemma AccHitMeansHeld(c: Core, addr: nat, h: nat)
    requires Inv(c) && h < 2
    ensures c.acc.Valid() && (c.acc.Hit(addr, h) <==> AccHolds(c, addr, h))
  {
    SettledIs(c);
    hide Inv;
    if addr in c.acc.halves[h].table {
      assert c.acc.Hit(addr, h) <==> c.acc.Waiting(addr, h) == 0;
      if addr >= ACCUM_BASE { NoneReads(c.flying, addr, h); }
      NoneComputes(c.units, addr, h);
    }
  }

  lemma NoneReads(flying: seq<Request>, addr: nat, h: nat)
    ensures Count(flying, ReadTo(addr, h)) == 0 <==>
      forall i | 0 <= i < |flying| :: flying[i].write || flying[i].dest != addr || flying[i].half != h
  {
    if i: nat :| i < |flying| && ReadTo(addr, h)(flying[i]) {
      CountMember(flying, i, ReadTo(addr, h));
    } else {
      CountNone(flying, ReadTo(addr, h));
    }
  }

  lemma NoneComputes(units: seq<seq<Job>>, addr: nat, h: nat)
    ensures CountAll(units, Into(addr, h)) == 0 <==>
      forall u, i | 0 <= u < |units| && 0 <= i < |units[u]| :: units[u][i].instr.dest != addr || units[u][i].acc != h
  {
    if u: nat, i: nat :| u < |units| && i < |units[u]| && Into(addr, h)(units[u][i]) {
      CountMember(units[u], i, Into(addr, h));
      CountAllUpdate(units, u, [], Into(addr, h));
    } else {
      CountAllNone(units, Into(addr, h));
    }
  }

  /** Every operand is loaded in the tile's own half: accumulator operands in its accumulation half, the others in its
      scratchpad half. */
  ghost predicate OperandsLoaded(c: Core, j: Job)
    requires c.spad.Valid() && c.acc.Valid() && j.spad < 2 && j.acc < 2
  {
    forall i | 0 <= i < |j.instr.sources| ::
      var addr := j.instr.sources[i];
      if j.instr.fromAccum && addr >= ACCUM_BASE then AccHolds(c, addr, j.acc) else SpadHolds(c, addr, j.spad)
  }

  /** A computation enters its pipeline, the systolic one for a product and the chosen vector one otherwise, exactly
      when its operands are loaded; until then nothing moves. */
  lemma ComputesOnLoadedOperands(c: Core, u: nat)
    requires Inv(c) && c.ex != [] && 0 < u < |c.units|
    ensures c.ex[0].spad < 2 && c.ex[0].acc < 2 && c.spad.Valid() && c.acc.Valid()
    ensures !OperandsLoaded(c, c.ex[0]) ==> Executed(c, u) == Ok(c)
    ensures OperandsLoaded(c, c.ex[0]) && Executed(c, u).Ok? ==>
      var d, unit := Executed(c, u).value, if c.ex[0].instr.kind.Gemm? then 0 else u;
      d.ex == c.ex[1..] && d.units == c.units[unit := c.units[unit] + [c.ex[0]]]
  {
    hide Inv;
    ShapedInv(c);
    ExecutedKeepsInv(c, u);
    LoadedMeansReady(c, c.ex[0]);
  }

  lemma LoadedMeansReady(c: Core, j: Job)
    requires Inv(c) && c.Shaped() && j.spad < 2 && j.acc < 2
    ensures CanCompute(c, j) <==> OperandsLoaded(c, j)
  {
    hide Inv, SpadHolds, AccHolds, Spad.Hit;
    forall i | 0 <= i < |j.instr.sources|
      ensures c.spad.Hit(j.instr.sources[i], j.spad) <==> SpadHolds(c, j.instr.sources[i], j.spad)
      ensures c.acc.Hit(j.instr.sources[i], j.acc) <==> AccHolds(c, j.instr.sources[i], j.acc)
    {
      SpadHitMeansHeld(c, j.instr.sources[i], j.spad);
      AccHitMeansHeld(c, j.instr.sources[i], j.acc);
    }
  }

  /** A store becomes its requests exactly when its data is complete in the tile's own half: for an accumulator, when no
      computation into it is left underway; until then it stays and nothing moves. */
  lemma StoresCompleteData(c: Core, n: nat)
    requires Inv(c) && c.st != [] && n > 0
    ensures c.st[0].spad < 2 && c.st[0].acc < 2 && c.spad.Valid() && c.acc.Valid()
    ensures var j := c.st[0];
      var complete := if j.instr.dest >= ACCUM_BASE then AccHolds(c, j.instr.dest, j.acc)
                      else SpadHolds(c, j.instr.dest, j.spad);
      Stored(c, n).Ok? && var d := Stored(c, n).value;
      if complete then
        d.st == c.st[1..] && |d.flying| == |c.flying| + n
        && forall i | |c.flying| <= i < |d.flying| ::
             d.flying[i].write && d.flying[i].tile == j.tile && d.flying[i].dest == j.instr.dest
      else d == c
  {
    hide Inv;
    ShapedInv(c);
    StoredKeepsInv(c, n);
    SpadHitMeansHeld(c, c.st[0].instr.dest, c.st[0].spad);
    AccHitMeansHeld(c, c.st[0].instr.dest, c.st[0].acc);
    hide SpadHolds, AccHolds, Spad.Hit;
  }

  // ---- the gate ----

  /** A load waits or is on its way, or a computation waits or is underway, for tile `t`. */
  ghost predicate Reading(c: Core, t: nat) {
    || (exists i | 0 <= i < |c.ld| :: c.ld[i].tile == t)
    || (exists i | 0 <= i < |c.flying| :: c.flying[i].tile == t && !c.flying[i].write)
    || Computing(c, t)
  }

  ghost predicate Computing(c: Core, t: nat) {
    || (exists i | 0 <= i < |c.ex| :: c.ex[i].tile == t)
    || (exists u, i | 0 <= u < |c.units| && 0 <= i < |c.units[u]| :: c.units[u][i].tile == t)
  }

  /** A computation or a store of tile `t` is outstanding. */
  ghost predicate Producing(c: Core, t: nat) {
    || Computing(c, t)
    || (exists i | 0 <= i < |c.st| :: c.st[i].tile == t)
    || (exists i | 0 <= i < |c.flying| :: c.flying[i].tile == t && c.flying[i].write)
  }

  lemma SomeCount<T>(s: seq<T>, p: T -> bool)
    ensures Count(s, p) > 0 <==> exists i | 0 <= i < |s| :: p(s[i])
  {
    if i: nat :| i < |s| && p(s[i]) { CountMember(s, i, p); } else { CountNone(s, p); }
  }

  lemma SomeCountAll<T>(s: seq<seq<T>>, p: T -> bool)
    ensures CountAll(s, p) > 0 <==> exists u, i | 0 <= u < |s| && 0 <= i < |s[u]| :: p(s[u][i])
  {
    if u: nat, i: nat :| u < |s| && i < |s[u]| && p(s[u][i]) {
      CountMember(s[u], i, p);
      CountAllUpdate(s, u, [], p);
    } else {
      CountAllNone(s, p);
    }
  }

  lemma LoadsTell(c: Core, t: nat)
    ensures Count(c.ld, OfTile(t)) > 0 <==> exists i | 0 <= i < |c.ld| :: c.ld[i].tile == t
    ensures Count(c.flying, ReadOf(t)) > 0 <==>
      exists i | 0 <= i < |c.flying| :: c.flying[i].tile == t && !c.flying[i].write
  {
    SomeCount(c.ld, OfTile(t));
    SomeCount(c.flying, ReadOf(t));
  }

  lemma ComputesTell(c: Core, t: nat)
    ensures Count(c.ex, OfTile(t)) + CountAll(c.units, OfTile(t)) > 0 <==> Computing(c, t)
  {
    SomeCount(c.ex, OfTile(t));
    SomeCountAll(c.units, OfTile(t));
  }

  lemma StoresTell(c: Core, t: nat)
    ensures Count(c.st, OfTile(t)) > 0 <==> exists i | 0 <= i < |c.st| :: c.st[i].tile == t
    ensures Count(c.flying, WriteOf(t)) > 0 <==>
      exists i | 0 <= i < |c.flying| :: c.flying[i].tile == t && c.flying[i].write
  {
    SomeCount(c.st, OfTile(t));
    SomeCount(c.flying, WriteOf(t));
  }

  /** The counters of a running tile are 0 exactly when nothing of the kind is outstanding. */
  lemma CountersTell(c: Core, t: nat)
    requires Inv(c) && t in c.running
    ensures t in c.objects && c.objects[t].loads >= 0 && c.objects[t].computes >= 0
    ensures c.objects[t].loads == 0 && c.objects[t].computes == 0 <==> !Reading(c, t)
    ensures c.objects[t].accIo == 0 <==> !Producing(c, t)
  {
    WorkIsCounted(c, t);
    LoadsTell(c, t);
    ComputesTell(c, t);
    StoresTell(c, t);
    hide Inv, Computing, Count, CountAll;
  }

  /** Tile `t` keeps an issue waiting: it works on what the issue would flush. */
  ghost predicate Blocks(c: Core, accum: bool, t: nat)
    requires t in c.objects
  {
    || (c.objects[t].spad != c.curSpad && Reading(c, t))
    || (!accum && c.objects[t].acc != c.curAcc && Producing(c, t))
  }

  predicate CountsAgainst(c: Core, accum: bool, t: nat)
    requires t in c.objects
  {
    || (c.objects[t].spad == 1 - c.curSpad && (c.objects[t].loads != 0 || c.objects[t].computes != 0))
    || (!accum && c.objects[t].acc == 1 - c.curAcc && c.objects[t].accIo != 0)
  }

  lemma GateCounts(c: Core, accum: bool)
    requires c.Shaped() && forall i :: 0 <= i < |c.running| ==> c.running[i] in c.objects
    ensures CanIssue(c, accum) <==> forall i | 0 <= i < |c.running| :: !CountsAgainst(c, accum, c.running[i])
  {
  }

  /** The gate is open exactly when no tile of the scratchpad half to be flushed has loads or computations outstanding
      and, for a tile that begins an accumulation, none of the accumulation half has computations or stores. */
  lemma GateOpensExactly(c: Core, accum: bool)
    requires Inv(c)
    ensures c.Shaped() && forall i :: 0 <= i < |c.running| ==> c.running[i] in c.objects
    ensures CanIssue(c, accum) <==> forall i | 0 <= i < |c.running| :: !Blocks(c, accum, c.running[i])
  {
    ShapedInv(c);
    TilesHaveHalves(c);
    GateCounts(c, accum);
    hide Inv, Reading, Producing, CanIssue;
    forall i | 0 <= i < |c.running|
      ensures CountsAgainst(c, accum, c.running[i]) <==> Blocks(c, accum, c.running[i])
    {
      CountersTell(c, c.running[i]);
    }
  }

  lemma TilesHaveHalves(c: Core)
    requires Inv(c)
    ensures c.curSpad < 2 && c.curAcc < 2
    ensures forall i | 0 <= i < |c.running| ::
      c.running[i] in c.objects && c.objects[c.running[i]].spad < 2 && c.objects[c.running[i]].acc < 2
  {
  }

  /** A tile leaves the running ones exactly when nothing of it is outstanding. */
  lemma TileIsDoneExactly(c: Core, t: nat)
    requires Inv(c) && t in c.running
    ensures t in Collected(c).finished <==> !Reading(c, t) && !Producing(c, t)
    ensures t in Collected(c).running <==> Reading(c, t) || Producing(c, t)
  {
    ShapedInv(c);
    CountersTell(c, t);
    CoreSafety.Sorted(c.objects, c.running);
    NotFinishedYet(c, t);
    hide Inv, Reading, Producing, StillRunning, NowDone;
  }

  lemma NotFinishedYet(c: Core, t: nat)
    requires Inv(c) && t in c.running
    ensures t !in c.finished
  {
  }
}
