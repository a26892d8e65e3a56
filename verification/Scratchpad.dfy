/** A double-buffered scratchpad: two halves, each a table of entries that wait for a number of fills. */
module Scratchpads {
  datatype Fault =
    | Full        // no room for an allocation
    | Occupied    // the address is allocated already
    | Lost        // a fill or a count finds no entry
    | Unexpected  // a fill finds an entry that waits for nothing
    | NoTile      // completed work finds its tile gone
    | BadTarget   // a computation aims outside the accumulation scratchpad
    | Underflow   // a load returns to a tile that waits for none

  datatype Outcome<T> = Ok(value: T) | Failed(why: Fault)

  datatype Entry = Entry(valid: bool, size: nat, remain: nat)

  datatype Half = Half(table: map<nat, Entry>, used: nat)

  /** `size` bytes in two halves. */
  datatype Spad = Spad(size: nat, halves: seq<Half>) {
    predicate Valid() { |halves| == 2 }

    predicate Allocated(addr: nat, h: nat)
      requires Valid() && h < 2
    {
      addr in halves[h].table
    }

    predicate Hit(addr: nat, h: nat)
      requires Valid() && h < 2
    {
      Allocated(addr, h) && halves[h].table[addr].valid
    }

    predicate HasRoom(size: nat, h: nat)
      requires Valid() && h < 2
    {
      halves[h].used + size <= this.size / 2
    }

    function Flushed(h: nat): Spad
      requires Valid() && h < 2
    {
      this.(halves := halves[h := Half(map[], 0)])
    }

    function With(addr: nat, h: nat, e: Entry): Spad
      requires Valid() && h < 2
    {
      this.(halves := halves[h := halves[h].(table := halves[h].table[addr := e])])
    }

    /** A new entry waiting for `count` fills. */
    function Reserved(addr: nat, h: nat, size: nat, count: nat): Outcome<Spad>
      requires Valid() && h < 2
    {
      if Allocated(addr, h) then Failed(Occupied)
      else if !HasRoom(size, h) then Failed(Full)
      else Ok(Spad(this.size,
                   halves[h := Half(halves[h].table[addr := Entry(false, size, count)], halves[h].used + size)]))
    }

    /** One fill less to wait for; the last makes the entry valid. */
    function Filled(addr: nat, h: nat): Outcome<Spad>
      requires Valid() && h < 2
    {
      if !Allocated(addr, h) then Failed(Lost)
      else
        var e := halves[h].table[addr];
        if e.remain == 0 || e.valid then Failed(Unexpected)
        else Ok(With(addr, h, e.(remain := e.remain - 1, valid := e.remain == 1)))
    }

    /** One fill more to wait for. */
    function CountedUp(addr: nat, h: nat): Outcome<Spad>
      requires Valid() && h < 2
    {
      if !Allocated(addr, h) then Failed(Lost)
      else
        var e := halves[h].table[addr];
        Ok(With(addr, h, e.(remain := e.remain + 1, valid := false)))
    }

    /** How many fills an address of a half waits for. */
    function Waiting(addr: nat, h: nat): nat
      requires Valid() && h < 2
    {
      if Allocated(addr, h) then halves[h].table[addr].remain else 0
    }

    /** An entry is valid exactly when it waits for nothing. */
    ghost predicate Settled() {
      Valid() && forall h, addr :: 0 <= h < 2 && addr in halves[h].table ==> (Hit(addr, h) <==> Waiting(addr, h) == 0)
    }
  }

  function Empty(size: nat): Spad { Spad(size, [Half(map[], 0), Half(map[], 0)]) }

  /** What each operation does to the fills an address waits for. */
  lemma ReservedWaits(s: Spad, addr: nat, h: nat, size: nat, count: nat)
    requires s.Valid() && h < 2 && s.Reserved(addr, h, size, count).Ok? && count > 0
    ensures var r := s.Reserved(addr, h, size, count).value;
      && r.Valid() && (s.Settled() ==> r.Settled()) && s.Waiting(addr, h) == 0
      && forall a: nat, g: nat ::
        g < 2 ==> r.Waiting(a, g) == s.Waiting(a, g) + if a == addr && g == h then count else 0
  {
  }

  lemma CountedUpWaits(s: Spad, addr: nat, h: nat)
    requires s.Valid() && h < 2 && s.CountedUp(addr, h).Ok?
    ensures var r := s.CountedUp(addr, h).value;
      && r.Valid() && (s.Settled() ==> r.Settled())
      && forall a: nat, g: nat :: g < 2 ==> r.Waiting(a, g) == s.Waiting(a, g) + if a == addr && g == h then 1 else 0
  {
  }

  /** Filling goes wrong only where nothing is waited for. */
  lemma FilledWaits(s: Spad, addr: nat, h: nat)
    requires s.Settled() && h < 2
    ensures s.Filled(addr, h).Ok? <==> s.Waiting(addr, h) > 0
    ensures s.Filled(addr, h).Ok? ==> var r := s.Filled(addr, h).value;
      && r.Settled()
      && forall a: nat, g: nat :: g < 2 ==> r.Waiting(a, g) == s.Waiting(a, g) - if a == addr && g == h then 1 else 0
  {
    if s.Allocated(addr, h) { assert s.Hit(addr, h) <==> s.Waiting(addr, h) == 0; }
  }

  class Sram {
    const size: nat
    var tables: seq<map<nat, Entry>>
    var used: seq<nat>

    predicate Valid()
      reads this
    {
      |tables| == 2 == |used|
    }

    function State(): (s: Spad)
      reads this
      requires Valid()
      ensures s.Valid()
    {
      Spad(size, [Half(tables[0], used[0]), Half(tables[1], used[1])])
    }

    constructor (size: nat)
      ensures Valid() && State() == Empty(size)
    {
      this.size := size;
      tables, used := [map[], map[]], [0, 0];
    }

    method CheckHit(addr: nat, h: nat) returns (hit: bool)
      requires Valid() && h < 2
      ensures hit == State().Hit(addr, h)
    {
      if addr !in tables[h] { return false; }
      hit := tables[h][addr].valid;
    }

    method Flush(h: nat)
      requires Valid() && h < 2
      modifies this
      ensures Valid() && State() == old(State()).Flushed(h)
    {
      used := used[h := 0];
      tables := tables[h := map[]];
    }

    method Reserve(addr: nat, h: nat, bytes: nat, count: nat) returns (r: Outcome<()>)
      requires Valid() && h < 2
      modifies this
      ensures Valid()
      ensures match old(State()).Reserved(addr, h, bytes, count)
        case Ok(s) => r.Ok? && State() == s
        case Failed(why) => r == Failed(why) && State() == old(State())
    {
      if addr in tables[h] { return Failed(Occupied); }
      if used[h] + bytes > size / 2 { return Failed(Full); }
      used := used[h := used[h] + bytes];
      var table: map<nat, Entry> := tables[h][addr := Entry(false, bytes, count)];
      tables := tables[h := table];
      r := Ok(());
    }

    method Fill(addr: nat, h: nat) returns (r: Outcome<()>)
      requires Valid() && h < 2
      modifies this
      ensures Valid()
      ensures match old(State()).Filled(addr, h)
        case Ok(s) => r.Ok? && State() == s
        case Failed(why) => r == Failed(why) && State() == old(State())
    {
      if addr !in tables[h] { return Failed(Lost); }
      var e := tables[h][addr];
      if e.remain == 0 || e.valid { return Failed(Unexpected); }
      e := e.(remain := e.remain - 1);
      if e.remain == 0 { e := e.(valid := true); }
      var table: map<nat, Entry> := tables[h][addr := e];
      tables := tables[h := table];
      r := Ok(());
    }

    method CountUp(addr: nat, h: nat) returns (r: Outcome<()>)
      requires Valid() && h < 2
      modifies this
      ensures Valid()
      ensures match old(State()).CountedUp(addr, h)
        case Ok(s) => r.Ok? && State() == s
        case Failed(why) => r == Failed(why) && State() == old(State())
    {
      if addr !in tables[h] { return Failed(Lost); }
      var e := tables[h][addr];
      e := e.(remain := e.remain + 1);
      if e.valid { e := e.(valid := false); }
      var table: map<nat, Entry> := tables[h][addr := e];
      tables := tables[h := table];
      r := Ok(());
    }
  }
}
