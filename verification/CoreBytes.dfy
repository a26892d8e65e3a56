/** The bytes of a scratchpad half. */
module CoreBytes {
  // In every gated run each half counts exactly the bytes of its entries, and they never exceed half the scratchpad.

  import opened Scratchpads
  import opened CoreModel
  import opened CoreSafety

  ghost function Bytes(table: map<nat, Entry>): nat
    decreases |table|
  {
    if table == map[] then 0
    else
      var a :| a in table;
      table[a].size + Bytes(table - {a})
  }

  /** Any entry can be counted first. */
  lemma {:induction false} BytesBut(table: map<nat, Entry>, a: nat)
    requires a in table
    ensures Bytes(table) == table[a].size + Bytes(table - {a})
    decreases |table|
  {
    var b :| b in table && Bytes(table) == table[b].size + Bytes(table - {b});
    if b != a {
      BytesBut(table - {b}, a);
      BytesBut(table - {a}, b);
      assert table - {b} - {a} == table - {a} - {b};
    }
  }

  lemma BytesWith(table: map<nat, Entry>, a: nat, e: Entry)
    ensures Bytes(table[a := e]) == e.size + if a in table then Bytes(table) - table[a].size else Bytes(table)
  {
    BytesBut(table[a := e], a);
    if a in table {
      BytesBut(table, a);
      assert table[a := e] - {a} == table - {a};
    } else {
      assert table[a := e] - {a} == table;
    }
  }

  /** Each half holds the bytes of its entries, and room for no more than half the scratchpad. */
  ghost predicate Tight(s: Spad) {
    && s.Valid()
    && forall h | 0 <= h < 2 :: s.halves[h].used == Bytes(s.halves[h].table) <= s.size / 2
  }

  lemma ReservedIsTight(s: Spad, addr: nat, h: nat, size: nat, count: nat)
    requires Tight(s) && h < 2 && s.Reserved(addr, h, size, count).Ok?
    ensures Tight(s.Reserved(addr, h, size, count).value) && s.Reserved(addr, h, size, count).value.size == s.size
  {
    BytesWith(s.halves[h].table, addr, Entry(false, size, count));
  }

  /** Fills and counts change no sizes. */
  lemma FilledIsTight(s: Spad, addr: nat, h: nat)
    requires Tight(s) && h < 2
    ensures s.Filled(addr, h).Ok? ==> Tight(s.Filled(addr, h).value) && s.Filled(addr, h).value.size == s.size
    ensures s.CountedUp(addr, h).Ok? ==> Tight(s.CountedUp(addr, h).value) && s.CountedUp(addr, h).value.size == s.size
  {
    if s.Allocated(addr, h) {
      var t := s.halves[h].table;
      var e := t[addr];
      if s.Filled(addr, h).Ok? { BytesWith(t, addr, e.(remain := e.remain - 1, valid := e.remain == 1)); }
      BytesWith(t, addr, e.(remain := e.remain + 1, valid := false));
    }
  }

  lemma FlushedIsTight(s: Spad, h: nat)
    requires Tight(s) && h < 2
    ensures Tight(s.Flushed(h)) && s.Flushed(h).size == s.size
  {
  }

  ghost predicate BothTight(c: Core, size: nat) { Tight(c.spad) && Tight(c.acc) && c.spad.size == size == c.acc.size }

  lemma {:induction false} QueuingLeavesPads(c: Core, t: nat, instrs: seq<Instr>)
    requires HasTile(c, t) && AllQueued(c, t, instrs).Ok?
    ensures AllQueued(c, t, instrs).value.spad == c.spad && AllQueued(c, t, instrs).value.acc == c.acc
    decreases |instrs|
  {
    hide Spad.Allocated, Spad.HasRoom;
    if instrs != [] { QueuingLeavesPads(c, t, instrs[..|instrs| - 1]); }
  }

  lemma IssuedIsTight(c: Core, p: Program, size: nat)
    requires c.Shaped() && Issued(c, p).Ok? && BothTight(c, size)
    ensures BothTight(Issued(c, p).value, size)
  {
    hide AllQueued, Tight;
    if !p.skip {
      FlushedIsTight(c.spad, 1 - c.curSpad);
      FlushedIsTight(c.acc, 1 - c.curAcc);
      QueuingLeavesPads(Opened(c, p.accum), c.next, p.instrs);
    }
  }

  lemma StepIsTight(c: Core, s: Step, size: nat)
    requires Inv(c) && Allowed(c, s) && Do(c, s).Ok? && BothTight(c, size)
    ensures BothTight(Do(c, s).value, size)
  {
    hide Inv, Tight, CanIssue, CanCompute, Issued, Spad.Reserved, Spad.Filled, Spad.CountedUp, Spad.Hit, Requests;
    ShapedInv(c);
    match s
    case Issue(p) =>
      IssuedKeepsInv(c, p);
      IssuedIsTight(c, p, size);
    case Load(n) =>
      LoadedKeepsInv(c, n);
      var j := c.ld[0];
      if j.instr.InAccum() {
        if c.acc.Reserved(j.instr.dest, j.Half(), j.instr.size, n).Ok? {
          ReservedIsTight(c.acc, j.instr.dest, j.Half(), j.instr.size, n);
        }
      } else if c.spad.Reserved(j.instr.dest, j.Half(), j.instr.size, n).Ok? {
        ReservedIsTight(c.spad, j.instr.dest, j.Half(), j.instr.size, n);
      }
    case Store(n) => StoredKeepsInv(c, n);
    case Execute(u) =>
      ExecutedKeepsInv(c, u);
      var j := c.ex[0];
      FilledIsTight(c.acc, j.instr.dest, j.acc);
      if c.acc.Reserved(j.instr.dest, j.acc, j.instr.size, 1).Ok? {
        ReservedIsTight(c.acc, j.instr.dest, j.acc, j.instr.size, 1);
      }
    case Complete(u) =>
      ComputedKeepsInv(c, u);
      FilledIsTight(c.acc, c.units[u][0].instr.dest, c.units[u][0].acc);
    case Respond(i) =>
      AnsweredKeepsInv(c, i);
      FilledIsTight(c.acc, c.flying[i].dest, c.flying[i].half);
      FilledIsTight(c.spad, c.flying[i].dest, c.flying[i].half);
    case Collect =>
    case HandBack =>
  }

  lemma {:induction false} RunIsTight(c: Core, steps: seq<Step>, size: nat)
    requires Inv(c) && Legal(c, steps) && After(c, steps).Ok? && BothTight(c, size)
    ensures BothTight(After(c, steps).value, size)
    decreases |steps|
  {
    hide Inv, Do, Allowed, BothTight;
    if steps != [] {
      StepIsTight(c, steps[0], size);
      RunIsTight(Do(c, steps[0]).value, steps[1..], size);
    }
  }

  /** In every gated run: both scratchpads count exactly the bytes of their entries, at most half their size in each
      half. */
  lemma NoHalfOverflows(size: nat, vectors: nat, steps: seq<Step>)
    requires vectors > 0 && Legal(Started(size, vectors), steps) && After(Started(size, vectors), steps).Ok?
    ensures BothTight(After(Started(size, vectors), steps).value, size)
  {
    hide Legal, After, Started, BothTight, Inv;
    StartIsTight(size, vectors);
    RunIsTight(Started(size, vectors), steps, size);
  }

  lemma StartIsTight(size: nat, vectors: nat)
    requires vectors > 0
    ensures BothTight(Started(size, vectors), size)
  {
  }
}
