/** Address layouts: the memory simulator's configurable order of channel, rank, bankgroup, bank, row and column,
    given as a string of twelve letters, and the positions and widths of the fields that follow from it and from the
    sizes of the memory. */
module AddressCodec {
  import opened Bits

  datatype Option<T> = None | Some(value: T)

  datatype Field = Ch | Ra | Bg | Ba | Ro | Co

  datatype Address = Address(channel: nat, rank: nat, bankgroup: nat, bank: nat, row: nat, column: nat) {
    function Get(f: Field): nat {
      match f
      case Ch => channel
      case Ra => rank
      case Bg => bankgroup
      case Ba => bank
      case Ro => row
      case Co => column
    }
  }

  /** Sizes of the memory; `request` is the number of bytes of a request. */
  datatype Sizes = Sizes(
    channels: nat, ranks: nat, bankgroups: nat, banks: nat, rows: nat, columns: nat, burst: nat, request: nat)
  {
    predicate Valid() { LogBase2(burst) <= LogBase2(columns) }

    function Width(f: Field): nat
      requires Valid()
    {
      match f
      case Ch => LogBase2(channels)
      case Ra => LogBase2(ranks)
      case Bg => LogBase2(bankgroups)
      case Ba => LogBase2(banks)
      case Ro => LogBase2(rows)
      case Co => LogBase2(columns) - LogBase2(burst)
    }
  }

  datatype Layout = Layout(shift: nat, pos: map<Field, nat>, sizes: Sizes) {
    predicate Valid() { sizes.Valid() && forall f :: f in pos }

    function Width(f: Field): nat
      requires Valid()
    {
      sizes.Width(f)
    }

    function Total(): nat
      requires Valid()
    {
      Width(Ch) + Width(Ra) + Width(Bg) + Width(Ba) + Width(Ro) + Width(Co)
    }

    /** Position `i`, counted above the shift, belongs to the field. */
    predicate In(f: Field, i: nat)
      requires Valid()
    {
      pos[f] <= i < pos[f] + Width(f)
    }

    predicate Held(i: nat)
      requires Valid()
    {
      In(Ch, i) || In(Ra, i) || In(Bg, i) || In(Ba, i) || In(Ro, i) || In(Co, i)
    }

    /** The fields cover the positions below the total, each once. */
    ghost predicate Tiles()
      requires Valid()
    {
      && (forall f, g, i: nat :: In(f, i) && In(g, i) ==> f == g)
      && (forall i: nat :: Held(i) <==> i < Total())
    }
  }

  // ---- the mapping string ----

  function FieldOf(token: string): Option<Field> {
    if token == "ch" then Some(Ch) else if token == "ra" then Some(Ra) else if token == "bg" then Some(Bg)
    else if token == "ba" then Some(Ba) else if token == "ro" then Some(Ro) else if token == "co" then Some(Co)
    else None
  }

  /** The mapping names the fields of `order`, most significant first. */
  ghost predicate Spells(mapping: string, order: seq<Field>) {
    |mapping| == 12 && |order| == 6 && forall i :: 0 <= i < 6 ==> FieldOf(mapping[2 * i..2 * i + 2]) == Some(order[i])
  }

  ghost predicate EachOnce(order: seq<Field>) {
    && |order| == 6
    && (forall f: Field :: f in order)
    && (forall i, j :: 0 <= i < j < 6 ==> order[i] != order[j])
  }

  function WidthSum(order: seq<Field>, s: Sizes): nat
    requires s.Valid()
  {
    if order == [] then 0 else s.Width(order[0]) + WidthSum(order[1..], s)
  }

  /** Positions grow from the last field of the order to the first. */
  ghost predicate Ordered(l: Layout, order: seq<Field>)
    requires l.Valid()
  {
    EachOnce(order) && forall i :: 0 <= i < 6 ==> l.pos[order[i]] == WidthSum(order[i + 1..], l.sizes)
  }

  lemma {:induction false} SmallImage(order: seq<Field>)
    ensures |set f | f in order| <= |order|
    ensures |set f | f in order| == |order| ==> forall i, j :: 0 <= i < j < |order| ==> order[i] != order[j]
  {
    if order != [] {
      var init, last := order[..|order| - 1], order[|order| - 1];
      SmallImage(init);
      assert order == init + [last];
      assert (set f | f in order) == (set f | f in init) + {last};
    }
  }

  /** Six names that leave no field out name each once. */
  lemma AllMeansOnce(order: seq<Field>)
    requires |order| == 6 && forall f: Field :: f in order
    ensures EachOnce(order)
  {
    var all := {Ch, Ra, Bg, Ba, Ro, Co};
    forall f: Field ensures f in all { assert f.Ch? || f.Ra? || f.Bg? || f.Ba? || f.Ro? || f.Co?; }
    assert (set f | f in order) == all;
    SmallImage(order);
  }

  /** The positions given to an order's fields, the last one first. */
  function Positions(order: seq<Field>, s: Sizes): map<Field, nat>
    requires s.Valid()
  {
    if order == [] then map[] else Positions(order[1..], s)[order[0] := WidthSum(order[1..], s)]
  }

  lemma {:induction false} PositionsNamed(order: seq<Field>, s: Sizes)
    requires s.Valid()
    ensures Positions(order, s).Keys == set f | f in order
  {
    hide WidthSum;
    if order != [] {
      PositionsNamed(order[1..], s);
      assert order == [order[0]] + order[1..];
    }
  }

  lemma {:induction false} PositionsAre(order: seq<Field>, s: Sizes)
    requires s.Valid()
    ensures Positions(order, s).Keys == set f | f in order
    ensures (forall i, j :: 0 <= i < j < |order| ==> order[i] != order[j]) ==>
      forall i :: 0 <= i < |order| ==> Positions(order, s)[order[i]] == WidthSum(order[i + 1..], s)
  {
    PositionsNamed(order, s);
    if order != [] {
      PositionsAre(order[1..], s);
      hide WidthSum;
      assert forall i :: 1 <= i < |order| ==> order[i + 1..] == order[1..][i..];
    }
  }

  function Tokens(mapping: string): seq<string>
    requires |mapping| == 12
  {
    seq(6, i requires 0 <= i < 6 => mapping[2 * i..2 * i + 2])
  }

  predicate AllNamed(tokens: seq<string>) { forall i :: 0 <= i < |tokens| ==> FieldOf(tokens[i]).Some? }

  function Named(tokens: seq<string>): seq<Field>
    requires AllNamed(tokens)
  {
    seq(|tokens|, i requires 0 <= i < |tokens| => FieldOf(tokens[i]).value)
  }

  lemma SpellsIsNamed(mapping: string, order: seq<Field>)
    requires |mapping| == 12
    ensures Spells(mapping, order) <==> AllNamed(Tokens(mapping)) && order == Named(Tokens(mapping))
  {
    var tokens := Tokens(mapping);
    if Spells(mapping, order) { assert forall i :: 0 <= i < 6 ==> FieldOf(tokens[i]) == Some(order[i]); }
  }

  /** Takes the tokens from the back. */
  method AssignPositions(tokens: seq<string>, s: Sizes) returns (r: Option<map<Field, nat>>)
    requires s.Valid()
    ensures r.Some? <==> AllNamed(tokens)
    ensures r.Some? ==> r.value == Positions(Named(tokens), s)
  {
    hide WidthSum, Positions, LogBase2;
    var fields := tokens;
    var pos: map<Field, nat>, at: nat := map[], 0;
    NoPositions(s);
    assert tokens[|tokens|..] == [] && Named(tokens[|tokens|..]) == [];
    while fields != []
      invariant |fields| <= |tokens| && fields == tokens[..|fields|]
      invariant AllNamed(tokens[|fields|..])
      invariant pos == Positions(Named(tokens[|fields|..]), s) && at == WidthSum(Named(tokens[|fields|..]), s)
      decreases |fields|
    {
      ghost var done := tokens[|fields|..];
      var token := fields[|fields| - 1];
      fields := fields[..|fields| - 1];
      var field := FieldOf(token);
      if field.None? {
        assert tokens[|fields|] == token;
        return None;
      }
      assert tokens[|fields|..] == [token] + done;
      assert Named(tokens[|fields|..]) == [field.value] + Named(done);
      PositionsStep(field.value, Named(done), s);
      pos := pos[field.value := at];
      at := at + s.Width(field.value);
    }
    assert tokens[0..] == tokens;
    r := Some(pos);
  }

  /** A layout results exactly when the mapping spells each of the six fields once, and then each field lies right above
      the fields spelled after it. */
  method SetAddressMapping(mapping: string, s: Sizes) returns (r: Option<Layout>)
    requires s.Valid()
    ensures r.Some? <==> exists order :: Spells(mapping, order) && EachOnce(order)
    ensures r.Some? ==> r.value.Valid() && r.value.sizes == s && r.value.shift == LogBase2(s.request)
    ensures r.Some? ==> exists order :: Spells(mapping, order) && Ordered(r.value, order)
  {
    hide WidthSum, Positions, LogBase2, EachOnce, Spells, Tokens, Named, AllNamed, Ordered;
    if |mapping| != 12 {
      TooShort(mapping);
      return None;
    }
    var tokens := Tokens(mapping);
    forall order
      ensures Spells(mapping, order) <==> AllNamed(tokens) && order == Named(tokens)
    {
      SpellsIsNamed(mapping, order);
    }
    var pos := AssignPositions(tokens, s);
    if pos.None? { return None; }
    ghost var order := Named(tokens);
    PositionsAre(order, s);
    if !(Ch in pos.value && Ra in pos.value && Bg in pos.value && Ba in pos.value && Ro in pos.value
         && Co in pos.value) {
      if EachOnce(order) { NamesAll(order); }
      return None;
    }
    forall f: Field ensures f in order { assert f in pos.value by { FieldIs(f); } }
    NamedLength(tokens, mapping);
    AllMeansOnce(order);
    r := Some(Layout(LogBase2(s.request), pos.value, s));
    OrderedBy(r.value, order);
    assert Spells(mapping, order);
  }

  lemma TooShort(mapping: string)
    requires |mapping| != 12
    ensures forall order :: !Spells(mapping, order)
  {
  }

  lemma FieldIs(f: Field)
    ensures f in {Ch, Ra, Bg, Ba, Ro, Co}
  {
  }

  lemma NamedLength(tokens: seq<string>, mapping: string)
    requires |mapping| == 12 && tokens == Tokens(mapping) && AllNamed(tokens)
    ensures |Named(tokens)| == 6
  {
  }

  lemma OrderedBy(l: Layout, order: seq<Field>)
    requires l.Valid() && EachOnce(order) && l.pos == Positions(order, l.sizes)
    ensures Ordered(l, order)
  {
    PositionsAre(order, l.sizes);
  }

  lemma NamesAll(order: seq<Field>)
    requires EachOnce(order)
    ensures forall f: Field :: f in order
  {
  }

  lemma NoPositions(s: Sizes)
    requires s.Valid()
    ensures Positions([], s) == map[] && WidthSum([], s) == 0
  {
  }

  lemma PositionsStep(f: Field, order: seq<Field>, s: Sizes)
    requires s.Valid()
    ensures Positions([f] + order, s) == Positions(order, s)[f := WidthSum(order, s)]
    ensures WidthSum([f] + order, s) == WidthSum(order, s) + s.Width(f)
  {
    assert ([f] + order)[1..] == order;
  }

  // ---- the fields tile the address ----

  lemma {:induction false} WidthSumFalls(order: seq<Field>, s: Sizes, i: nat, j: nat)
    requires s.Valid() && i <= j <= |order|
    ensures WidthSum(order[i..], s) >= WidthSum(order[j..], s)
    decreases j - i
  {
    if i < j {
      WidthSumFalls(order, s, i + 1, j);
      assert order[i..][1..] == order[i + 1..];
    }
  }

  lemma TopOf(order: seq<Field>, s: Sizes, i: nat)
    requires s.Valid() && i < |order|
    ensures WidthSum(order[i..], s) == s.Width(order[i]) + WidthSum(order[i + 1..], s)
  {
    assert order[i..][1..] == order[i + 1..];
  }

  /** The field of the order that holds a position below the total. */
  lemma {:induction false} Holder(order: seq<Field>, s: Sizes, n: nat, i: nat) returns (k: nat)
    requires s.Valid() && n <= |order| && i < WidthSum(order[n..], s)
    ensures n <= k < |order| && WidthSum(order[k + 1..], s) <= i < WidthSum(order[k + 1..], s) + s.Width(order[k])
    decreases |order| - n
  {
    assert n < |order|;
    assert order[n..][1..] == order[n + 1..];
    if i < WidthSum(order[n + 1..], s) { k := Holder(order, s, n + 1, i); } else { k := n; }
  }

  ghost function WidthOf(fields: set<Field>, s: Sizes): nat
    requires s.Valid()
  {
    (if Ch in fields then s.Width(Ch) else 0) + (if Ra in fields then s.Width(Ra) else 0)
    + (if Bg in fields then s.Width(Bg) else 0) + (if Ba in fields then s.Width(Ba) else 0)
    + (if Ro in fields then s.Width(Ro) else 0) + (if Co in fields then s.Width(Co) else 0)
  }

  lemma WidthOfMore(fields: set<Field>, f: Field, s: Sizes)
    requires s.Valid() && f !in fields
    ensures WidthOf(fields + {f}, s) == WidthOf(fields, s) + s.Width(f)
  {
    hide LogBase2;
    match f
    case Ch => case Ra => case Bg => case Ba => case Ro => case Co =>
  }

  lemma {:induction false} SumOverDistinct(order: seq<Field>, s: Sizes)
    requires s.Valid() && forall i, j :: 0 <= i < j < |order| ==> order[i] != order[j]
    ensures WidthSum(order, s) == WidthOf((set f | f in order), s)
  {
    hide WidthOf, LogBase2;
    if order == [] {
      NoWidth(s);
      assert (set f | f in order) == {};
    } else {
      SumOverDistinct(order[1..], s);
      assert order == [order[0]] + order[1..];
      assert order[0] !in order[1..];
      assert (set f | f in order) == (set f | f in order[1..]) + {order[0]};
      WidthOfMore((set f | f in order[1..]), order[0], s);
    }
  }

  lemma NoWidth(s: Sizes)
    requires s.Valid()
    ensures WidthOf({}, s) == 0
  {
  }

  lemma OrderedTotal(l: Layout, order: seq<Field>)
    requires l.Valid() && Ordered(l, order)
    ensures WidthSum(order, l.sizes) == l.Total()
  {
    hide LogBase2;
    NamesAll(order);
    SumOverDistinct(order, l.sizes);
  }

  lemma FieldsDoNotMeet(l: Layout, order: seq<Field>, f: Field, g: Field, i: nat)
    requires l.Valid() && Ordered(l, order) && l.In(f, i) && l.In(g, i)
    ensures f == g
  {
    hide LogBase2, WidthSum, Sizes.Width;
    var s := l.sizes;
    NamesAll(order);
    assert f in order;
    var a :| 0 <= a < 6 && order[a] == f;
    assert g in order;
    var b :| 0 <= b < 6 && order[b] == g;
    TopOf(order, s, a);
    TopOf(order, s, b);
    if a < b { WidthSumFalls(order, s, a + 1, b); }
    if b < a { WidthSumFalls(order, s, b + 1, a); }
  }

  lemma FieldsStayBelow(l: Layout, order: seq<Field>, f: Field, i: nat)
    requires l.Valid() && Ordered(l, order) && l.In(f, i)
    ensures i < WidthSum(order, l.sizes)
  {
    hide LogBase2, WidthSum, Sizes.Width;
    NamesAll(order);
    assert f in order;
    var a :| 0 <= a < 6 && order[a] == f;
    TopOf(order, l.sizes, a);
    WidthSumFalls(order, l.sizes, 0, a);
    assert order[0..] == order;
  }

  lemma IsHeld(l: Layout, f: Field, i: nat)
    requires l.Valid()
    ensures l.In(f, i) ==> l.Held(i)
  {
  }

  lemma OrderedTiles(l: Layout, order: seq<Field>)
    requires l.Valid() && Ordered(l, order)
    ensures l.Tiles()
  {
    hide LogBase2, WidthSum, Sizes.Width, Layout.In;
    OrderedTotal(l, order);
    assert order[0..] == order;
    forall f, g, i: nat | l.In(f, i) && l.In(g, i) ensures f == g { FieldsDoNotMeet(l, order, f, g, i); }
    forall i: nat ensures l.Held(i) <==> i < WidthSum(order, l.sizes) {
      if i < WidthSum(order, l.sizes) {
        var k := Holder(order, l.sizes, 0, i);
        InAt(l, order, k, i);
        IsHeld(l, order[k], i);
      }
      if l.Held(i) {
        var f :| l.In(f, i);
        FieldsStayBelow(l, order, f, i);
      }
    }
  }

  lemma InAt(l: Layout, order: seq<Field>, k: nat, i: nat)
    requires l.Valid() && Ordered(l, order) && k < 6
    requires WidthSum(order[k + 1..], l.sizes) <= i < WidthSum(order[k + 1..], l.sizes) + l.Width(order[k])
    ensures l.In(order[k], i)
  {
  }
}
