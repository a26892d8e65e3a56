/** Encoding and decoding addresses: the two directions undo each other, the cores' fixed layout agrees with the
    memory's configured one, the parameters of PIM commands survive the trip from core to controller, and
    consecutive blocks of memory spread over the channels. */
module AddressRoundTrips {
  import opened Bits
  import opened AddressCodec

  // ---- the memory's codec ----

  /** One field, masked and moved to its place. */
  function Part(l: Layout, a: Address, f: Field): nat
    requires l.Valid()
  {
    Shl(And(a.Get(f), Mask(l.Width(f))), l.pos[f])
  }

  function MakeAddress(l: Layout, a: Address): nat
    requires l.Valid()
  {
    Shl(Or(Or(Or(Or(Or(Or(0, Part(l, a, Ch)), Part(l, a, Ra)), Part(l, a, Bg)), Part(l, a, Ba)), Part(l, a, Ro)),
           Part(l, a, Co)), l.shift)
  }

  function FieldAt(l: Layout, hex: nat, f: Field): nat
    requires l.Valid()
  {
    And(Shr(Shr(hex, l.shift), l.pos[f]), Mask(l.Width(f)))
  }

  function AddressMapping(l: Layout, hex: nat): Address
    requires l.Valid()
  {
    Address(FieldAt(l, hex, Ch), FieldAt(l, hex, Ra), FieldAt(l, hex, Bg), FieldAt(l, hex, Ba), FieldAt(l, hex, Ro),
            FieldAt(l, hex, Co))
  }

  lemma MappingGets(l: Layout, hex: nat, f: Field)
    requires l.Valid()
    ensures AddressMapping(l, hex).Get(f) == FieldAt(l, hex, f)
  {
  }

  lemma PartBit(l: Layout, a: Address, f: Field, i: nat)
    requires l.Valid()
    ensures Bit(Part(l, a, f), i) <==> l.In(f, i) && Bit(a.Get(f), i - l.pos[f])
  {
    hide Bit, Shl, And, Mask;
    BitShl(And(a.Get(f), Mask(l.Width(f))), l.pos[f], i);
    if i >= l.pos[f] {
      BitAnd(a.Get(f), Mask(l.Width(f)), i - l.pos[f]);
      BitMask(l.Width(f), i - l.pos[f]);
    }
  }

  lemma FieldBit(l: Layout, hex: nat, f: Field, j: nat)
    requires l.Valid()
    ensures Bit(FieldAt(l, hex, f), j) <==> j < l.Width(f) && Bit(hex, l.shift + l.pos[f] + j)
  {
    hide Bit, Shr, And, Mask;
    BitAnd(Shr(Shr(hex, l.shift), l.pos[f]), Mask(l.Width(f)), j);
    BitMask(l.Width(f), j);
    BitShr(Shr(hex, l.shift), l.pos[f], j);
    BitShr(hex, l.shift, j + l.pos[f]);
  }

  lemma OrBit(l: Layout, a: Address, i: nat)
    requires l.Valid()
    ensures Bit(Or(Or(Or(Or(Or(Or(0, Part(l, a, Ch)), Part(l, a, Ra)), Part(l, a, Bg)), Part(l, a, Ba)),
                      Part(l, a, Ro)), Part(l, a, Co)), i) <==>
      || Bit(Part(l, a, Ch), i) || Bit(Part(l, a, Ra), i) || Bit(Part(l, a, Bg), i)
      || Bit(Part(l, a, Ba), i) || Bit(Part(l, a, Ro), i) || Bit(Part(l, a, Co), i)
  {
    hide Bit, Part;
    var a1 := Or(0, Part(l, a, Ch));
    var a2 := Or(a1, Part(l, a, Ra));
    var a3 := Or(a2, Part(l, a, Bg));
    var a4 := Or(a3, Part(l, a, Ba));
    var a5 := Or(a4, Part(l, a, Ro));
    assert a1 == Part(l, a, Ch);
    hide Or;
    BitOr(a1, Part(l, a, Ra), i);
    BitOr(a2, Part(l, a, Bg), i);
    BitOr(a3, Part(l, a, Ba), i);
    BitOr(a4, Part(l, a, Ro), i);
    BitOr(a5, Part(l, a, Co), i);
  }

  /** Inside a field the address has that field's bits. */
  lemma MadeBit(l: Layout, a: Address, f: Field, i: nat)
    requires l.Valid() && l.Tiles() && l.In(f, i)
    ensures Bit(MakeAddress(l, a), l.shift + i) <==> Bit(a.Get(f), i - l.pos[f])
  {
    hide Bit, Or, Part, Shl, Layout.In, LogBase2;
    BitShl(Or(Or(Or(Or(Or(Or(0, Part(l, a, Ch)), Part(l, a, Ra)), Part(l, a, Bg)), Part(l, a, Ba)), Part(l, a, Ro)),
              Part(l, a, Co)), l.shift, l.shift + i);
    OrBit(l, a, i);
    PartBit(l, a, f, i);
    forall g: Field | g != f ensures !Bit(Part(l, a, g), i) { PartBit(l, a, g, i); }
  }

  /** Below the shift and above the fields there is nothing. */
  lemma MadeNothing(l: Layout, a: Address, i: nat)
    requires l.Valid() && l.Tiles() && (i < l.shift || i >= l.shift + l.Total())
    ensures !Bit(MakeAddress(l, a), i)
  {
    hide Bit, Or, Part, Shl, Layout.In, LogBase2;
    BitShl(Or(Or(Or(Or(Or(Or(0, Part(l, a, Ch)), Part(l, a, Ra)), Part(l, a, Bg)), Part(l, a, Ba)), Part(l, a, Ro)),
              Part(l, a, Co)), l.shift, i);
    if i >= l.shift {
      var j := i - l.shift;
      OrBit(l, a, j);
      assert !l.Held(j);
      forall g: Field ensures !Bit(Part(l, a, g), j) { PartBit(l, a, g, j); IsHeld(l, g, j); }
    }
  }

  /** Decoding an encoded address gives back each field, reduced to its width. */
  lemma DecodeOfEncode(l: Layout, a: Address, f: Field)
    requires l.Valid() && l.Tiles()
    ensures AddressMapping(l, MakeAddress(l, a)).Get(f) == a.Get(f) % Pow2(l.Width(f))
  {
    hide Bit, MakeAddress, FieldAt, And, LogBase2;
    var got, want := FieldAt(l, MakeAddress(l, a), f), And(a.Get(f), Mask(l.Width(f)));
    MappingGets(l, MakeAddress(l, a), f);
    MaskedIsRemainder(a.Get(f), l.Width(f));
    forall j: nat ensures Bit(got, j) <==> Bit(want, j) {
      FieldBit(l, MakeAddress(l, a), f, j);
      BitAnd(a.Get(f), Mask(l.Width(f)), j);
      BitMask(l.Width(f), j);
      if j < l.Width(f) { MadeBit(l, a, f, l.pos[f] + j); }
    }
    SameBits(got, want);
  }

  predicate InRange(l: Layout, a: Address)
    requires l.Valid()
  {
    forall f: Field :: a.Get(f) < Pow2(l.Width(f))
  }

  /** An address survives encoding and decoding exactly when every field is in range. */
  lemma RoundTripExactlyInRange(l: Layout, a: Address)
    requires l.Valid() && l.Tiles()
    ensures AddressMapping(l, MakeAddress(l, a)) == a <==> InRange(l, a)
  {
    hide LogBase2, Pow2;
    var b := AddressMapping(l, MakeAddress(l, a));
    forall f: Field ensures b.Get(f) == a.Get(f) <==> a.Get(f) < Pow2(l.Width(f)) {
      hide AddressMapping, MakeAddress;
      DecodeOfEncode(l, a, f);
      SmallRemainder(a.Get(f), Pow2(l.Width(f)));
    }
    hide AddressMapping, MakeAddress;
    SameAddress(a, b);
  }

  lemma SmallRemainder(x: nat, p: nat)
    requires p > 0
    ensures x % p == x <==> x < p
  {
  }

  lemma SameAddress(a: Address, b: Address)
    ensures a == b <==> forall f: Field :: b.Get(f) == a.Get(f)
  {
    if forall f: Field :: b.Get(f) == a.Get(f) {
      assert b.Get(Ch) == a.Get(Ch) && b.Get(Ra) == a.Get(Ra) && b.Get(Bg) == a.Get(Bg);
      assert b.Get(Ba) == a.Get(Ba) && b.Get(Ro) == a.Get(Ro) && b.Get(Co) == a.Get(Co);
    }
  }

  /** An address number survives decoding and encoding exactly when it is aligned to requests and within the memory. */
  lemma EncodeOfDecode(l: Layout, hex: nat)
    requires l.Valid() && l.Tiles()
    ensures MakeAddress(l, AddressMapping(l, hex)) == hex
      <==> hex % Pow2(l.shift) == 0 && hex < Pow2(l.shift + l.Total())
  {
    hide LogBase2, MakeAddress, AddressMapping, Pow2, Bit;
    var top, made := l.shift + l.Total(), MakeAddress(l, AddressMapping(l, hex));
    BelowPow2(hex, top);
    AlignedHasNoLowBits(hex, l.shift);
    forall i: nat ensures Bit(made, i) <==> l.shift <= i < top && Bit(hex, i) {
      if l.shift <= i < top {
        assert l.Held(i - l.shift);
        var f :| l.In(f, i - l.shift);
        MadeBit(l, AddressMapping(l, hex), f, i - l.shift);
        MappingGets(l, hex, f);
        FieldBit(l, hex, f, i - l.shift - l.pos[f]);
      } else {
        MadeNothing(l, AddressMapping(l, hex), i);
      }
    }
    if NoLowBit(hex, l.shift) && NoBitFrom(hex, top) { SameBits(made, hex); }
    if made == hex { assert NoLowBit(hex, l.shift) && NoBitFrom(hex, top); }
  }

  ghost predicate NoLowBit(n: nat, w: nat) { forall i: nat :: i < w ==> !Bit(n, i) }

  lemma AlignedHasNoLowBits(n: nat, w: nat)
    ensures n % Pow2(w) == 0 <==> NoLowBit(n, w)
  {
    hide Bit, And, Pow2, Mask;
    MaskedIsRemainder(n, w);
    var m := And(n, Mask(w));
    forall i: nat ensures Bit(m, i) <==> i < w && Bit(n, i) ensures !Bit(0, i) {
      BitAnd(n, Mask(w), i);
      BitMask(w, i);
      BitOfZero(i);
    }
    if NoLowBit(n, w) { SameBits(m, 0); }
  }

  // ---- the cores' fixed layout ----

  /** Row, rank, bankgroup, bank, channel and column from the top; only the column is masked. */
  function NpuAddress(channels: nat, a: Address): nat {
    var a1 := Or(Shl(a.row, 1), a.rank);
    var a2 := Or(Shl(a1, 2), a.bankgroup);
    var a3 := Or(Shl(a2, 2), a.bank);
    var a4 := Or(Shl(a3, LogBase2(channels)), a.channel);
    Shl(Or(Shl(a4, 4), And(a.column, Mask(4))), 6)
  }

  const NPU_ORDER := [Ro, Ra, Bg, Ba, Ch, Co]

  /** The memory configuration the fixed layout is written for. */
  ghost predicate NpuMemory(l: Layout, channels: nat) {
    && l.Valid() && Ordered(l, NPU_ORDER) && l.shift == 6 && l.sizes.channels == channels
    && l.Width(Ra) == 1 && l.Width(Bg) == 2 && l.Width(Ba) == 2 && l.Width(Co) == 4
  }

  lemma NpuPositions(l: Layout, channels: nat)
    requires NpuMemory(l, channels)
    ensures l.Tiles() && l.Width(Ch) == LogBase2(channels)
    ensures l.pos[Co] == 0 && l.pos[Ch] == 4 && l.pos[Ba] == 4 + LogBase2(channels)
    ensures l.pos[Bg] == l.pos[Ba] + 2 && l.pos[Ra] == l.pos[Bg] + 2 && l.pos[Ro] == l.pos[Ra] + 1
  {
    hide LogBase2;
    OrderedTiles(l, NPU_ORDER);
    var s := l.sizes;
    assert NPU_ORDER[6..] == [];
    TopOf(NPU_ORDER, s, 5);
    TopOf(NPU_ORDER, s, 4);
    TopOf(NPU_ORDER, s, 3);
    TopOf(NPU_ORDER, s, 2);
    TopOf(NPU_ORDER, s, 1);
    assert l.pos[NPU_ORDER[5]] == WidthSum(NPU_ORDER[6..], s) && l.pos[NPU_ORDER[4]] == WidthSum(NPU_ORDER[5..], s);
    assert l.pos[NPU_ORDER[3]] == WidthSum(NPU_ORDER[4..], s) && l.pos[NPU_ORDER[2]] == WidthSum(NPU_ORDER[3..], s);
    assert l.pos[NPU_ORDER[1]] == WidthSum(NPU_ORDER[2..], s) && l.pos[NPU_ORDER[0]] == WidthSum(NPU_ORDER[1..], s);
  }

  /** A field put below what is already there. */
  lemma PutBelow(x: nat, v: nat, w: nat, i: nat)
    requires v < Pow2(w)
    ensures Bit(Or(Shl(x, w), v), i) <==> if i < w then Bit(v, i) else Bit(x, i - w)
  {
    hide Bit, Or, Shl, Pow2;
    BitOr(Shl(x, w), v, i);
    BitShl(x, w, i);
    if i >= w { NoHighBit(v, w, i); }
  }

  /** Row, rank, bankgroup and bank of the fixed layout. */
  lemma NpuHighBit(a: Address, i: nat)
    requires a.rank < 2 && a.bankgroup < 4 && a.bank < 4
    ensures var a2 := Or(Shl(Or(Shl(a.row, 1), a.rank), 2), a.bankgroup);
      Bit(Or(Shl(a2, 2), a.bank), i) <==>
        if i < 2 then Bit(a.bank, i) else if i < 4 then Bit(a.bankgroup, i - 2)
        else if i < 5 then Bit(a.rank, i - 4) else Bit(a.row, i - 5)
  {
    assert Pow2(1) == 2 && Pow2(2) == 4;
    hide Bit, Or, Shl, Pow2;
    var a1 := Or(Shl(a.row, 1), a.rank);
    PutBelow(Or(Shl(a1, 2), a.bankgroup), a.bank, 2, i);
    if i >= 2 { PutBelow(a1, a.bankgroup, 2, i - 2); }
    if i >= 4 { PutBelow(a.row, a.rank, 1, i - 4); }
  }

  /** Channel and column of the fixed layout, below the rest. */
  lemma NpuLowBit(rest: nat, channel: nat, c: nat, column: nat, i: nat)
    requires channel < Pow2(c)
    ensures Bit(Shl(Or(Shl(Or(Shl(rest, c), channel), 4), And(column, Mask(4))), 6), 6 + i) <==>
      if i < 4 then Bit(column, i) else if i < 4 + c then Bit(channel, i - 4) else Bit(rest, i - 4 - c)
  {
    MaskedIsRemainder(column, 4);
    assert Pow2(4) == 16;
    hide Bit, Or, Shl, Pow2, And, Mask;
    BitAnd(column, Mask(4), i);
    BitMask(4, i);
    var a4 := Or(Shl(rest, c), channel);
    BitShl(Or(Shl(a4, 4), And(column, Mask(4))), 6, 6 + i);
    PutBelow(a4, And(column, Mask(4)), 4, i);
    if i >= 4 { PutBelow(rest, channel, c, i - 4); }
  }

  /** The fixed layout, bit by bit. */
  lemma NpuBit(channels: nat, a: Address, i: nat)
    requires a.rank < 2 && a.bankgroup < 4 && a.bank < 4 && a.channel < Pow2(LogBase2(channels))
    ensures var c := LogBase2(channels);
      Bit(NpuAddress(channels, a), 6 + i) <==>
        if i < 4 then Bit(a.column, i) else if i < 4 + c then Bit(a.channel, i - 4)
        else if i < c + 6 then Bit(a.bank, i - 4 - c) else if i < c + 8 then Bit(a.bankgroup, i - c - 6)
        else if i < c + 9 then Bit(a.rank, i - c - 8) else Bit(a.row, i - c - 9)
  {
    hide Bit, Or, Shl, Pow2, LogBase2, And, Mask;
    var c := LogBase2(channels);
    var a3 := Or(Shl(Or(Shl(Or(Shl(a.row, 1), a.rank), 2), a.bankgroup), 2), a.bank);
    NpuLowBit(a3, a.channel, c, a.column, i);
    if i >= 4 + c { NpuHighBit(a, i - 4 - c); }
  }

  /** In range (the column is masked by both) the cores and the memory compute the same address. */
  lemma LayoutsAgree(l: Layout, channels: nat, a: Address)
    requires NpuMemory(l, channels) && InRange(l, a.(column := 0))
    ensures NpuAddress(channels, a) == MakeAddress(l, a)
  {
    NpuPositions(l, channels);
    FieldLimits(l, a);
    assert Pow2(1) == 2 && Pow2(2) == 4;
    hide Bit, NpuAddress, MakeAddress, LogBase2, Pow2, Layout.Tiles, NpuMemory, InRange, Sizes.Width, Address.Get;
    forall i: nat ensures Bit(NpuAddress(channels, a), i) <==> Bit(MakeAddress(l, a), i) {
      if i < 6 {
        MadeNothing(l, a, i);
        LowNpuBits(channels, a, i);
      } else {
        NpuBit(channels, a, i - 6);
        FieldBits(l, channels, a, i - 6);
      }
    }
    SameBits(NpuAddress(channels, a), MakeAddress(l, a));
  }

  lemma LowNpuBits(channels: nat, a: Address, i: nat)
    requires i < 6
    ensures !Bit(NpuAddress(channels, a), i)
  {
    hide Bit, Or, Shl, And, LogBase2;
    var a1 := Or(Shl(a.row, 1), a.rank);
    var a2 := Or(Shl(a1, 2), a.bankgroup);
    var a3 := Or(Shl(a2, 2), a.bank);
    var a4 := Or(Shl(a3, LogBase2(channels)), a.channel);
    BitShl(Or(Shl(a4, 4), And(a.column, Mask(4))), 6, i);
  }

  lemma FieldLimits(l: Layout, a: Address)
    requires l.Valid() && InRange(l, a.(column := 0))
    ensures a.channel < Pow2(l.Width(Ch)) && a.rank < Pow2(l.Width(Ra)) && a.bankgroup < Pow2(l.Width(Bg))
    ensures a.bank < Pow2(l.Width(Ba)) && a.row < Pow2(l.Width(Ro))
  {
    hide LogBase2, Pow2;
    var b := a.(column := 0);
    assert b.Get(Ch) < Pow2(l.Width(Ch)) && b.Get(Ra) < Pow2(l.Width(Ra)) && b.Get(Bg) < Pow2(l.Width(Bg));
    assert b.Get(Ba) < Pow2(l.Width(Ba)) && b.Get(Ro) < Pow2(l.Width(Ro));
  }

  /** The memory's address on that layout, bit by bit. */
  lemma FieldBits(l: Layout, channels: nat, a: Address, i: nat)
    requires NpuMemory(l, channels) && a.row < Pow2(l.Width(Ro))
    ensures var c := LogBase2(channels);
      Bit(MakeAddress(l, a), 6 + i) <==>
        if i < 4 then Bit(a.column, i) else if i < 4 + c then Bit(a.channel, i - 4)
        else if i < c + 6 then Bit(a.bank, i - 4 - c) else if i < c + 8 then Bit(a.bankgroup, i - c - 6)
        else if i < c + 9 then Bit(a.rank, i - c - 8) else Bit(a.row, i - c - 9)
  {
    NpuPositions(l, channels);
    hide Bit, MakeAddress, LogBase2, Pow2, Layout.Tiles;
    var c := LogBase2(channels);
    if i < 4 { MadeBit(l, a, Co, i); }
    else if i < 4 + c { MadeBit(l, a, Ch, i); }
    else if i < c + 6 { MadeBit(l, a, Ba, i); }
    else if i < c + 8 { MadeBit(l, a, Bg, i); }
    else if i < c + 9 { MadeBit(l, a, Ra, i); }
    else if i < c + 9 + l.Width(Ro) { MadeBit(l, a, Ro, i); }
    else {
      MadeNothing(l, a, 6 + i);
      NoHighBit(a.row, l.Width(Ro), i - c - 9);
    }
  }

  // ---- parameters of PIM commands ----

  /** The number of computations, less one, fills rank, bankgroup and bank; the column marks the last command. */
  function EncodeCompsReadres(channels: nat, ch: nat, row: nat, comps: nat, last: bool): nat
    requires 1 <= comps <= 32
  {
    var n := comps - 1;
    NpuAddress(channels, Address(ch, Shr(n, 4), And(Shr(n, 2), Mask(2)), And(n, Mask(2)), row, if last then 1 else 0))
  }

  function BankIndex(a: Address, s: Sizes): nat {
    a.rank * s.bankgroups * s.banks + a.bankgroup * s.banks + a.bank
  }

  datatype CompsReadres = CompsReadres(channel: nat, row: nat, comps: nat, last: bool)

  function DecodePIMTransaction(l: Layout, hex: nat): CompsReadres
    requires l.Valid()
  {
    var a := AddressMapping(l, hex);
    CompsReadres(a.channel, a.row, BankIndex(a, l.sizes) + 1, a.column == 1)
  }

  /** A header carries two binary logarithms: computations in the column, results in rank, bankgroup and bank. */
  function EncodePimHeader(channels: nat, ch: nat, row: nat, comps: nat, readres: nat): nat {
    var n := LogBase2(readres);
    NpuAddress(channels, Address(ch, n / 16, And(n / 4, Mask(2)), n % 4, row, LogBase2(comps)))
  }

  datatype Header = Deprecated | Header(channel: nat, row: nat, comps: nat, readres: nat)

  function DecodePimHeader(l: Layout, hex: nat): Header
    requires l.Valid() && l.Width(Co) > 0
  {
    var a, bits := AddressMapping(l, hex), l.Width(Co) - 1;
    if Shr(a.column, bits) == 1 then Deprecated
    else Header(a.channel, a.row, Shl(1, And(a.column, Mask(bits))), Shl(1, BankIndex(a, l.sizes)))
  }

  lemma SizesOf(l: Layout, channels: nat, a: Address)
    requires NpuMemory(l, channels) && a.channel < Pow2(LogBase2(channels)) && a.row < Pow2(l.Width(Ro))
    requires a.rank < 2 && a.bankgroup < 4 && a.bank < 4 && a.column < 16
    ensures AddressMapping(l, NpuAddress(channels, a)) == a
  {
    NpuPositions(l, channels);
    assert Pow2(1) == 2 && Pow2(2) == 4 && Pow2(4) == 16;
    hide NpuAddress, MakeAddress, AddressMapping, LogBase2, Pow2, Layout.Tiles, NpuMemory, Ordered;
    forall f: Field ensures a.Get(f) < Pow2(l.Width(f)) && a.(column := 0).Get(f) < Pow2(l.Width(f)) {
      match f case Ch => case Ra => case Bg => case Ba => case Ro => case Co =>
    }
    LayoutsAgree(l, channels, a);
    RoundTripExactlyInRange(l, a);
  }

  lemma ShrTwo(n: nat)
    ensures Shr(n, 2) == n / 2 / 2 == n / 4
  {
    assert Shr(n, 2) == Shr(n / 2, 1) == Shr(n / 2 / 2, 0);
  }

  lemma LowBits(n: nat)
    ensures Shr(n, 4) == n / 16 && Shr(n, 2) == n / 4 && And(n, Mask(2)) == n % 4 && And(n / 4, Mask(2)) == (n / 4) % 4
  {
    MaskedIsRemainder(n, 2);
    MaskedIsRemainder(n / 4, 2);
    assert Pow2(2) == 4;
    ShrTwo(n);
    ShrTwo(Shr(n, 2));
    assert Shr(n, 4) == Shr(n / 2, 3) == Shr(n / 2 / 2, 2);
  }

  /** Whatever count, row and flag the cores encode, the memory controller reads the same back. */
  lemma CompsReadresSurvive(l: Layout, channels: nat, ch: nat, row: nat, comps: nat, last: bool)
    requires NpuMemory(l, channels) && l.sizes.bankgroups == 4 && l.sizes.banks == 4
    requires ch < Pow2(LogBase2(channels)) && row < Pow2(l.Width(Ro)) && 1 <= comps <= 32
    ensures DecodePIMTransaction(l, EncodeCompsReadres(channels, ch, row, comps, last))
         == CompsReadres(ch, row, comps, last)
  {
    hide LogBase2, NpuAddress, AddressMapping, Pow2, Ordered, Shr, And, Mask;
    var n := comps - 1;
    LowBits(n);
    var a := Address(ch, n / 16, (n / 4) % 4, n % 4, row, if last then 1 else 0);
    SizesOf(l, channels, a);
    assert n == 16 * (n / 16) + 4 * ((n / 4) % 4) + n % 4;
  }

  lemma ShlOne(k: nat)
    ensures Shl(1, k) == Pow2(k)
  {
  }

  lemma {:induction false} LogBelow(n: nat, k: nat)
    requires k > 0
    ensures n < Pow2(k) <==> LogBase2(n) < k
  {
    if n > 1 && k > 1 { LogBelow(n / 2, k - 1); }
    else if n > 1 { assert LogBase2(n) >= 1; }
  }

  lemma ColumnIsMasked(channels: nat, a: Address)
    ensures NpuAddress(channels, a) == NpuAddress(channels, a.(column := a.column % 16))
  {
    ColumnMask4(a.column);
    hide Or, Shl, And, Mask, Pow2, LogBase2;
  }

  lemma ColumnMask4(column: nat)
    ensures And(column, Mask(4)) == And(column % 16, Mask(4))
  {
    hide And, Mask;
    MaskOfFour(column);
    MaskOfFour(column % 16);
  }

  lemma MaskOfFour(x: nat)
    ensures And(x, Mask(4)) == x % 16
  {
    hide And, Mask;
    MaskedIsRemainder(x, 4);
    assert Pow2(4) == 16;
  }

  lemma HeaderFields(l: Layout, channels: nat, ch: nat, row: nat, comps: nat, readres: nat)
    requires NpuMemory(l, channels) && ch < Pow2(LogBase2(channels)) && row < Pow2(l.Width(Ro))
    requires LogBase2(readres) < 32
    ensures var n := LogBase2(readres);
      AddressMapping(l, EncodePimHeader(channels, ch, row, comps, readres)) ==
        Address(ch, n / 16, (n / 4) % 4, n % 4, row, LogBase2(comps) % 16)
  {
    hide LogBase2, NpuAddress, AddressMapping, Pow2, Ordered, And, Mask, Shl;
    var n := LogBase2(readres);
    LowBits(n);
    var a := Address(ch, n / 16, (n / 4) % 4, n % 4, row, LogBase2(comps));
    ColumnIsMasked(channels, a);
    SizesOf(l, channels, a.(column := LogBase2(comps) % 16));
  }

  lemma HighColumn(c: nat)
    requires c < 16
    ensures Shr(c, 3) == 1 <==> c >= 8
    ensures c < 8 ==> And(c, Mask(3)) == c
  {
    assert Shr(c, 3) == Shr(c / 2, 2);
    ShrTwo(c / 2);
    MaskedIsRemainder(c, 3);
    assert Pow2(3) == 8;
  }

  /** A header comes back with both counts rounded down to powers of two exactly when fewer than 256 computations are
      asked for. The logarithm keeps four bits: from 256 on half of the range is taken for a deprecated kind, and from
      65536 on the other half comes back as a header with too small a count. */
  lemma HeaderSurvives(l: Layout, channels: nat, ch: nat, row: nat, comps: nat, readres: nat)
    requires NpuMemory(l, channels) && l.sizes.bankgroups == 4 && l.sizes.banks == 4
    requires ch < Pow2(LogBase2(channels)) && row < Pow2(l.Width(Ro)) && LogBase2(readres) < 32
    ensures DecodePimHeader(l, EncodePimHeader(channels, ch, row, comps, readres)) ==
      var kept := LogBase2(comps) % 16;
      if kept < 8 then Header(ch, row, Pow2(kept), Pow2(LogBase2(readres))) else Deprecated
    ensures (DecodePimHeader(l, EncodePimHeader(channels, ch, row, comps, readres))
             == Header(ch, row, Pow2(LogBase2(comps)), Pow2(LogBase2(readres)))) <==> comps < 256
  {
    HeaderFields(l, channels, ch, row, comps, readres);
    KeptIsWhole(comps);
    hide Pow2, LogBase2, AddressMapping, EncodePimHeader, DecodePimHeader, Ordered, NpuMemory;
    HeaderDecodes(l, EncodePimHeader(channels, ch, row, comps, readres), ch, row, LogBase2(comps) % 16,
                  LogBase2(readres));
  }

  /** Four bits hold the logarithm, below 8, exactly for counts below 256. */
  lemma KeptIsWhole(comps: nat)
    ensures var log := LogBase2(comps); log % 16 < 8 && Pow2(log % 16) == Pow2(log) <==> comps < 256
  {
    hide Pow2, LogBase2;
    Powers();
    LogBelow(comps, 8);
    SamePower(LogBase2(comps) % 16, LogBase2(comps));
  }

  lemma SamePower(a: nat, b: nat)
    ensures Pow2(a) == Pow2(b) <==> a == b
  {
    LogOfPow2(a);
    LogOfPow2(b);
    hide LogBase2, Pow2;
  }

  lemma HeaderDecodes(l: Layout, hex: nat, ch: nat, row: nat, c: nat, n: nat)
    requires l.Valid() && l.Width(Co) == 4 && l.sizes.bankgroups == 4 && l.sizes.banks == 4 && c < 16
    requires AddressMapping(l, hex) == Address(ch, n / 16, (n / 4) % 4, n % 4, row, c)
    ensures DecodePimHeader(l, hex) == if c < 8 then Header(ch, row, Pow2(c), Pow2(n)) else Deprecated
  {
    hide LogBase2, AddressMapping, Pow2, And, Mask, Shl, Shr;
    assert n == 16 * (n / 16) + 4 * ((n / 4) % 4) + n % 4;
    HighColumn(c);
    ShlOne(c);
    ShlOne(n);
  }

  lemma Powers()
    ensures Pow2(8) == 256
  {
    assert Pow2(4) == 16;
  }

  // ---- spreading over channels ----

  const LOW := 6
  const COLUMN_BITS := 4
  const CHANNEL_BITS := 5

  function ChannelMask(): nat { Shl(Mask(CHANNEL_BITS), COLUMN_BITS + LOW) }
  function ColumnMask(): nat { Shl(Mask(COLUMN_BITS), LOW) }

  /** Exchanges column and channel, so that the lowest block bits choose the channel. `Without` is masking with the
      complement. */
  function SwitchCoCh(addr: nat): nat {
    var column := Shr(And(addr, Shl(ColumnMask(), CHANNEL_BITS)), CHANNEL_BITS);
    var channel := Shl(And(addr, Shr(ChannelMask(), COLUMN_BITS)), COLUMN_BITS);
    Or(Or(Without(addr, Or(ChannelMask(), ColumnMask())), column), channel)
  }

  function Without(a: nat, mask: nat): nat {
    if a == 0 then 0 else (if a % 2 == 1 && mask % 2 == 0 then 1 else 0) + 2 * Without(a / 2, mask / 2)
  }

  lemma {:induction false} BitWithout(a: nat, mask: nat, i: nat)
    ensures Bit(Without(a, mask), i) <==> Bit(a, i) && !Bit(mask, i)
  {
    if a == 0 { BitOfZero(i); } else if i > 0 { BitWithout(a / 2, mask / 2, i - 1); }
  }

  /** The channel of an address, for 2^5 channels. */
  function MaskChannel(addr: nat): nat { And(Shr(addr, COLUMN_BITS + LOW), Mask(CHANNEL_BITS)) }

  lemma MaskBits(i: nat)
    ensures Bit(ChannelMask(), i) <==> 10 <= i < 15
    ensures Bit(ColumnMask(), i) <==> 6 <= i < 10
    ensures Bit(Shl(ColumnMask(), CHANNEL_BITS), i) <==> 11 <= i < 15
    ensures Bit(Shr(ChannelMask(), COLUMN_BITS), i) <==> 6 <= i < 11
  {
    hide Bit, Shl, Shr, Mask;
    BitShl(Mask(CHANNEL_BITS), 10, i);
    BitShl(Mask(COLUMN_BITS), LOW, i);
    BitShl(ColumnMask(), CHANNEL_BITS, i);
    BitShr(ChannelMask(), COLUMN_BITS, i);
    BitShl(Mask(CHANNEL_BITS), 10, i + 4);
    if i >= 10 { BitMask(5, i - 10); }
    if i >= 6 { BitMask(4, i - 6); BitMask(5, i + 4 - 10); }
    if i >= 5 { BitShl(Mask(COLUMN_BITS), LOW, i - 5); }
    if i >= 11 { BitMask(4, i - 11); }
  }

  /** Which bit of the address each bit of the switched one is. */
  function Source(i: nat): nat {
    if 6 <= i < 10 then i + 5 else if 10 <= i < 15 then i - 4 else i
  }

  lemma SwitchedBit(addr: nat, i: nat)
    ensures Bit(SwitchCoCh(addr), i) <==> Bit(addr, Source(i))
  {
    hide Bit, Or, And, Shl, Shr, Without, ChannelMask, ColumnMask;
    var column := Shr(And(addr, Shl(ColumnMask(), CHANNEL_BITS)), CHANNEL_BITS);
    var channel := Shl(And(addr, Shr(ChannelMask(), COLUMN_BITS)), COLUMN_BITS);
    var rest := Without(addr, Or(ChannelMask(), ColumnMask()));
    BitOr(Or(rest, column), channel, i);
    BitOr(rest, column, i);
    BitWithout(addr, Or(ChannelMask(), ColumnMask()), i);
    BitOr(ChannelMask(), ColumnMask(), i);
    MaskBits(i);
    BitShr(And(addr, Shl(ColumnMask(), CHANNEL_BITS)), CHANNEL_BITS, i);
    BitAnd(addr, Shl(ColumnMask(), CHANNEL_BITS), i + 5);
    MaskBits(i + 5);
    BitShl(And(addr, Shr(ChannelMask(), COLUMN_BITS)), COLUMN_BITS, i);
    if i >= 4 {
      BitAnd(addr, Shr(ChannelMask(), COLUMN_BITS), i - 4);
      MaskBits(i - 4);
    }
  }

  /** Switching loses nothing: different addresses stay different. */
  lemma SwitchIsInjective(a: nat, b: nat)
    requires SwitchCoCh(a) == SwitchCoCh(b)
    ensures a == b
  {
    hide Bit, SwitchCoCh;
    forall i: nat ensures Bit(a, i) <==> Bit(b, i) {
      var j := if 11 <= i < 15 then i - 5 else if 6 <= i < 11 then i + 4 else i;
      assert Source(j) == i;
      SwitchedBit(a, j);
      SwitchedBit(b, j);
    }
    SameBits(a, b);
  }

  /** Nine switches are none, so every address is a switched one. */
  function Switched(a: nat, times: nat): nat {
    if times == 0 then a else SwitchCoCh(Switched(a, times - 1))
  }

  function SourceOf(i: nat, times: nat): nat
    decreases times
  {
    if times == 0 then i else SourceOf(Source(i), times - 1)
  }

  lemma {:induction false} SwitchedBits(a: nat, times: nat, i: nat)
    ensures Bit(Switched(a, times), i) <==> Bit(a, SourceOf(i, times))
  {
    hide Bit, SwitchCoCh, Source;
    if times > 0 {
      SwitchedBit(Switched(a, times - 1), i);
      SwitchedBits(a, times - 1, Source(i));
    }
  }

  lemma NineTimes(i: nat)
    ensures SourceOf(i, 9) == i
  {
    assert SourceOf(i, 9) == SourceOf(Source(Source(Source(i))), 6);
    var j := Source(Source(Source(i)));
    assert SourceOf(j, 6) == SourceOf(Source(Source(Source(j))), 3);
    var k := Source(Source(Source(j)));
    assert SourceOf(k, 3) == Source(Source(Source(k)));
  }

  lemma SwitchIsSurjective(a: nat)
    ensures SwitchCoCh(Switched(a, 8)) == a
  {
    hide Bit, SwitchCoCh, SourceOf;
    forall i: nat ensures Bit(Switched(a, 9), i) <==> Bit(a, i) {
      SwitchedBits(a, 9, i);
      NineTimes(i);
    }
    SameBits(Switched(a, 9), a);
  }

  /** The block number modulo 32 is the channel, so any 32 consecutive 64-byte blocks go to 32 different channels. */
  lemma SwitchedChannel(addr: nat)
    ensures MaskChannel(SwitchCoCh(addr)) == (addr / 64) % 32
  {
    hide Bit, SwitchCoCh, And, Shr, Mask;
    var got, want := MaskChannel(SwitchCoCh(addr)), And(Shr(addr, 6), Mask(5));
    forall i: nat ensures Bit(got, i) <==> Bit(want, i) {
      BitAnd(Shr(SwitchCoCh(addr), 10), Mask(5), i);
      BitAnd(Shr(addr, 6), Mask(5), i);
      BitMask(5, i);
      BitShr(SwitchCoCh(addr), 10, i);
      BitShr(addr, 6, i);
      SwitchedBit(addr, i + 10);
    }
    SameBits(got, want);
    MaskedIsRemainder(Shr(addr, 6), 5);
    assert Pow2(5) == 32;
    ShiftSix(addr);
  }

  lemma ShiftSix(addr: nat)
    ensures Shr(addr, 6) == addr / 64
  {
    ShrTwo(addr);
    ShrTwo(addr / 4);
    ShrTwo(addr / 16);
    assert Shr(addr, 6) == Shr(addr / 2, 5) == Shr(addr / 4, 4) == Shr(addr / 8, 3) == Shr(addr / 16, 2);
  }

  lemma BlocksSpread(block: nat, i: nat, j: nat)
    requires i < 32 && j < 32
    ensures MaskChannel(SwitchCoCh(64 * (block + i))) == MaskChannel(SwitchCoCh(64 * (block + j))) <==> i == j
  {
    hide *;
    SwitchedChannel(64 * (block + i));
    SwitchedChannel(64 * (block + j));
    assert (64 * (block + i)) / 64 == block + i && (64 * (block + j)) / 64 == block + j;
    DifferentRemainders(block + i, block + j);
  }

  lemma DifferentRemainders(x: nat, y: nat)
    requires -32 < x - y < 32
    ensures x % 32 == y % 32 <==> x == y
  {
  }
}
