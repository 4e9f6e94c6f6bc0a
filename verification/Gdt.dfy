/** Segment descriptors: the scattered encoding of base, limit and attributes, the table, and its first-fit
    allocation. */
module Gdt {
  const SIZE := 256
  const DESC_BYTES := 8
  const SELECTOR_CODE := 1 * 8
  const SELECTOR_DATA := 2 * 8

  const G_4K: bv16 := 1 << 15
  const DB_32: bv16 := 1 << 14
  const PRESENT: bv16 := 1 << 7
  const DPL_0: bv16 := 0
  const S_NORMAL: bv16 := 1 << 4
  const TYPE_CODE: bv16 := 1 << 3
  const TYPE_DATA: bv16 := 0
  const TYPE_RW: bv16 := 1 << 1
  const TYPE_TSS: bv16 := 9

  const CODE_ATTR: bv16 := PRESENT | DPL_0 | S_NORMAL | TYPE_CODE | DB_32
  const DATA_ATTR: bv16 := PRESENT | DPL_0 | S_NORMAL | TYPE_DATA | TYPE_RW | DB_32
  const TSS_ATTR: bv16 := PRESENT | DPL_0 | TYPE_TSS

  datatype Desc = Desc(limit15_0: bv16, base15_0: bv16, base23_16: bv8, attr: bv16, base31_24: bv8)

  const EMPTY := Desc(0, 0, 0, 0, 0)

  // ---- what segment_desc_set stores ----

  /** More than the 20 bits of the limit field can count in bytes. */
  predicate Large(limit: bv32) {
    limit > 0xFFFFF
  }

  /** The limit in the unit the descriptor counts in. */
  function Units(limit: bv32): bv32 {
    if Large(limit) then limit / 0x1000 else limit
  }

  function LowWord(x: bv32): bv16 {
    (x & 0xFFFF) as bv16
  }

  function LowByte(x: bv32): bv8 {
    (x & 0xFF) as bv8
  }

  /** The attribute word with the top four bits of a 20-bit limit in bits 8 to 11. */
  function WithLimit(attr: bv16, units: bv32): bv16 {
    attr | ((((units >> 16) & 0xF) << 8) as bv16)
  }

  function WithG(limit: bv32, attr: bv16): bv16 {
    if Large(limit) then attr | G_4K else attr
  }

  function Encode(base: bv32, limit: bv32, attr: bv16): Desc {
    Desc(LowWord(Units(limit)), LowWord(base), LowByte(base >> 16), WithLimit(WithG(limit, attr), Units(limit)),
         LowByte(base >> 24))
  }

  // ---- what the processor reads (Intel SDM Vol. 3A, section 3.4.5) ----

  function Base(d: Desc): bv32 {
    (d.base15_0 as bv32) | ((d.base23_16 as bv32) << 16) | ((d.base31_24 as bv32) << 24)
  }

  /** Bits 8 to 11 of an attribute word, where the descriptor keeps the top of the limit. */
  function Nibble(attr: bv16): bv32 {
    ((attr >> 8) & 0xF) as bv32
  }

  function OrNibble(units: bv32, nibble: bv32): bv32 {
    units | (nibble << 16)
  }

  /** The 20-bit limit field. */
  function RawLimit(d: Desc): bv32 {
    OrNibble(d.limit15_0 as bv32, Nibble(d.attr))
  }

  predicate HasG(attr: bv16) {
    attr & G_4K != 0
  }

  /** The last byte of a segment whose last 4K page is number `n`. */
  function PageEnd(n: bv32): bv32 {
    (n << 12) | 0xFFF
  }

  /** The offset of the segment's last byte. */
  function LastByte(d: Desc): bv32 {
    if HasG(d.attr) then PageEnd(RawLimit(d)) else RawLimit(d)
  }

  /** Everything in an attribute word but the limit's four bits and G. */
  function Flags(attr: bv16): bv16 {
    attr & 0x70FF
  }

  // ---- decoding gives back what was encoded ----

  lemma BaseComesBack(base: bv32, limit: bv32, attr: bv16)
    ensures Base(Encode(base, limit, attr)) == base
  {
    hide WithLimit, WithG, Units, LowWord, LowByte;
    LowWordValue(base);
    LowByteValue(base >> 16);
    LowByteValue(base >> 24);
    ThreeParts(base);
  }

  lemma LowWordValue(x: bv32)
    ensures LowWord(x) as bv32 == x & 0xFFFF
  {
  }

  lemma LowByteValue(x: bv32)
    ensures LowByte(x) as bv32 == x & 0xFF
  {
  }

  lemma ThreeParts(x: bv32)
    ensures (x & 0xFFFF) | (((x >> 16) & 0xFF) << 16) | (((x >> 24) & 0xFF) << 24) == x
  {
  }

  /** The attribute bits come back, plus G when the limit needs it. */
  lemma FlagsComeBack(base: bv32, limit: bv32, attr: bv16)
    ensures Flags(Encode(base, limit, attr).attr) == Flags(attr)
    ensures HasG(Encode(base, limit, attr).attr) <==> Large(limit) || HasG(attr)
  {
    hide Units, WithLimit, WithG, LowWord, LowByte, Large, Flags, HasG;
    NibbleApart(Units(limit), WithG(limit, attr));
    GBit(limit, attr);
  }

  lemma NibbleApart(u: bv32, attr: bv16)
    ensures Flags(WithLimit(attr, u)) == Flags(attr)
    ensures HasG(WithLimit(attr, u)) <==> HasG(attr)
  {
  }

  lemma GBit(limit: bv32, attr: bv16)
    ensures Flags(WithG(limit, attr)) == Flags(attr) && Nibble(WithG(limit, attr)) == Nibble(attr)
    ensures HasG(WithG(limit, attr)) <==> Large(limit) || HasG(attr)
  {
    hide Large, Flags, Nibble, HasG;
    OrG(attr);
  }

  lemma OrG(attr: bv16)
    ensures Flags(attr | G_4K) == Flags(attr) && Nibble(attr | G_4K) == Nibble(attr) && HasG(attr | G_4K)
  {
  }

  /** The limit field is the limit in its unit, with the caller's attribute bits 8 to 11 or-ed over its top four. */
  lemma RawLimitStored(base: bv32, limit: bv32, attr: bv16)
    ensures RawLimit(Encode(base, limit, attr)) == OrNibble(Units(limit), Nibble(attr))
  {
    hide Units, WithLimit, WithG, LowWord, LowByte, Nibble, OrNibble;
    GBit(limit, attr);
    UnitsFit(limit);
    Joined(Units(limit), WithG(limit, attr));
  }

  /** At most 20 bits: what the descriptor can count. */
  predicate Fits(u: bv32) {
    u >> 20 == 0
  }

  lemma UnitsFit(limit: bv32)
    ensures Fits(Units(limit))
  {
    if limit > 0xFFFFF {
      assert limit / 0x1000 == limit >> 12;
    }
  }

  lemma Joined(u: bv32, attr: bv16)
    requires Fits(u)
    ensures OrNibble(LowWord(u) as bv32, Nibble(WithLimit(attr, u))) == OrNibble(u, Nibble(attr))
  {
    hide WithLimit, LowWord, Nibble;
    LowWordValue(u);
    NibbleJoined(u, attr);
    Join(u, Nibble(attr));
  }

  lemma NibbleJoined(u: bv32, attr: bv16)
    ensures Nibble(WithLimit(attr, u)) == ((u >> 16) & 0xF) | Nibble(attr)
  {
  }

  lemma Join(u: bv32, n: bv32)
    requires Fits(u)
    ensures OrNibble(u & 0xFFFF, ((u >> 16) & 0xF) | n) == OrNibble(u, n)
  {
  }

  /** The segment the caller asked for: byte-exact when small, else rounded up to the end of a 4K page. */
  function Wanted(limit: bv32): bv32 {
    if Large(limit) then PageEnd(limit >> 12) else limit
  }

  /** Or-ing `nibble` over the top of `units` changes nothing. */
  predicate Within(nibble: bv32, units: bv32) {
    nibble & !(units >> 16) == 0
  }

  /** The descriptor covers exactly the wanted segment if and only if the caller's attributes bring no limit bit of
      their own and ask for 4K granularity only where the limit does. */
  lemma LimitExactlyWhen(base: bv32, limit: bv32, attr: bv16)
    ensures LastByte(Encode(base, limit, attr)) == Wanted(limit)
       <==> Within(Nibble(attr), Units(limit)) && (HasG(attr) ==> Large(limit))
  {
    hide Encode, RawLimit, HasG, PageEnd, Large, Units, Nibble, OrNibble, Within, Wanted;
    RawLimitStored(base, limit, attr);
    FlagsComeBack(base, limit, attr);
    if Large(limit) {
      LargeLimit(limit, attr);
    } else {
      SmallLimit(limit, attr);
    }
  }

  lemma LargeLimit(limit: bv32, attr: bv16)
    requires Large(limit)
    ensures PageEnd(OrNibble(Units(limit), Nibble(attr))) == Wanted(limit) <==> Within(Nibble(attr), Units(limit))
  {
    hide PageEnd, Units, Nibble, OrNibble, Within, Large, Fits;
    UnitsLarge(limit);
    UnitsFit(limit);
    PageNibble(Units(limit), attr);
  }

  lemma UnitsLarge(limit: bv32)
    requires Large(limit)
    ensures Units(limit) == limit >> 12
  {
    assert limit / 0x1000 == limit >> 12;
  }

  lemma PageNibble(u: bv32, attr: bv16)
    requires Fits(u)
    ensures PageEnd(OrNibble(u, Nibble(attr))) == PageEnd(u) <==> Within(Nibble(attr), u)
  {
  }

  lemma SmallLimit(limit: bv32, attr: bv16)
    requires !Large(limit)
    ensures Units(limit) == limit == Wanted(limit)
    ensures OrNibble(limit, Nibble(attr)) == limit <==> Within(Nibble(attr), limit)
    ensures PageEnd(OrNibble(limit, Nibble(attr))) != limit
  {
    hide PageEnd, Nibble, OrNibble, Within;
    SmallNibble(limit, attr);
    NotPages(limit, Nibble(attr));
  }

  lemma SmallNibble(l: bv32, attr: bv16)
    requires !Large(l)
    ensures OrNibble(l, Nibble(attr)) == l <==> Within(Nibble(attr), l)
  {
  }

  /** Counted in pages, a limit of at most 20 bits comes out larger. */
  lemma NotPages(l: bv32, n: bv32)
    requires !Large(l)
    ensures PageEnd(OrNibble(l, n)) != l
  {
    assert l >> 20 == 0;
  }

  /** A segment ending at `last` holds one ending at `limit`: exactly when small, else with under a page to spare. */
  predicate Covers(last: bv32, limit: bv32) {
    limit <= last && last - limit <= 4095 && (limit <= 0xFFFFF ==> last == limit)
  }

  lemma WantedCovers(limit: bv32)
    ensures Covers(Wanted(limit), limit)
  {
    hide Wanted;
    WantedCases(limit);
    RoundUp(limit, Wanted(limit));
  }

  lemma WantedCases(limit: bv32)
    ensures Wanted(limit) == limit || Wanted(limit) == limit | 0xFFF
    ensures limit <= 0xFFFFF ==> Wanted(limit) == limit
  {
  }

  lemma RoundUp(l: bv32, w: bv32)
    requires w == l || w == l | 0xFFF
    ensures l <= w && w - l <= 4095
  {
  }

  /** What a caller that leaves bits 8 to 11 and 15 of `attr` clear gets, for every base and limit. */
  lemma DescriptorRoundTrip(base: bv32, limit: bv32, attr: bv16)
    requires attr & 0x8F00 == 0
    ensures var d := Encode(base, limit, attr);
            && Base(d) == base
            && Flags(d.attr) == attr
            && (HasG(d.attr) <==> Large(limit))
            && Covers(LastByte(d), limit)
  {
    hide Encode, Base, HasG, LastByte, Wanted, Units, Nibble, Covers, Within, Large, Flags;
    BaseComesBack(base, limit, attr);
    FlagsComeBack(base, limit, attr);
    LimitExactlyWhen(base, limit, attr);
    WantedCovers(limit);
    ClearBits(attr);
    NoNibble(Units(limit));
  }

  lemma NoNibble(u: bv32)
    ensures Within(0, u)
  {
  }

  lemma ClearBits(attr: bv16)
    requires attr & 0x8F00 == 0
    ensures Flags(attr) == attr && !HasG(attr) && Nibble(attr) == 0
  {
  }

  // ---- the table ----

  /** Slots 1 to `n - 1` are in use, and no other: slot 0 stays reserved for the processor. */
  ghost predicate UsedUpTo(t: seq<Desc>, n: nat) {
    && 3 <= n <= SIZE == |t|
    && (forall i :: 0 <= i < SIZE ==> (t[i].attr != 0 <==> 1 <= i < n))
  }

  lemma NextSlotFree(t: seq<Desc>, n: nat)
    requires UsedUpTo(t, n)
    ensures n < SIZE ==> t[n].attr == 0
  {
  }

  /** A descriptor written with the present bit is never taken for a free slot. */
  lemma PresentIsUsed(base: bv32, limit: bv32, attr: bv16)
    requires attr & PRESENT != 0
    ensures Encode(base, limit, attr).attr != 0
  {
    hide Units, LowWord, LowByte;
    PresentStays(attr, (((Units(limit) >> 16) & 0xF) << 8) as bv16);
    PresentStays(attr | G_4K, (((Units(limit) >> 16) & 0xF) << 8) as bv16);
    PresentStays(attr, G_4K);
  }

  lemma PresentStays(attr: bv16, more: bv16)
    requires attr & PRESENT != 0
    ensures (attr | more) & PRESENT != 0 && attr | more != 0
  {
  }

  /** The table as `gdt_init` leaves it. */
  ghost predicate Flat(t: seq<Desc>) {
    && |t| == SIZE
    && t[1] == Encode(0, 0xFFFF_FFFF, CODE_ATTR)
    && t[2] == Encode(0, 0xFFFF_FFFF, DATA_ATTR)
    && (forall i :: 0 <= i < SIZE && i != 1 && i != 2 ==> t[i] == EMPTY)
  }

  predicate Bit(attr: bv16, i: nat)
    requires i < 16
  {
    (attr >> i) & 1 == 1
  }

  /** A present segment of the highest privilege for 32-bit code or data, counted in 4K pages, from 0 to 4G. */
  predicate SpansAll(d: Desc) {
    && Base(d) == 0 && LastByte(d) == 0xFFFF_FFFF
    && Bit(d.attr, 7) && !Bit(d.attr, 6) && !Bit(d.attr, 5) && Bit(d.attr, 4) && Bit(d.attr, 14) && Bit(d.attr, 15)
  }

  /** Both kernel segments span the whole 4G, slot 1 executable code and slot 2 writable data that grows upwards, and
      exactly slots 1 and 2 are in use. */
  lemma FlatModel(t: seq<Desc>)
    requires Flat(t)
    ensures UsedUpTo(t, 3)
    ensures SpansAll(t[1]) && Bit(t[1].attr, 3)
    ensures SpansAll(t[2]) && !Bit(t[2].attr, 3) && !Bit(t[2].attr, 2) && Bit(t[2].attr, 1)
    ensures Flags(t[1].attr) == CODE_ATTR && Flags(t[2].attr) == DATA_ATTR
  {
    hide Encode, SpansAll, Bit, Flags;
    FlatUsed(t);
    FlatBits();
  }

  lemma FlatBits()
    ensures var d := Encode(0, 0xFFFF_FFFF, CODE_ATTR); SpansAll(d) && Bit(d.attr, 3) && Flags(d.attr) == CODE_ATTR
    ensures var d := Encode(0, 0xFFFF_FFFF, DATA_ATTR);
            SpansAll(d) && !Bit(d.attr, 3) && !Bit(d.attr, 2) && Bit(d.attr, 1) && Flags(d.attr) == DATA_ATTR
  {
  }

  class Table {
    const descs: array<Desc>

    ghost predicate Valid()
      reads this
    {
      descs.Length == SIZE
    }

    constructor ()
      ensures Valid() && fresh(descs)
    {
      descs := new Desc[SIZE](_ => EMPTY);
    }

    method SegmentDescSet(selector: nat, base: bv32, limit: bv32, attr: bv16)
      requires Valid() && selector / DESC_BYTES < SIZE
      modifies descs
      ensures Valid()
      ensures descs[..] == old(descs[..])[selector / DESC_BYTES := Encode(base, limit, attr)]
    {
      hide LowWord, LowByte, WithLimit;
      var i, units, bits := selector / DESC_BYTES, limit, attr;
      if limit > 0xFFFFF {
        bits := bits | G_4K;
        units := units / 0x1000;
      }
      assert units == Units(limit) && bits == WithG(limit, attr);
      descs[i] := descs[i].(limit15_0 := LowWord(units));
      descs[i] := descs[i].(base15_0 := LowWord(base));
      descs[i] := descs[i].(base23_16 := LowByte(base >> 16));
      descs[i] := descs[i].(attr := WithLimit(bits, units));
      descs[i] := descs[i].(base31_24 := LowByte(base >> 24));
    }

    method GdtInit()
      requires Valid()
      modifies descs
      ensures Valid() && Flat(descs[..])
    {
      hide Encode;
      var i := 0;
      while i < SIZE
        invariant 0 <= i <= SIZE
        invariant forall j :: 0 <= j < i ==> descs[..][j] == Encode(0, 0, 0)
      {
        SegmentDescSet(i * DESC_BYTES, 0, 0, 0);
        i := i + 1;
      }
      ZeroIsEmpty();
      SegmentDescSet(SELECTOR_CODE, 0, 0xFFFF_FFFF, CODE_ATTR);
      SegmentDescSet(SELECTOR_DATA, 0, 0xFFFF_FFFF, DATA_ATTR);
    }

    /** The body of `get_alloc_desc` between taking and releasing the table's mutex. */
    method GetAllocDesc() returns (selector: int)
      requires Valid()
      modifies descs
      ensures Valid()
      ensures selector == -1 ==>
                descs[..] == old(descs[..]) && forall j :: 1 <= j < SIZE ==> descs[j].attr != 0
      ensures selector != -1 ==>
                && DESC_BYTES <= selector < SIZE * DESC_BYTES && selector % DESC_BYTES == 0
                && old(descs[..])[selector / DESC_BYTES].attr == 0
                && (forall j :: 1 <= j < selector / DESC_BYTES ==> old(descs[..])[j].attr != 0)
                && descs[..] == old(descs[..])[selector / DESC_BYTES :=
                                                 old(descs[..])[selector / DESC_BYTES].(attr := PRESENT)]
      ensures forall n: nat :: UsedUpTo(old(descs[..]), n) ==>
                            if n < SIZE then selector == n * DESC_BYTES && UsedUpTo(descs[..], n + 1)
                            else selector == -1
    {
      ghost var was := descs[..];
      var i := 1;
      while i < SIZE
        invariant 1 <= i <= SIZE
        invariant forall j :: 1 <= j < i ==> descs[..][j].attr != 0
        invariant descs[..] == old(descs[..])
      {
        if descs[i].attr == 0 {
          forall n: nat | UsedUpTo(old(descs[..]), n)
            ensures i == n
          {
            NextSlotFree(was, n);
          }
          descs[i] := descs[i].(attr := PRESENT);
          return i * DESC_BYTES;
        }
        i := i + 1;
      }
      forall n: nat | UsedUpTo(old(descs[..]), n)
        ensures n == SIZE
      {
        NextSlotFree(was, n);
      }
      return -1;
    }
  }

  lemma FlatUsed(t: seq<Desc>)
    requires Flat(t)
    ensures UsedUpTo(t, 3)
  {
    hide Encode;
    CodeIsPresent();
    PresentIsUsed(0, 0xFFFF_FFFF, CODE_ATTR);
    PresentIsUsed(0, 0xFFFF_FFFF, DATA_ATTR);
  }

  lemma CodeIsPresent()
    ensures CODE_ATTR & PRESENT != 0 && DATA_ATTR & PRESENT != 0 && TSS_ATTR & PRESENT != 0
  {
  }

  lemma StoreKeepsUsed(t: seq<Desc>, n: nat, i: nat, base: bv32, limit: bv32)
    requires UsedUpTo(t, n) && 1 <= i < n
    ensures UsedUpTo(t[i := Encode(base, limit, TSS_ATTR)], n)
  {
    hide Encode;
    CodeIsPresent();
    PresentIsUsed(base, limit, TSS_ATTR);
  }

  lemma ZeroIsEmpty()
    ensures Encode(0, 0, 0) == EMPTY
  {
  }
}
