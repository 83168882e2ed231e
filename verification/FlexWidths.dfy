/** FlexBuffers widths: every scalar, length and offset is stored in the fewest bytes that hold it, and
    the width of an offset depends on the padding that the width itself brings about. */
module FlexWidths {
  import opened Bytes

  /** BitWidth as the number of bytes, `1 << bit_width`. */
  type Width = w: nat | w == 1 || w == 2 || w == 4 || w == 8 witness 1

  function Bits(w: Width): nat {
    if w == 1 then 0 else if w == 2 then 1 else if w == 4 then 2 else 3
  }

  function FromBits(b: nat): Width {
    if b == 0 then 1 else if b == 1 then 2 else if b == 2 then 4 else 8
  }

  function MaxWidth(a: Width, b: Width): Width {
    if a < b then b else a
  }

  // ---- scalars ---------------------------------------------------------------------------------

  /** WidthU: the first width whose mask leaves no bit of u over, that is, 2 to the power of whose bits is
      above u. */
  function WidthU(u: nat): Width {
    if u < 0x100 then 1 else if u < U16 then 2 else if u < U32 then 4 else 8
  }

  lemma Bounds(w: Width)
    ensures Pow256(w) == if w == 1 then 0x100 else if w == 2 then U16 else if w == 4 then U32 else U64
  {
    Widths();
  }

  /** WidthU is the least width that holds the number. */
  lemma WidthULeast(u: nat)
    requires u < U64
    ensures u < Pow256(WidthU(u))
    ensures forall w: Width :: u < Pow256(w) <==> WidthU(u) <= w
  {
    Bounds(WidthU(u));
    forall w: Width
      ensures u < Pow256(w) <==> WidthU(u) <= w
    {
      Bounds(w);
    }
  }

  /** WidthI: shifts the 64-bit pattern left and complements it when negative. */
  function WidthI(i: int): Width {
    var u := i % U64 * 2 % U64;
    WidthU(if i >= 0 then u else U64 - 1 - u)
  }

  predicate IsInt64(i: int) {
    -0x8000_0000_0000_0000 <= i < 0x8000_0000_0000_0000
  }

  predicate FitsSigned(i: int, w: Width) {
    0 - Pow256(w) <= 2 * i < Pow256(w)
  }

  /** WidthI is the least width that holds the number with its sign. */
  lemma WidthILeast(i: int, w: Width)
    requires IsInt64(i)
    ensures FitsSigned(i, w) <==> WidthI(i) <= w
  {
    Bounds(w);
    if i >= 0 {
      assert i % U64 == i && 2 * i % U64 == 2 * i;
      WidthULeast(2 * i);
    } else {
      assert i % U64 == i + U64;
      assert (i + U64) * 2 % U64 == 2 * i + U64 by { WrapOnce(i); }
      WidthULeast(-2 * i - 1);
    }
  }

  lemma WrapOnce(i: int)
    requires -0x8000_0000_0000_0000 <= i < 0
    ensures (i + U64) * 2 % U64 == 2 * i + U64
  {
    assert (i + U64) * 2 == (2 * i + U64) + U64;
  }

  /** The signed reading of a w-byte pattern (the int8_t .. int64_t of ReadInt64). */
  function SignExtend(n: nat, w: Width): int {
    if 2 * n < Pow256(w) then n else n - Pow256(w)
  }

  /** Writing truncates to the low bytes. */
  lemma {:induction false} LowBytes(n: nat, size: nat)
    ensures FromLE(LE(n, size)) == n % Pow256(size)
    decreases size
  {
    if size != 0 {
      LowBytes(n / 256, size - 1);
      assert LE(n, size)[1..] == LE(n / 256, size - 1);
      SplitMod(n, Pow256(size - 1));
    }
  }

  lemma SplitMod(n: nat, p: nat)
    requires p > 0
    ensures n % 256 + 256 * (n / 256 % p) == n % (256 * p)
  {
    var q := n / 256 / p;
    var r := n % 256 + 256 * (n / 256 % p);
    assert n / 256 == q * p + n / 256 % p;
    assert n == 256 * (q * p) + r;
    assert 256 * (q * p) == q * (256 * p);
    assert n / 256 % p <= p - 1;
    assert r < 256 * p;
    DivModUnique(n, 256 * p, q, r);
  }

  lemma DivModUnique(n: nat, m: nat, q: nat, r: nat)
    requires m > 0 && n == q * m + r && r < m
    ensures n % m == r
  {
    var d := n / m - q;
    assert n == n / m * m + n % m;
    assert d * m == r - n % m;
    assert d >= 1 ==> d * m >= m;
    assert d <= -1 ==> d * m <= -1 * m;
  }

  /** Sign extension undoes the truncation of a number that fits. */
  lemma SignedRoundTrip(i: int, w: Width)
    requires FitsSigned(i, w)
    ensures SignExtend(FromLE(LE(i % U64, w)), w) == i
  {
    hide LE, FromLE, Pow256;
    LowBytes(i % U64, w);
    Bounds(w);
    LowPattern(i, Pow256(w));
  }

  /** The low bytes of the 64-bit pattern. */
  lemma LowPattern(i: int, p: nat)
    requires (p == 0x100 || p == U16 || p == U32 || p == U64) && 0 - p <= 2 * i < p
    ensures i % U64 % p == if i >= 0 then i else i + p
  {
    if i < 0 {
      assert i % U64 == i + U64;
      var k := U64 / p;
      assert i + U64 == (k - 1) * p + (i + p);
      DivModUnique(i + U64, p, k - 1, i + p);
    }
  }

  // ---- packed types ----------------------------------------------------------------------------

  /** The upper six bits are the type, the lower two the width. */
  function PackedType(w: Width, ty: nat): nat {
    Bits(w) + 4 * ty
  }

  lemma PackedRoundTrip(w: Width, ty: nat)
    ensures FromBits(PackedType(w, ty) % 4) == w && PackedType(w, ty) / 4 == ty
  {
  }

  // ---- offsets ---------------------------------------------------------------------------------

  /** Where element `index` of a vector of width w starting after `size` bytes lies. */
  function Slot(size: nat, index: nat, w: Width): nat {
    size + PaddingBytes(size, w) + index * w
  }

  lemma SlotAbove(size: nat, index: nat, w: Width)
    ensures size <= Slot(size, index, w)
  {
  }

  lemma PaddingDoubles(n: nat, w: Width)
    requires w < 8
    ensures PaddingBytes(n, w) <= PaddingBytes(n, 2 * w) <= PaddingBytes(n, w) + w
  {
    PaddingIsLeast(n, w);
    PaddingIsLeast(n, 2 * w);
    var p := PaddingBytes(n, w);
    var p2 := PaddingBytes(n, 2 * w);
    assert Reaches(n, p2, w) by { MultiplesCompose(n + p2, w, 2 * w); }
    assert Reaches(n, p, 2 * w) || Reaches(n, p + w, 2 * w) by { NextMultiple(n + p, w); }
  }

  lemma Next1(m: nat)
    ensures m % 2 == 0 || (m + 1) % 2 == 0
  {
  }

  lemma Next2(m: nat)
    requires m % 2 == 0
    ensures m % 4 == 0 || (m + 2) % 4 == 0
  {
  }

  lemma Next4(m: nat)
    requires m % 4 == 0
    ensures m % 8 == 0 || (m + 4) % 8 == 0
  {
  }

  lemma NextMultiple(m: nat, w: Width)
    requires w < 8 && m % w == 0
    ensures m % (2 * w) == 0 || (m + w) % (2 * w) == 0
  {
    if w == 1 { Next1(m); } else if w == 2 { Next2(m); } else { Next4(m); }
  }

  /** Doubling the width at most doubles a distance, but for the padding. */
  lemma SlotDoubles(size: nat, index: nat, w: Width, u: nat)
    requires w < 8 && u <= size
    ensures Slot(size, index, w) <= Slot(size, index, 2 * w)
    ensures Slot(size, index, 2 * w) - u <= 2 * (Slot(size, index, w) - u) + w
  {
    hide PaddingBytes;
    PaddingDoubles(size, w);
    assert index * (2 * w) == 2 * (index * w);
  }

  /** The relative offset to u fits the width if stored in that slot. */
  predicate OffsetFits(size: nat, index: nat, w: Width, u: nat)
    requires u <= size
  {
    Slot(size, index, w) - u < Pow256(w)
  }

  /** An offset that fits a width fits every larger one, at the same index or an earlier one. */
  lemma FitsWider(size: nat, index: nat, w: Width, wider: Width, u: nat)
    requires u <= size && OffsetFits(size, index, w, u) && w <= wider
    ensures OffsetFits(size, index, wider, u)
    decreases wider - w
  {
    if w < wider {
      SlotDoubles(size, index, w, u);
      Bounds(w);
      Bounds(2 * w);
      FitsWider(size, index, 2 * w, wider, u);
    }
  }

  lemma FitsEarlier(size: nat, index: nat, earlier: nat, w: Width, u: nat)
    requires u <= size && OffsetFits(size, index, w, u) && earlier <= index
    ensures OffsetFits(size, earlier, w, u)
  {
    assert earlier * w <= index * w;
  }

  /** The width Value::ElemWidth settles on for an offset to u. */
  function OffsetWidth(size: nat, index: nat, u: nat): Width
    requires u <= size
  {
    if WidthU(Slot(size, index, 1) - u) == 1 then 1
    else if WidthU(Slot(size, index, 2) - u) == 2 then 2
    else if WidthU(Slot(size, index, 4) - u) == 4 then 4
    else 8
  }

  /** The loop of ElemWidth tries 1, 2, 4 and 8 bytes and stops where the width of the offset is the
      width tried.  It never reaches its failing assertion, and what it finds is the least width in
      which the offset fits. */
  method ElemWidthLoop(size: nat, index: nat, u: nat) returns (w: Width)
    requires u <= size && Slot(size, index, 8) < U64
    ensures w == OffsetWidth(size, index, u)
    ensures OffsetFits(size, index, w, u)
    ensures forall v: Width :: v < w ==> !OffsetFits(size, index, v, u)
  {
    hide Slot, Pow256;
    SlotAbove(size, index, 1);
    SlotAbove(size, index, 2);
    SlotAbove(size, index, 4);
    SlotAbove(size, index, 8);
    w := 1;
    SlotDoubles(size, index, 1, u);
    SlotDoubles(size, index, 2, u);
    SlotDoubles(size, index, 4, u);
    while true
      invariant forall v: Width :: v < w ==> !OffsetFits(size, index, v, u) && WidthU(Slot(size, index, v) - u) != v
      decreases 8 - w
    {
      WidthULeast(Slot(size, index, w) - u);
      if WidthU(Slot(size, index, w) - u) == w { return; }
      assert !OffsetFits(size, index, w, u) by {
        if w > 1 { Bounds(w / 2); assert !OffsetFits(size, index, w / 2, u); }
      }
      Bounds(8);
      w := 2 * w;
    }
  }

  /** The same as a fact about the function. */
  lemma OffsetWidthFits(size: nat, index: nat, u: nat)
    requires u <= size && Slot(size, index, 8) < U64
    ensures OffsetFits(size, index, OffsetWidth(size, index, u), u)
    ensures forall v: Width :: v < OffsetWidth(size, index, u) ==> !OffsetFits(size, index, v, u)
  {
    hide Slot, Pow256;
    SlotAbove(size, index, 1);
    SlotAbove(size, index, 2);
    SlotAbove(size, index, 4);
    SlotAbove(size, index, 8);
    SlotDoubles(size, index, 1, u);
    SlotDoubles(size, index, 2, u);
    SlotDoubles(size, index, 4, u);
    Bounds(1); Bounds(2); Bounds(4); Bounds(8);
  }
}
