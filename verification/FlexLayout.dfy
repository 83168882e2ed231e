/** Where CreateVector puts things, and that what it stores in a slot leads back to the value. */
module FlexLayout {
  import opened Bytes
  import opened Wrappers
  import opened FlexWidths
  import opened FlexReader
  import opened FlexSpec

  // ---- what a value on the stack stands for ----------------------------------------------------

  function TypeOf(t: Tree): nat {
    match t
    case TNull => FBT_NULL
    case TBool(_) => FBT_BOOL
    case TInt(_) => FBT_INT
    case TUInt(_) => FBT_UINT
    case TString(_) => FBT_STRING
    case TBlob(_) => FBT_BLOB
    case TVector(_) => FBT_VECTOR
    case TMap(_) => FBT_MAP
  }

  /** What lies at `data` reads as t, given the width its parent recorded for it. */
  ghost predicate TargetReads(buf: seq<Byte>, data: nat, w: Width, t: Tree) {
    match t
    case TString(s) => StringAt(buf, data, w) == Some(s)
    case TBlob(s) => ReadBytes(buf, data, w) == Some(s)
    case TVector(_) => ReadsVector(buf, data, w, t)
    case TMap(_) => ReadsMap(buf, data, w, t)
    case _ => false
  }

  /** The stack value v stands for t. */
  ghost predicate Stands(buf: seq<Byte>, v: Value, t: Tree) {
    match t
    case TNull => v == NullValue()
    case TBool(b) => v == BoolValue(b)
    case TInt(i) => v == IntValue(i) && IsInt64(i)
    case TUInt(u) => v == UIntValue(u) && u < U64
    case _ => v.ty == TypeOf(t) && 0 <= v.u <= |buf| && TargetReads(buf, v.u, v.width, t)
  }

  lemma StandsIn(buf: seq<Byte>, v: Value, t: Tree)
    requires Stands(buf, v, t)
    ensures ValueIn(v, |buf|)
  {
    hide TargetReads;
  }

  lemma TargetStable(older: seq<Byte>, newer: seq<Byte>, data: nat, w: Width, t: Tree)
    requires Prefix(older, newer) && TargetReads(older, data, w, t)
    ensures TargetReads(newer, data, w, t)
  {
    match t
    case TString(s) => StringAtStable(older, newer, data, w);
    case TBlob(s) => BytesStable(older, newer, data, w);
    case TVector(_) => VectorStable(older, newer, data, w, t);
    case TMap(_) => MapStable(older, newer, data, w, t);
    case _ =>
  }

  lemma StandsStable(older: seq<Byte>, newer: seq<Byte>, v: Value, t: Tree)
    requires Prefix(older, newer) && Stands(older, v, t)
    ensures Stands(newer, v, t)
  {
    hide TargetReads;
    match t
    case TNull =>
    case TBool(_) =>
    case TInt(_) =>
    case TUInt(_) =>
    case _ =>
      TargetStable(older, newer, v.u, v.width, t);
      assert |older| <= |newer|;
  }

  // ---- a value in its slot ---------------------------------------------------------------------

  /** v fits the slot of width w at pos. */
  predicate FitsSlot(v: Value, pos: nat, w: Width) {
    if IsInline(v.ty) then v.width <= w else 0 <= v.u <= pos && pos - v.u < Pow256(w)
  }

  ghost predicate InSlot(buf: seq<Byte>, v: Value, pos: nat, w: Width)
    requires ValueIn(v, pos)
  {
    pos + w <= |buf| && buf[pos..pos + w] == LE(Raw(v, pos), w)
  }

  /** What WriteAny stored reads back: scalars with their sign, everything else through its offset. */
  lemma SlotReads(buf: seq<Byte>, v: Value, t: Tree, pos: nat, w: Width)
    requires Stands(buf, v, t) && ValueIn(v, pos) && FitsSlot(v, pos, w) && InSlot(buf, v, pos, w)
    ensures forall stored: Width :: IsInline(v.ty) || stored == v.width ==> Reads(buf, Reference(pos, w, stored, v.ty), t)
  {
    hide LE, FromLE, Pow256, TargetReads, ReadsVector, ReadsMap, StringAt, ReadBytes, WidthI;
    match t
    case TNull =>
    case TBool(b) =>
      Bounds(w);
      UIntSlot(buf, v.u, pos, w);
    case TInt(i) => IntSlot(buf, i, pos, w);
    case TUInt(u) =>
      WidthULeast(u);
      UIntSlot(buf, u, pos, w);
    case _ =>
      OffsetSlot(buf, v.u, pos, w);
      ThroughTarget(buf, v, t, pos, w);
  }

  lemma SmallMod(n: nat, m: nat)
    requires n < m
    ensures n % m == n
  {
  }

  lemma UIntSlot(buf: seq<Byte>, u: nat, pos: nat, w: Width)
    requires u < Pow256(w) && pos + w <= |buf| && buf[pos..pos + w] == LE(u, w)
    ensures ReadUInt(buf, pos, w) == Some(u)
  {
    hide LE, FromLE, Pow256;
    LowBytes(u, w);
    SmallMod(u, Pow256(w));
  }

  lemma IntSlot(buf: seq<Byte>, i: int, pos: nat, w: Width)
    requires IsInt64(i) && WidthI(i) <= w && pos + w <= |buf| && buf[pos..pos + w] == LE(i % U64, w)
    ensures ReadInt(buf, pos, w) == Some(i)
  {
    hide LE, FromLE, Pow256, WidthI;
    WidthILeast(i, w);
    SignedRoundTrip(i, w);
  }

  lemma OffsetSlot(buf: seq<Byte>, u: nat, pos: nat, w: Width)
    requires u <= pos && pos - u < Pow256(w) && pos + w <= |buf| && buf[pos..pos + w] == LE(pos - u, w)
    ensures Indirect(buf, pos, w) == Some(u)
  {
    hide LE, FromLE, Pow256;
    LowBytes(pos - u, w);
    SmallMod(pos - u, Pow256(w));
  }

  lemma ThroughTarget(buf: seq<Byte>, v: Value, t: Tree, pos: nat, w: Width)
    requires Stands(buf, v, t) && !IsInline(v.ty) && Indirect(buf, pos, w) == Some(v.u)
    ensures Reads(buf, Reference(pos, w, v.width, v.ty), t)
  {
    hide Indirect, ReadsVector, ReadsMap, StringAt, ReadBytes;
  }

  // ---- the layout of a vector ------------------------------------------------------------------

  lemma ElementsUnfold(vs: seq<Value>, pos: nat, w: Width)
    requires ValuesIn(vs, pos) && vs != []
    ensures var n := |vs| - 1;
            && ValuesIn(vs[..n], pos) && ValueIn(vs[n], pos + n * w) && |Elements(vs[..n], pos, w)| == n * w
            && Elements(vs, pos, w) == Elements(vs[..n], pos, w) + LE(Raw(vs[n], pos + n * w), w)
  {
    hide LE, Raw;
  }

  lemma {:induction false} ElementBytes(vs: seq<Value>, pos: nat, w: Width, i: nat)
    requires ValuesIn(vs, pos) && i < |vs|
    ensures i * w + w <= |vs| * w && ValueIn(vs[i], pos + i * w)
    ensures Elements(vs, pos, w)[i * w..i * w + w] == LE(Raw(vs[i], pos + i * w), w)
    decreases |vs|
  {
    hide LE, Raw, ValueIn, ValuesIn, Elements;
    var n := |vs| - 1;
    StillIn(vs, pos, i, i * w);
    OneMoreSlot(i, |vs|, w);
    ElementsUnfold(vs, pos, w);
    var front, last := Elements(vs[..n], pos, w), LE(Raw(vs[n], pos + n * w), w);
    if i < n {
      OneMoreSlot(i, n, w);
      ElementBytes(vs[..n], pos, w, i);
      SliceOfFirst(front, last, i * w, i * w + w);
    } else {
      SliceOfSecond(front, last, 0, w);
    }
  }

  lemma StillIn(vs: seq<Value>, pos: nat, i: nat, further: nat)
    requires ValuesIn(vs, pos) && i < |vs|
    ensures ValueIn(vs[i], pos + further)
  {
  }

  lemma OneMoreSlot(i: nat, n: nat, w: Width)
    requires i < n
    ensures i * w + w <= n * w
  {
    assert (i + 1) * w <= n * w;
  }

  /** The vector of width w at `data` in r: the length in front, the elements, their types behind. */
  ghost predicate VectorLaid(r: seq<Byte>, vs: seq<Value>, data: nat, w: Width, typed: bool) {
    && ValuesIn(vs, data) && w <= data
    && data + |vs| * w + (if typed then 0 else |vs|) == |r|
    && r[data - w..data] == LE(|vs|, w)
    && (forall i :: 0 <= i < |vs| ==> ElementLaid(r, vs[i], data, w, i))
    && (!typed ==> forall i :: 0 <= i < |vs| ==> r[data + |vs| * w + i] == StoredType(vs[i], w))
  }

  ghost predicate ElementLaid(r: seq<Byte>, v: Value, data: nat, w: Width, i: nat) {
    ValueIn(v, data + i * w) && InSlot(r, v, data + i * w, w)
  }

  /** What a map has in front of the length. */
  ghost predicate KeysLaid(r: seq<Byte>, keys: Value, data: nat, w: Width) {
    && 3 * w <= data <= |r| && 0 <= keys.u <= data - 3 * w
    && r[data - 3 * w..data - 2 * w] == LE(data - 3 * w - keys.u, w)
    && r[data - 2 * w..data - w] == LE(keys.width, w)
  }

  lemma HeaderEnds(keys: Option<Value>, len: nat, pos: nat, w: Width)
    requires KeysIn(keys, pos)
    ensures var h := Header(keys, len, pos, w); w <= |h| && h[|h| - w..] == LE(len, w)
  {
  }

  lemma AlignedSlot(buf: seq<Byte>, w: Width)
    ensures Prefix(buf, Align(buf, w)) && |Align(buf, w)| == Slot(|buf|, 0, w)
  {
  }

  lemma ValuesStay(vs: seq<Value>, small: nat, large: nat)
    requires ValuesIn(vs, small) && small <= large
    ensures ValuesIn(vs, large)
  {
  }

  lemma CreateVectorLays(flags: Flags, buf: seq<Byte>, vs: seq<Value>, step: nat, typed: bool, keys: Option<Value>)
    requires ValuesIn(vs, |buf|) && KeysIn(keys, |buf|)
    ensures var (r, v) := CreateVector(flags, buf, vs, step, typed, keys);
            && Prefix(buf, r) && 0 <= v.u
            && v.width == VectorWidth(flags, vs, |buf|, step, keys) && v.ty == VectorType(vs, typed, keys)
            && v.u == Slot(|buf|, PrefixSlots(keys), v.width)
            && VectorLaid(r, vs, v.u, v.width, typed)
  {
    hide LE, Elements, Types, Align, Header, VectorWidth, Slot, VectorType, Prefix, ValuesIn, VectorLaid;
    var w := VectorWidth(flags, vs, |buf|, step, keys);
    var a := Align(buf, w);
    AlignedSlot(buf, w);
    PrefixShorter(buf, a);
    ValuesStay(vs, |buf|, |a|);
    assert KeysIn(keys, |a|);
    var h := Header(keys, |vs|, |a|, w);
    SlotSteps(|buf|, PrefixSlots(keys), w);
    HeaderEnds(keys, |vs|, |a|, w);
    PiecesLaid(buf, a, h, vs, w, typed);
  }

  lemma ElementInPlace(b: seq<Byte>, vs: seq<Value>, w: Width, types: seq<Byte>, i: nat)
    requires ValuesIn(vs, |b|) && i < |vs|
    ensures ElementLaid(b + Elements(vs, |b|, w) + types, vs[i], |b|, w, i)
  {
    hide LE, Elements, Raw, ValueIn, ValuesIn;
    ElementBytes(vs, |b|, w, i);
    Shifted(b, Elements(vs, |b|, w), types, i * w, w);
  }

  lemma TypeInPlace(b: seq<Byte>, e: seq<Byte>, vs: seq<Value>, w: Width, i: nat)
    requires i < |vs| && forall k :: 0 <= k < |vs| ==> vs[k].ty < 64
    ensures (b + e + Types(vs, w))[|b| + |e| + i] == StoredType(vs[i], w)
  {
  }

  lemma InFront(buf: seq<Byte>, a: seq<Byte>, h: seq<Byte>, rest: seq<Byte>, w: Width)
    requires Prefix(buf, a) && w <= |h|
    ensures var b := a + h; Prefix(buf, b + rest) && (b + rest)[|b| - w..|b|] == h[|h| - w..]
  {
  }

  lemma PiecesLaid(buf: seq<Byte>, a: seq<Byte>, h: seq<Byte>, vs: seq<Value>, w: Width, typed: bool)
    requires Prefix(buf, a) && ValuesIn(vs, |a|) && w <= |h| && h[|h| - w..] == LE(|vs|, w)
    ensures ValuesIn(vs, |a + h|)
    ensures var b := a + h;
            var r := if typed then b + Elements(vs, |b|, w) else b + Elements(vs, |b|, w) + Types(vs, w);
            Prefix(buf, r) && VectorLaid(r, vs, |b|, w, typed)
  {
    hide LE, Elements, Types, Prefix, ElementLaid, StoredType;
    var b := a + h;
    assert ValuesIn(vs, |b|);
    var e := Elements(vs, |b|, w);
    var types := if typed then [] else Types(vs, w);
    assert b + e + [] == b + e;
    InFront(buf, a, h, e + types, w);
    assert b + (e + types) == b + e + types;
    forall i | 0 <= i < |vs| ensures ElementLaid(b + e + types, vs[i], |b|, w, i) {
      ElementInPlace(b, vs, w, types, i);
    }
    forall i | !typed && 0 <= i < |vs| ensures (b + e + types)[|b| + |vs| * w + i] == StoredType(vs[i], w) {
      TypeInPlace(b, e, vs, w, i);
    }
  }

  lemma SlotSteps(size: nat, index: nat, w: Width)
    ensures Slot(size, index, w) == Slot(size, 0, w) + index * w
  {
  }

  lemma Shifted(b: seq<Byte>, e: seq<Byte>, types: seq<Byte>, at: nat, len: nat)
    requires at + len <= |e|
    ensures (b + e + types)[|b| + at..|b| + at + len] == e[at..at + len]
  {
  }

  lemma KeysAreLaid(flags: Flags, buf: seq<Byte>, vs: seq<Value>, step: nat, keys: Value)
    requires ValuesIn(vs, |buf|) && KeysIn(Some(keys), |buf|)
    ensures var (r, v) := CreateVector(flags, buf, vs, step, false, Some(keys)); 0 <= v.u && KeysLaid(r, keys, v.u, v.width)
  {
    hide LE, Elements, Types, Align, VectorWidth, Slot;
    var w := VectorWidth(flags, vs, |buf|, step, Some(keys));
    var a := Align(buf, w);
    AlignedSlot(buf, w);
    var b := a + Header(Some(keys), |vs|, |a|, w);
    KeysPiecesLaid(a, keys, |vs|, w, Elements(vs, |b|, w) + Types(vs, w));
    var r := CreateVector(flags, buf, vs, step, false, Some(keys)).0;
    assert r == b + Elements(vs, |b|, w) + Types(vs, w);
    assert r == b + (Elements(vs, |b|, w) + Types(vs, w));
  }

  lemma KeysPiecesLaid(a: seq<Byte>, keys: Value, len: nat, w: Width, rest: seq<Byte>)
    requires KeysIn(Some(keys), |a|)
    ensures var b := a + Header(Some(keys), len, |a|, w); KeysLaid(b + rest, keys, |b|, w)
  {
    hide LE;
    var h := Header(Some(keys), len, |a|, w);
    var first, second := LE(|a| - keys.u, w), LE(keys.width, w);
    assert h[0..w] == first;
    assert h[w..w + w] == second;
    Shifted(a, h, rest, 0, w);
    Shifted(a, h, rest, w, w);
  }
}
