/** A finished vector or map reads as its elements: the width chosen suits every slot. */
module FlexVectors {
  import opened Bytes
  import opened Wrappers
  import opened FlexWidths
  import opened FlexReader
  import opened FlexSpec
  import opened FlexLayout

  /** No allocation is larger than half the address space. */
  const MAX_SIZE: nat := 0x7FFF_FFFF_FFFF_FFFF

  /** The values on the stack are 16 bytes each. */
  const MAX_STACK: nat := MAX_SIZE / 16

  // ---- the width choice ------------------------------------------------------------------------

  lemma {:induction false} WidestCovers(vs: seq<Value>, size: nat, step: nat, prefix: nat, least: Width, i: nat)
    requires ValuesIn(vs, size) && i < |vs|
    ensures ValueIn(vs[i], size)
    ensures ElemWidth(vs[i], size, i * step + prefix) <= WidestElement(vs, size, step, prefix, least)
    decreases |vs|
  {
    hide OffsetWidth, ValueIn;
    if i < |vs| - 1 {
      WidestCovers(vs[..|vs| - 1], size, step, prefix, least, i);
    }
  }

  /** The width covers the length, and the offset of the keys in the first slot. */
  lemma WidthCovers(flags: Flags, vs: seq<Value>, size: nat, step: nat, keys: Option<Value>)
    requires ValuesIn(vs, size) && KeysIn(keys, size)
    ensures var w := VectorWidth(flags, vs, size, step, keys);
            && flags.forceMin <= w && WidthU(|vs|) <= w
            && (keys.Some? ==> ElemWidth(keys.value, size, 0) <= w)
  {
    hide WidthU, OffsetWidth;
  }

  lemma SlotBound(size: nat, index: nat)
    requires size <= MAX_SIZE && index <= MAX_STACK + 3
    ensures Slot(size, index, 8) < U64
  {
    PaddingIsLeast(size, 8);
  }

  /** The offset's own width, asked for at an index that is estimated at twice the real one for the
      values of a map, still holds the offset at the width and the slot that are used. */
  lemma OffsetSuits(size: nat, estimated: nat, index: nat, u: nat, w: Width)
    requires u <= size <= MAX_SIZE && index <= estimated <= MAX_STACK + 3
    requires OffsetWidth(size, estimated, u) <= w
    ensures OffsetFits(size, index, w, u)
  {
    hide OffsetFits, OffsetWidth, Slot;
    SlotBound(size, estimated);
    OffsetWidthFits(size, estimated, u);
    FitsWider(size, estimated, OffsetWidth(size, estimated, u), w, u);
    FitsEarlier(size, estimated, index, w, u);
  }

  /** The i-th slot behind the prefix is one for x. */
  predicate SuitsSlot(x: Value, size: nat, prefix: nat, i: nat, w: Width) {
    FitsSlot(x, Slot(size, prefix, w) + i * w, w)
  }

  /** Every element suits its slot. */
  lemma ElementSuits(flags: Flags, vs: seq<Value>, size: nat, step: nat, keys: Option<Value>, i: nat)
    requires ValuesIn(vs, size) && KeysIn(keys, size) && i < |vs| && size <= MAX_SIZE && 1 <= step <= 2
    requires step * |vs| <= MAX_STACK
    ensures SuitsSlot(vs[i], size, PrefixSlots(keys), i, VectorWidth(flags, vs, size, step, keys))
  {
    hide OffsetWidth, Slot, WidestElement, WidthU, FitsSlot, ElemWidth, VectorWidth, ValuesIn;
    var w := VectorWidth(flags, vs, size, step, keys);
    SlotsCounted(|vs|, i, step);
    ElementCovered(flags, vs, size, step, keys, i);
    SuitsAt(vs[i], size, step, PrefixSlots(keys), i, w);
  }

  /** No element asks for more than the width chosen. */
  lemma ElementCovered(flags: Flags, vs: seq<Value>, size: nat, step: nat, keys: Option<Value>, i: nat)
    requires ValuesIn(vs, size) && KeysIn(keys, size) && i < |vs|
    ensures ValueIn(vs[i], size) && ElemWidth(vs[i], size, i * step + PrefixSlots(keys)) <= VectorWidth(flags, vs, size, step, keys)
  {
    hide WidestElement, WidthU, ElemWidth;
    var least := MaxWidth(flags.forceMin, WidthU(|vs|));
    WidestCovers(vs, size, step, PrefixSlots(keys), if keys.Some? then MaxWidth(least, ElemWidth(keys.value, size, 0)) else least, i);
  }

  lemma SlotsCounted(n: nat, i: nat, step: nat)
    requires i < n && 1 <= step <= 2
    ensures i <= i * step <= step * n
  {
  }

  lemma SuitsAt(x: Value, size: nat, step: nat, prefix: nat, i: nat, w: Width)
    requires ValueIn(x, size) && size <= MAX_SIZE && i <= i * step <= MAX_STACK && prefix <= 3
    requires ElemWidth(x, size, i * step + prefix) <= w
    ensures SuitsSlot(x, size, prefix, i, w)
  {
    hide OffsetWidth, Slot;
    if !IsInline(x.ty) {
      OffsetSuits(size, i * step + prefix, i + prefix, x.u, w);
      SlotSteps(size, prefix, w);
      SlotSteps(size, i + prefix, w);
      assert (i + prefix) * w == prefix * w + i * w;
      SlotAbove(size, prefix, w);
    }
  }

  /** WriteOffset's assertion holds for the keys of a map. */
  lemma KeysSuit(flags: Flags, vs: seq<Value>, size: nat, step: nat, keys: Value)
    requires ValuesIn(vs, size) && KeysIn(Some(keys), size) && size <= MAX_SIZE
    ensures OffsetFits(size, 0, VectorWidth(flags, vs, size, step, Some(keys)), keys.u)
  {
    hide OffsetFits, OffsetWidth, Slot, VectorWidth;
    WidthCovers(flags, vs, size, step, Some(keys));
    OffsetSuits(size, 0, 0, keys.u, VectorWidth(flags, vs, size, step, Some(keys)));
  }

  // ---- and is the least ------------------------------------------------------------------------

  /** A vector without keys can be written at width w: the length and every element fit. */
  ghost predicate Suits(flags: Flags, vs: seq<Value>, size: nat, w: Width) {
    && flags.forceMin <= w && |vs| < Pow256(w)
    && forall i :: 0 <= i < |vs| ==> FitsSlot(vs[i], Slot(size, 1, w) + i * w, w)
  }

  lemma {:induction false} WidestLeast(vs: seq<Value>, size: nat, step: nat, prefix: nat, least: Width, v: Width)
    requires ValuesIn(vs, size) && least <= v
    requires forall i :: 0 <= i < |vs| ==> ValueIn(vs[i], size) && ElemWidth(vs[i], size, i * step + prefix) <= v
    ensures WidestElement(vs, size, step, prefix, least) <= v
    decreases |vs|
  {
    hide OffsetWidth, ValueIn;
    if vs != [] {
      WidestLeast(vs[..|vs| - 1], size, step, prefix, least, v);
    }
  }

  lemma AsksForLess(x: Value, size: nat, i: nat, v: Width)
    requires ValueIn(x, size) && size <= MAX_SIZE && i < MAX_STACK && FitsSlot(x, Slot(size, 1, v) + i * v, v)
    ensures ElemWidth(x, size, i + 1) <= v
  {
    hide OffsetWidth, Slot;
    if !IsInline(x.ty) {
      SlotBound(size, i + 1);
      OffsetWidthFits(size, i + 1, x.u);
      SlotSteps(size, 1, v);
      SlotSteps(size, i + 1, v);
      assert (i + 1) * v == 1 * v + i * v;
      assert OffsetFits(size, i + 1, v, x.u);
    }
  }

  /** The width of a vector is the least at which its length and all its elements can be written. */
  lemma VectorWidthLeast(flags: Flags, vs: seq<Value>, size: nat)
    requires ValuesIn(vs, size) && size <= MAX_SIZE && |vs| <= MAX_STACK
    ensures var w := VectorWidth(flags, vs, size, 1, None);
            Suits(flags, vs, size, w) && forall v: Width :: Suits(flags, vs, size, v) ==> w <= v
  {
    hide FitsSlot, Slot, WidestElement, OffsetWidth, WidthU, Pow256, ValueIn;
    var w := VectorWidth(flags, vs, size, 1, None);
    WidthULeast(|vs|);
    WidthCovers(flags, vs, size, 1, None);
    forall i | 0 <= i < |vs| ensures FitsSlot(vs[i], Slot(size, 1, w) + i * w, w) {
      ElementSuits(flags, vs, size, 1, None, i);
    }
    forall v: Width | Suits(flags, vs, size, v) ensures w <= v {
      forall i | 0 <= i < |vs| ensures ValueIn(vs[i], size) && ElemWidth(vs[i], size, i * 1 + 1) <= v {
        AsksForLess(vs[i], size, i, v);
      }
      WidestLeast(vs, size, 1, 1, MaxWidth(flags.forceMin, WidthU(|vs|)), v);
    }
  }

  // ---- reading vectors -------------------------------------------------------------------------

  lemma LengthReads(r: seq<Byte>, n: nat, data: nat, w: Width)
    requires w <= data <= |r| && r[data - w..data] == LE(n, w) && WidthU(n) <= w && n < U64
    ensures ReadSize(r, data, w) == Some(n)
  {
    hide LE, FromLE, Pow256, WidthU;
    WidthULeast(n);
    ScalarRoundTrip(n, w);
  }

  lemma ElementReads(r: seq<Byte>, buf: seq<Byte>, vs: seq<Value>, data: nat, w: Width, i: nat, t: Tree)
    requires Prefix(buf, r) && VectorLaid(r, vs, data, w, false) && i < |vs| && ReadSize(r, data, w) == Some(|vs|)
    requires Stands(buf, vs[i], t) && FitsSlot(vs[i], data + i * w, w)
    ensures Element(r, data, w, i).Some? && Reads(r, Element(r, data, w, i).value, t)
  {
    hide Reads, Stands, FitsSlot, ReadSize, Prefix, LE, StoredType;
    StandsStable(buf, r, vs[i], t);
    assert ElementLaid(r, vs[i], data, w, i);
    SlotReads(r, vs[i], t, data + i * w, w);
    assert r[data + |vs| * w + i] == StoredType(vs[i], w);
    var p := StoredType(vs[i], w);
    assert Unpack(data + i * w, w, p) == Reference(data + i * w, w, StoredWidth(vs[i], w), vs[i].ty);
  }

  ghost predicate AllStand(buf: seq<Byte>, vs: seq<Value>, ts: seq<Tree>) {
    |vs| == |ts| && forall i :: 0 <= i < |vs| ==> Stands(buf, vs[i], ts[i])
  }

  lemma AllStandIn(buf: seq<Byte>, vs: seq<Value>, ts: seq<Tree>)
    requires AllStand(buf, vs, ts)
    ensures ValuesIn(vs, |buf|)
  {
    hide Stands, ValueIn;
    forall i | 0 <= i < |vs| ensures ValueIn(vs[i], |buf|) { StandsIn(buf, vs[i], ts[i]); }
  }

  /** The elements of a vector or a map read as the trees their values stand for. */
  lemma ElementsRead(flags: Flags, buf: seq<Byte>, vs: seq<Value>, ts: seq<Tree>, step: nat, keys: Option<Value>)
    requires AllStand(buf, vs, ts) && KeysIn(keys, |buf|) && step * |vs| <= MAX_STACK && |buf| <= MAX_SIZE && 1 <= step <= 2
    ensures ValuesIn(vs, |buf|)
    ensures var (r, v) := CreateVector(flags, buf, vs, step, false, keys);
            && 0 <= v.u && ReadSize(r, v.u, v.width) == Some(|ts|)
            && forall i :: 0 <= i < |ts| ==>
                 Element(r, v.u, v.width, i).Some? && Reads(r, Element(r, v.u, v.width, i).value, ts[i])
  {
    hide CreateVector, VectorWidth, Slot, Stands, ValuesIn, Reads, Element, LE, ReadSize, FitsSlot, Prefix, WidthU;
    AllStandIn(buf, vs, ts);
    CreateVectorLays(flags, buf, vs, step, false, keys);
    var (r, v) := CreateVector(flags, buf, vs, step, false, keys);
    WidthCovers(flags, vs, |buf|, step, keys);
    assert v.u <= |r|;
    LengthReads(r, |vs|, v.u, v.width);
    forall i | 0 <= i < |ts|
      ensures Element(r, v.u, v.width, i).Some? && Reads(r, Element(r, v.u, v.width, i).value, ts[i])
    {
      ElementSuits(flags, vs, |buf|, step, keys, i);
      ElementReads(r, buf, vs, v.u, v.width, i, ts[i]);
    }
  }

  // ---- reading keys ----------------------------------------------------------------------------

  ghost predicate AllNamed(buf: seq<Byte>, ks: seq<Value>, names: seq<seq<Byte>>) {
    |ks| == |names| && forall j :: 0 <= j < |ks| ==>
      ks[j].ty == FBT_KEY && 0 <= ks[j].u <= |buf| && CString(buf, ks[j].u) == Some(names[j])
  }

  lemma KeyReads(r: seq<Byte>, buf: seq<Byte>, k: Value, name: seq<Byte>, data: nat, w: Width, j: nat)
    requires Prefix(buf, r) && k.ty == FBT_KEY && 0 <= k.u <= |buf| && CString(buf, k.u) == Some(name)
    requires ElementLaid(r, k, data, w, j) && FitsSlot(k, data + j * w, w)
    ensures KeyAt(r, data, w, j) == Some(name)
  {
    hide LE, FromLE, Pow256, Prefix, CString;
    var pos := data + j * w;
    CStringStable(buf, r, k.u);
    LowBytes(pos - k.u, w);
    SmallMod(pos - k.u, Pow256(w));
    assert Indirect(r, pos, w) == Some(k.u);
  }

  /** The key vector reads as the keys' names, in its order. */
  lemma KeyVectorReads(flags: Flags, buf: seq<Byte>, ks: seq<Value>, names: seq<seq<Byte>>)
    requires AllNamed(buf, ks, names) && 2 * |ks| <= MAX_STACK && |buf| <= MAX_SIZE
    ensures ValuesIn(ks, |buf|)
    ensures var (r, v) := CreateVector(flags, buf, ks, 2, true, None);
            && Prefix(buf, r) && v.ty == FBT_VECTOR_KEY && 0 <= v.u <= |r|
            && ReadSize(r, v.u, v.width) == Some(|names|)
            && forall j :: 0 <= j < |names| ==> KeyAt(r, v.u, v.width, j) == Some(names[j])
  {
    hide CreateVector, VectorWidth, Slot, LE, ReadSize, FitsSlot, Prefix, WidthU, KeyAt, CString, ElementLaid;
    CreateVectorLays(flags, buf, ks, 2, true, None);
    var (r, v) := CreateVector(flags, buf, ks, 2, true, None);
    WidthCovers(flags, ks, |buf|, 2, None);
    assert v.u <= |r|;
    LengthReads(r, |ks|, v.u, v.width);
    forall j | 0 <= j < |names| ensures KeyAt(r, v.u, v.width, j) == Some(names[j]) {
      ElementSuits(flags, ks, |buf|, 2, None, j);
      KeyReads(r, buf, ks[j], names[j], v.u, v.width, j);
    }
  }

  /** A map leads to its keys. */
  lemma KeysFound(r: seq<Byte>, keys: Value, data: nat, w: Width)
    requires KeysLaid(r, keys, data, w) && data - 3 * w - keys.u < Pow256(w)
    ensures KeysOf(r, data, w) == Some((keys.u as nat, keys.width))
  {
    hide LE, FromLE, Pow256;
    Bounds(w);
    LowBytes(data - 3 * w - keys.u, w);
    SmallMod(data - 3 * w - keys.u, Pow256(w));
    LowBytes(keys.width, w);
    SmallMod(keys.width, Pow256(w));
    assert Indirect(r, data - 3 * w, w) == Some(keys.u);
    assert ReadUInt(r, data - 2 * w, w) == Some(keys.width);
  }
}
