/** What a FlexBuffers operation writes, to the byte, and that every width is the least that is asked for. */
module FlexExact {
  import opened Bytes
  import opened Wrappers
  import opened FlexWidths
  import opened FlexReader
  import opened FlexSpec
  import opened FlexVectors

  /** Scalars are kept in the least width that holds them. */
  lemma ScalarsNarrow(i: int, u: nat, b: bool)
    requires IsInt64(i) && u < U64
    ensures forall w: Width :: FitsSigned(i, w) <==> IntValue(i).width <= w
    ensures forall w: Width :: u < Pow256(w) <==> UIntValue(u).width <= w
    ensures NullValue().width == 1 && BoolValue(b).width == 1
  {
    hide Pow256, WidthU, WidthI, FitsSigned;
    forall w: Width ensures FitsSigned(i, w) <==> IntValue(i).width <= w { WidthILeast(i, w); }
    WidthULeast(u);
  }

  /** A string or blob: the least zeros that align its length, the length in the least bytes that hold it,
      the bytes, and the zeros asked for. */
  lemma BlobExact(buf: seq<Byte>, data: seq<Byte>, trailing: nat, ty: nat)
    requires |data| < U64
    ensures var (r, v) := CreateBlob(buf, data, trailing, ty);
            && r == buf + (Zeros(PaddingBytes(|buf|, v.width)) + (LE(|data|, v.width) + (data + Zeros(trailing))))
            && v.u == |r| - trailing - |data| && v.ty == ty
            && forall w: Width :: |data| < Pow256(w) <==> v.width <= w
  {
    hide Pow256, WidthU, LE, Zeros, PaddingBytes;
    var w := WidthU(|data|);
    WidthULeast(|data|);
    InOrder(buf, Zeros(PaddingBytes(|buf|, w)), LE(|data|, w), data + Zeros(trailing));
  }

  lemma InOrder(a: seq<Byte>, b: seq<Byte>, c: seq<Byte>, d: seq<Byte>)
    ensures ((a + b) + c) + d == a + (b + (c + d))
  {
    assert ((a + b) + c) + d == (a + b) + (c + d);
  }

  /** A vector or map: the least zeros that align it, its prefix, its elements, and one byte of type each. */
  lemma VectorExact(flags: Flags, buf: seq<Byte>, vs: seq<Value>, step: nat, typed: bool, keys: Option<Value>)
    requires ValuesIn(vs, |buf|) && KeysIn(keys, |buf|)
    ensures var (r, v) := CreateVector(flags, buf, vs, step, typed, keys);
            var p := PaddingBytes(|buf|, v.width);
            && v.width == VectorWidth(flags, vs, |buf|, step, keys)
            && v.u == |buf| + p + PrefixSlots(keys) * v.width
            && |r| == v.u + |vs| * v.width + (if typed then 0 else |vs|)
            && r[..|buf| + p] == buf + Zeros(p)
  {
    hide LE, VectorWidth, PaddingBytes, Zeros, Types, Elements, Header, PrefixSlots;
    var w := VectorWidth(flags, vs, |buf|, step, keys);
    var a := FlexSpec.Align(buf, w);
    var b := a + Header(keys, |vs|, |a|, w);
    StillIn(vs, |buf|, |b|);
    var c := b + Elements(vs, |b|, w);
    var r := CreateVector(flags, buf, vs, step, typed, keys).0;
    assert a <= b <= c <= r;
    assert r[..|a|] == a;
  }

  lemma StillIn(vs: seq<Value>, size: nat, more: nat)
    requires ValuesIn(vs, size) && size <= more
    ensures ValuesIn(vs, more)
  {
  }

  /** w is the largest width asked for: by the flags, the length, the keys, or an element at its index,
      counted in `step` slots for each element behind the prefix. */
  ghost predicate LargestAsked(flags: Flags, vs: seq<Value>, size: nat, step: nat, prefix: nat, keys: Width, w: Width)
    requires ValuesIn(vs, size)
  {
    && flags.forceMin <= w && WidthU(|vs|) <= w && keys <= w
    && (forall i :: 0 <= i < |vs| ==> Asks(vs, size, step, prefix, i) <= w)
    && (w == flags.forceMin || w == WidthU(|vs|) || w == keys || exists i :: 0 <= i < |vs| && Asks(vs, size, step, prefix, i) == w)
  }

  function Asks(vs: seq<Value>, size: nat, step: nat, prefix: nat, i: nat): Width
    requires ValuesIn(vs, size) && i < |vs|
  {
    ElemWidth(vs[i], size, i * step + prefix)
  }

  lemma {:induction false} WidestIsAsked(vs: seq<Value>, size: nat, step: nat, prefix: nat, least: Width)
    requires ValuesIn(vs, size)
    ensures var w := WidestElement(vs, size, step, prefix, least);
            w == least || exists i :: 0 <= i < |vs| && Asks(vs, size, step, prefix, i) == w
  {
    hide ElemWidth;
    if vs != [] {
      var n := |vs| - 1;
      WidestIsAsked(vs[..n], size, step, prefix, least);
      var w := WidestElement(vs[..n], size, step, prefix, least);
      assert Asks(vs, size, step, prefix, n) == ElemWidth(vs[n], size, n * step + prefix);
      if w != least {
        var i :| 0 <= i < n && Asks(vs[..n], size, step, prefix, i) == w;
        assert Asks(vs, size, step, prefix, i) == w;
      }
    }
  }

  lemma WidthIsAsked(flags: Flags, vs: seq<Value>, size: nat, step: nat, keys: Option<Value>)
    requires ValuesIn(vs, size) && KeysIn(keys, size)
    ensures LargestAsked(flags, vs, size, step, PrefixSlots(keys), if keys.Some? then ElemWidth(keys.value, size, 0) else 1,
                         VectorWidth(flags, vs, size, step, keys))
  {
    hide ElemWidth, WidthU, WidestElement;
    WidthCovers(flags, vs, size, step, keys);
    var least := MaxWidth(flags.forceMin, WidthU(|vs|));
    WidestIsAsked(vs, size, step, PrefixSlots(keys), if keys.Some? then MaxWidth(least, ElemWidth(keys.value, size, 0)) else least);
    forall i | 0 <= i < |vs| ensures Asks(vs, size, step, PrefixSlots(keys), i) <= VectorWidth(flags, vs, size, step, keys) {
      ElementCovered(flags, vs, size, step, keys, i);
    }
  }

  /** A vector's width is the largest asked for; a map's keys and values count two slots for each entry. */
  lemma EndVectorAsked(flags: Flags, st: State, start: nat)
    requires VectorReady(st, start)
    ensures var r := EndVector(flags, st, start);
            && |r.stack| == start + 1 && ValuesIn(st.stack[start..], |st.buf|)
            && LargestAsked(flags, st.stack[start..], |st.buf|, 1, 1, 1, r.stack[start].width)
  {
    hide ElemWidth, WidthU, VectorWidth, LargestAsked, PaddingBytes, LE, Elements, Types;
    var vs := st.stack[start..];
    assert ValuesIn(vs, |st.buf|);
    WidthIsAsked(flags, vs, |st.buf|, 1, None);
    VectorExact(flags, st.buf, vs, 1, false, None);
  }

  lemma EndMapAsked(flags: Flags, st: State, start: nat)
    requires MapReady(st, start)
    ensures var ks, vs := SortedKeys(st, start), SortedValues(st, start);
            var (kbuf, keys) := CreateVector(flags, st.buf, ks, 2, true, None);
            var r := EndMap(flags, st, start);
            && start <= |st.stack| && |r.stack| == start + 1 && ValuesIn(vs, |kbuf|) && KeysIn(Some(keys), |kbuf|)
            && LargestAsked(flags, ks, |st.buf|, 2, 1, 1, keys.width)
            && LargestAsked(flags, vs, |kbuf|, 2, 3, ElemWidth(keys, |kbuf|, 0), r.stack[start].width)
  {
    hide ElemWidth, WidthU, VectorWidth, LargestAsked, PaddingBytes, LE, Elements, Types, SortedKeys, SortedValues, CreateVector, MapReady, ValuesIn;
    var ks, vs := SortedKeys(st, start), SortedValues(st, start);
    KeyVectorIn(flags, st.buf, ks);
    var (kbuf, keys) := CreateVector(flags, st.buf, ks, 2, true, None);
    StillIn(vs, |st.buf|, |kbuf|);
    MapStarts(st, start);
    WidthIsAsked(flags, ks, |st.buf|, 2, None);
    VectorExact(flags, st.buf, ks, 2, true, None);
    WidthIsAsked(flags, vs, |kbuf|, 2, Some(keys));
    VectorExact(flags, kbuf, vs, 2, false, Some(keys));
  }

  lemma MapStarts(st: State, start: nat)
    requires MapReady(st, start)
    ensures start <= |st.stack|
  {
  }

  /** The keys are alike up to k, and there the first ends or has the smaller byte. */
  predicate SmallerAt(a: seq<Byte>, b: seq<Byte>, k: nat) {
    k <= |a| && k < |b| && a[..k] == b[..k] && (k == |a| || a[k] < b[k])
  }

  lemma SameFirst(a: seq<Byte>, b: seq<Byte>, k: nat)
    ensures SmallerAt(a, b, k) && 0 < k ==> a[0] == b[0]
  {
    if SmallerAt(a, b, k) && 0 < k { assert a[..k][0] == b[..k][0]; }
  }

  /** The order of a map's keys is that of strcmp. */
  lemma {:induction false} LessIsStrcmp(a: seq<Byte>, b: seq<Byte>)
    ensures Less(a, b) <==> exists k: nat :: SmallerAt(a, b, k)
  {
    if b != [] && a != [] && a[0] == b[0] {
      LessIsStrcmp(a[1..], b[1..]);
      if k: nat :| SmallerAt(a[1..], b[1..], k) {
        assert a[..k + 1] == [a[0]] + a[1..][..k] && b[..k + 1] == [b[0]] + b[1..][..k];
        assert SmallerAt(a, b, k + 1);
      }
      if k: nat :| SmallerAt(a, b, k) {
        assert k > 0;
        assert a[1..][..k - 1] == a[..k][1..] && b[1..][..k - 1] == b[..k][1..];
        assert SmallerAt(a[1..], b[1..], k - 1);
      }
    } else if Less(a, b) {
      assert SmallerAt(a, b, 0);
    } else {
      forall k: nat ensures !SmallerAt(a, b, k) { SameFirst(a, b, k); }
    }
  }

  /** The root: the least zeros that align it, the value, its type and its width; the width is the
      scalar's own, or the least in which the offset to the value fits. */
  lemma FinishExact(st: State)
    requires |st.stack| == 1 && ValuesIn(st.stack, |st.buf|) && |st.buf| <= MAX_SIZE
    ensures ValueIn(st.stack[0], |st.buf|)
    ensures var f, w := Finish(st), ElemWidth(st.stack[0], |st.buf|, 0);
            && |f| == |st.buf| + PaddingBytes(|st.buf|, w) + w + 2 && f[|f| - 1] == w
            && f[|f| - 2] == PackedType(st.stack[0].width, st.stack[0].ty)
            && f[..|st.buf| + PaddingBytes(|st.buf|, w)] == st.buf + Zeros(PaddingBytes(|st.buf|, w))
    ensures RootNarrow(st.stack[0], |st.buf|, ElemWidth(st.stack[0], |st.buf|, 0))
  {
    hide LE, PaddingBytes, Zeros, ElemWidth, RootNarrow;
    RootFits(st.stack[0], |st.buf|);
    assert ValueIn(st.stack[0], |st.buf|);
    var f, w := Finish(st), ElemWidth(st.stack[0], |st.buf|, 0);
    var a := FlexSpec.Align(st.buf, w);
    assert a <= f && f[..|a|] == a;
  }

  ghost predicate RootNarrow(v: Value, size: nat, w: Width)
    requires ValueIn(v, size)
  {
    if IsInline(v.ty) then w == v.width else forall u: Width :: OffsetFits(size, 0, u, v.u) <==> w <= u
  }

  lemma RootFits(v: Value, size: nat)
    requires ValueIn(v, size) && size <= MAX_SIZE
    ensures RootNarrow(v, size, ElemWidth(v, size, 0))
  {
    hide OffsetWidth, OffsetFits, Slot;
    if !IsInline(v.ty) {
      SlotBound(size, 0);
      OffsetWidthFits(size, 0, v.u);
      forall w: Width ensures OffsetFits(size, 0, w, v.u) <==> OffsetWidth(size, 0, v.u) <= w {
        if OffsetWidth(size, 0, v.u) <= w { FitsWider(size, 0, OffsetWidth(size, 0, v.u), w, v.u); }
      }
    }
  }

  /** A key not found in the pool is written with one zero behind it and nothing else. */
  lemma KeyExact(flags: Flags, st: State, str: seq<Byte>)
    ensures var r := Key(flags, st, str);
            if flags.shareKeys && exists k :: 0 <= k < |st.keyPool| && CString(st.buf, st.keyPool[k]) == Some(CPart(str))
            then r.buf == st.buf && r.keyPool == st.keyPool
            else r == State(st.buf + (str + [0]), st.stack + [Value(|st.buf|, FBT_KEY, 1)],
                            if flags.shareKeys then st.keyPool + [|st.buf|] else st.keyPool, st.stringPool)
  {
    hide CString, CPart;
  }

  predicate Pooled(st: State, str: seq<Byte>) {
    exists k :: 0 <= k < |st.stringPool| && PooledAt(st, k, str)
  }

  predicate PooledAt(st: State, k: nat, str: seq<Byte>)
    requires k < |st.stringPool|
  {
    var (p, n) := st.stringPool[k]; n == |str| && p + n <= |st.buf| && st.buf[p..p + n] == str
  }

  /** A string not found in the pool is written as a blob with one zero behind it, and pooled if strings are
      shared. */
  lemma StringExact(flags: Flags, st: State, str: seq<Byte>)
    ensures var r, (buf, v) := String(flags, st, str), CreateBlob(st.buf, str, 1, FBT_STRING);
            if flags.shareStrings && Pooled(st, str) then r.buf == st.buf && r.keyPool == st.keyPool && r.stringPool == st.stringPool
            else 0 <= v.u && r == State(buf, st.stack + [v], st.keyPool,
                                        if flags.shareStrings then st.stringPool + [(v.u as nat, |str|)] else st.stringPool)
  {
    hide LE, WidthU, PaddingBytes, Zeros;
    var found := FindString(st.buf, st.stringPool, str);
    if found.Some? {
      var k :| 0 <= k < |st.stringPool| && st.stringPool[k] == (found.value, |str|)
               && found.value + |str| <= |st.buf| && st.buf[found.value..found.value + |str|] == str;
      assert PooledAt(st, k, str);
    } else {
      forall k | 0 <= k < |st.stringPool| ensures !PooledAt(st, k, str) {}
    }
  }

  /** The byte of type behind the elements: a scalar has the vector's width, all else its own. */
  lemma TypesExact(flags: Flags, buf: seq<Byte>, vs: seq<Value>, step: nat, keys: Option<Value>, i: nat)
    requires ValuesIn(vs, |buf|) && KeysIn(keys, |buf|) && i < |vs|
    ensures var (r, v) := CreateVector(flags, buf, vs, step, false, keys);
            var at := v.u + |vs| * v.width + i;
            0 <= at < |r| && r[at] == PackedType(if IsInline(vs[i].ty) then v.width else vs[i].width, vs[i].ty)
  {
    hide LE, VectorWidth, PaddingBytes, Zeros, Elements, Header, PrefixSlots, PackedType, Types, VectorType;
    var w := VectorWidth(flags, vs, |buf|, step, keys);
    OwnWidthCovered(flags, vs, |buf|, step, keys, i);
    var a := FlexSpec.Align(buf, w);
    var b := a + Header(keys, |vs|, |a|, w);
    StillIn(vs, |buf|, |b|);
    var c := b + Elements(vs, |b|, w);
    Behind(c, Types(vs, w), i);
    TypeAt(vs, w, i);
  }

  lemma Behind(c: seq<Byte>, d: seq<Byte>, i: nat)
    requires i < |d|
    ensures (c + d)[|c| + i] == d[i]
  {
  }

  lemma TypeAt(vs: seq<Value>, w: Width, i: nat)
    requires i < |vs| && (forall k :: 0 <= k < |vs| ==> vs[k].ty < 64) && (IsInline(vs[i].ty) ==> vs[i].width <= w)
    ensures Types(vs, w)[i] == PackedType(if IsInline(vs[i].ty) then w else vs[i].width, vs[i].ty)
  {
  }

  lemma OwnWidthCovered(flags: Flags, vs: seq<Value>, size: nat, step: nat, keys: Option<Value>, i: nat)
    requires ValuesIn(vs, size) && KeysIn(keys, size) && i < |vs|
    ensures IsInline(vs[i].ty) ==> vs[i].width <= VectorWidth(flags, vs, size, step, keys)
  {
    hide VectorWidth, OffsetWidth;
    ElementCovered(flags, vs, size, step, keys, i);
  }
}
