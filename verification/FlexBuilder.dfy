/** flexbuffers::Builder: values wait on a stack until their vector or map is closed. */
module FlexBuilder {
  import opened Bytes
  import opened Wrappers
  import opened FlexWidths
  import opened FlexReader
  import opened FlexSpec
  import opened FlexLayout
  import opened FlexVectors
  import opened FlexRoundTrip

  class Builder {
    var buf: seq<Byte>
    var stack: seq<Value>
    var flags: Flags
    var keyPool: seq<nat>
    var stringPool: seq<(nat, nat)>
    var finished: bool

    function St(): State
      reads this
    {
      State(buf, stack, keyPool, stringPool)
    }

    ghost predicate Valid()
      reads this
    {
      Inv(St())
    }

    constructor (flags: Flags)
      ensures Valid() && St() == Empty && this.flags == flags && !finished
    {
      this.flags, buf, stack, keyPool, stringPool, finished := flags, [], [], [], [], false;
    }

    // ---- writing -------------------------------------------------------------------------------

    method WriteBytes(bytes: seq<Byte>)
      modifies this`buf
      ensures buf == old(buf) + bytes
    {
      buf := buf + bytes;
    }

    /** Align: zeros up to a multiple of the width. */
    method Align(w: Width)
      modifies this`buf
      ensures buf == FlexSpec.Align(old(buf), w)
    {
      buf := buf + Zeros(PaddingBytes(|buf|, w));
    }

    /** WriteOffset: how far back `target` lies; it must fit. */
    method WriteOffset(target: nat, w: Width)
      requires target <= |buf| && |buf| - target < Pow256(w)
      modifies this`buf
      ensures buf == old(buf) + LE(|old(buf)| - target, w)
    {
      WriteBytes(LE(|buf| - target, w));
    }

    /** WriteAny: a scalar's own bytes, or an offset. */
    method WriteAny(v: Value, w: Width)
      requires ValueIn(v, |buf|) && FitsSlot(v, |buf|, w)
      modifies this`buf
      ensures buf == old(buf) + LE(Raw(v, |old(buf)|), w)
    {
      if v.ty == FBT_NULL || v.ty == FBT_INT { WriteBytes(LE(v.u % U64, w)); }
      else if v.ty == FBT_BOOL || v.ty == FBT_UINT { WriteBytes(LE(v.u, w)); }
      else if IsInline(v.ty) { WriteBytes(LE(v.u % U64, w)); }
      else { WriteOffset(v.u, w); }
    }

    // ---- vectors -------------------------------------------------------------------------------

    /** Value::ElemWidth for the value at `index` slots after the present end. */
    method ElemWidth(v: Value, index: nat) returns (w: Width)
      requires ValueIn(v, |buf|) && |buf| <= MAX_SIZE && index <= MAX_STACK + 3
      ensures w == FlexSpec.ElemWidth(v, |buf|, index)
    {
      if IsInline(v.ty) { return v.width; }
      SlotBound(|buf|, index);
      w := ElemWidthLoop(|buf|, index, v.u);
    }

    /** The first part of CreateVector: the width that every element, the length and the keys need. */
    method ChooseWidth(vs: seq<Value>, step: nat, keys: Option<Value>) returns (w: Width)
      requires ValuesIn(vs, |buf|) && KeysIn(keys, |buf|) && |buf| <= MAX_SIZE
      requires 1 <= step <= 2 && step * |vs| <= MAX_STACK
      ensures w == VectorWidth(flags, vs, |buf|, step, keys)
    {
      hide WidthU, OffsetWidth, ValueIn, FlexSpec.ElemWidth, ValuesIn, WidestElement;
      w := MaxWidth(flags.forceMin, WidthU(|vs|));
      var prefix := 1;
      if keys.Some? {
        var kw := ElemWidth(keys.value, 0);
        w := MaxWidth(w, kw);
        prefix := prefix + 2;
      }
      w := WidestOf(vs, step, prefix, w);
    }

    method WidestOf(vs: seq<Value>, step: nat, prefix: nat, least: Width) returns (w: Width)
      requires ValuesIn(vs, |buf|) && |buf| <= MAX_SIZE && 1 <= step <= 2 && step * |vs| <= MAX_STACK && prefix <= 3
      ensures w == WidestElement(vs, |buf|, step, prefix, least)
    {
      hide ValueIn, FlexSpec.ElemWidth, ValuesIn, WidestElement;
      w := least;
      var i := 0;
      NoElements(vs, |buf|, step, prefix, least);
      while i < |vs|
        invariant 0 <= i <= |vs|
        invariant ValuesIn(vs[..i], |buf|) && w == WidestElement(vs[..i], |buf|, step, prefix, least)
      {
        NextElement(vs, |buf|, step, prefix, least, i);
        var ew := ElemWidth(vs[i], i * step + prefix);
        w := MaxWidth(w, ew);
        i := i + 1;
      }
      assert vs[..i] == vs;
    }

    /** The elements, one slot after the other. */
    method WriteElements(vs: seq<Value>, w: Width)
      requires ValuesIn(vs, |buf|) && forall i :: 0 <= i < |vs| ==> FitsSlot(vs[i], |buf| + i * w, w)
      modifies this`buf
      ensures buf == old(buf) + Elements(vs, |old(buf)|, w)
    {
      hide LE, Raw, FitsSlot, ValueIn, ValuesIn, Elements;
      ghost var pos := |buf|;
      var i := 0;
      NoneWritten(vs, pos, w);
      while i < |vs|
        invariant 0 <= i <= |vs|
        invariant ValuesIn(vs[..i], pos) && buf == old(buf) + Elements(vs[..i], pos, w)
      {
        FirstIn(vs, pos, i + 1);
        ElementsUnfold(vs[..i + 1], pos, w);
        assert vs[..i + 1][..i] == vs[..i];
        WriteAny(vs[i], w);
        i := i + 1;
      }
      assert vs[..i] == vs;
    }

    /** The types behind an untyped vector's elements. */
    method WriteTypes(vs: seq<Value>, w: Width)
      requires forall k :: 0 <= k < |vs| ==> vs[k].ty < 64
      modifies this`buf
      ensures buf == old(buf) + Types(vs, w)
    {
      hide StoredType;
      var i := 0;
      while i < |vs|
        invariant 0 <= i <= |vs|
        invariant buf == old(buf) + Types(vs, w)[..i]
      {
        buf := buf + [StoredType(vs[i], w)];
        assert Types(vs, w)[..i + 1] == Types(vs, w)[..i] + [Types(vs, w)[i]];
        i := i + 1;
      }
      assert Types(vs, w)[..i] == Types(vs, w);
    }

    /** For a map the offset and the width of its keys; the length. */
    method WriteHeader(keys: Option<Value>, len: nat, w: Width)
      requires KeysIn(keys, |buf|) && (keys.Some? ==> |buf| - keys.value.u < Pow256(w))
      modifies this`buf
      ensures buf == old(buf) + Header(keys, len, |old(buf)|, w)
    {
      hide LE, Pow256;
      if keys.Some? {
        WriteOffset(keys.value.u, w);
        WriteBytes(LE(keys.value.width, w));
      }
      WriteBytes(LE(len, w));
    }

    /** CreateVector over every `step`-th value of the stack.  The assertion of WriteOffset never fails. */
    method CreateVector(vs: seq<Value>, step: nat, typed: bool, keys: Option<Value>) returns (v: Value)
      requires ValuesIn(vs, |buf|) && KeysIn(keys, |buf|) && |buf| <= MAX_SIZE
      requires 1 <= step <= 2 && step * |vs| <= MAX_STACK
      modifies this`buf
      ensures (buf, v) == FlexSpec.CreateVector(flags, old(buf), vs, step, typed, keys)
    {
      hide LE, FitsSlot, ValuesIn, Elements, Types, VectorWidth, Slot, Header, WidthU, Pow256, VectorType, Prefix;
      ghost var size := |buf|;
      var w := ChooseWidth(vs, step, keys);
      AlignedSlot(buf, w);
      Align(w);
      SlotSteps(size, PrefixSlots(keys), w);
      ValuesStay(vs, size, |buf|);
      if keys.Some? { KeysSuit(flags, vs, size, step, keys.value); }
      WriteHeader(keys, |vs|, w);
      ValuesStay(vs, size, |buf|);
      forall i | 0 <= i < |vs| ensures FitsSlot(vs[i], |buf| + i * w, w) {
        ElementSuits(flags, vs, size, step, keys, i);
      }
      v := Value(|buf|, VectorType(vs, typed, keys), w);
      WriteElements(vs, w);
      if !typed {
        TypesFit(vs, size);
        WriteTypes(vs, w);
      }
    }

    // ---- scalars -------------------------------------------------------------------------------

    method PushValue(v: Value)
      modifies this`stack
      ensures St() == Push(old(St()), v)
    {
      stack := stack + [v];
    }

    // ---- keys, strings and blobs ---------------------------------------------------------------

    /** The pooled key with the same characters; strcmp sees nothing past the first zero. */
    method FindKey(key: seq<Byte>) returns (r: Option<nat>)
      ensures r == FlexSpec.FindKey(buf, keyPool, key)
    {
      hide CString;
      var k := 0;
      while k < |keyPool|
        invariant 0 <= k <= |keyPool|
        invariant FlexSpec.FindKey(buf, keyPool, key) == FlexSpec.FindKey(buf, keyPool[k..], key)
      {
        if CString(buf, keyPool[k]) == Some(key) { return Some(keyPool[k]); }
        k := k + 1;
      }
      assert keyPool[k..] == [];
      r := None;
    }

    /** Serializes the key; an equal pooled one makes it be taken back. */
    method Key(str: seq<Byte>) returns (sloc: nat)
      requires Valid()
      modifies this`buf, this`stack, this`keyPool
      ensures St() == FlexSpec.Key(flags, old(St()), str)
      ensures Valid() && CString(buf, sloc) == Some(CPart(str))
    {
      hide CString, CPart, FlexSpec.FindKey, Inv, KeyPooled, StringPooled;
      ghost var st := St();
      KeyStands(flags, st, str);
      sloc := |buf|;
      WriteBytes(str + [0]);
      if flags.shareKeys {
        FindKeyStable(st.buf, buf, st, CPart(str));
        var found := FindKey(CPart(str));
        if found.Some? {
          buf := buf[..sloc];
          sloc := found.value;
        } else {
          keyPool := keyPool + [sloc];
        }
      }
      stack := stack + [Value(sloc, FBT_KEY, 1)];
      assert st.buf + (str + [0]) == st.buf + str + [0];
      assert St().buf == FlexSpec.Key(flags, st, str).buf;
    }

    method FindString(str: seq<Byte>) returns (r: Option<nat>)
      ensures r == FlexSpec.FindString(buf, stringPool, str)
    {
      var k := 0;
      while k < |stringPool|
        invariant 0 <= k <= |stringPool|
        invariant FlexSpec.FindString(buf, stringPool, str) == FlexSpec.FindString(buf, stringPool[k..], str)
      {
        var (p, len) := stringPool[k];
        if len == |str| && p + |str| <= |buf| && buf[p..p + |str|] == str { return Some(p); }
        k := k + 1;
      }
      assert stringPool[k..] == [];
      r := None;
    }

    /** CreateBlob: the length in as few bytes as hold it, the bytes, `trailing` zeros. */
    method CreateBlob(data: seq<Byte>, trailing: nat, ty: nat) returns (v: Value)
      modifies this`buf
      ensures (buf, v) == FlexSpec.CreateBlob(old(buf), data, trailing, ty)
    {
      hide LE, WidthU, FlexSpec.Align;
      var w := WidthU(|data|);
      Align(w);
      WriteBytes(LE(|data|, w));
      v := Value(|buf|, ty, w);
      WriteBytes(data + Zeros(trailing));
    }

    /** Serializes the string; if strings are shared, an equal pooled one makes it be taken back. */
    method String(str: seq<Byte>)
      requires Valid() && |str| < U64
      modifies this`buf, this`stack, this`stringPool
      ensures Valid() && St() == FlexSpec.String(flags, old(St()), str)
    {
      hide FlexSpec.CreateBlob, FlexSpec.FindString, Inv, StringAt, ReadBytes;
      ghost var st := St();
      StringStands(flags, st, str);
      BlobReads(buf, str, 1, FBT_STRING);
      var resetTo := |buf|;
      var v := CreateBlob(str, 1, FBT_STRING);
      if flags.shareStrings {
        FindStringStable(st.buf, buf, st, str);
        var found := FindString(str);
        if found.Some? {
          buf := buf[..resetTo];
          v := v.(u := found.value);
        } else {
          stringPool := stringPool + [(v.u, |str|)];
        }
      }
      stack := stack + [v];
    }

    method Blob(bytes: seq<Byte>)
      requires Valid() && |bytes| < U64
      modifies this`buf, this`stack
      ensures Valid() && St() == FlexSpec.Blob(old(St()), bytes)
    {
      hide FlexSpec.CreateBlob, Inv;
      BlobStands(flags, St(), bytes);
      var v := CreateBlob(bytes, 0, FBT_BLOB);
      stack := stack + [v];
    }

    // ---- closing vectors and maps --------------------------------------------------------------

    method EndVector(start: nat)
      requires Valid() && start <= |stack| && |buf| <= MAX_SIZE && |stack| - start <= MAX_STACK
      modifies this`buf, this`stack
      ensures VectorReady(old(St()), start) && St() == FlexSpec.EndVector(flags, old(St()), start)
    {
      hide FlexSpec.CreateVector, PoolsOk;
      var v := CreateVector(stack[start..], 1, false, None);
      stack := stack[..start] + [v];
    }

    /** EndMap: the pairs sorted by key, a key vector, the values' vector. */
    method EndMap(start: nat)
      requires Valid() && MapReady(St(), start) && |stack| - start <= MAX_STACK
      requires |FlexSpec.EndMap(flags, St(), start).buf| <= MAX_SIZE
      modifies this`buf, this`stack
      ensures St() == FlexSpec.EndMap(flags, old(St()), start)
    {
      hide FlexSpec.CreateVector, PoolsOk, Order, KeyStrings, MapReady;
      MapSizes(flags, St(), start);
      SortedSizes(St(), start);
      var ks, vs := SortedKeys(St(), start), SortedValues(St(), start);
      var keys := CreateVector(ks, 2, true, None);
      ValuesStay(vs, |old(buf)|, |buf|);
      var v := CreateVector(vs, 2, false, Some(keys));
      stack := stack[..start] + [v];
    }

    // ---- finishing -----------------------------------------------------------------------------

    /** Finish: the root value, its type, its width. */
    method Finish()
      requires Valid() && !finished && |stack| == 1 && |buf| <= MAX_SIZE
      modifies this`buf, this`finished
      ensures finished && buf == FlexSpec.Finish(old(St()))
    {
      hide LE, Slot, OffsetWidth, Pow256, Prefix;
      var v := stack[0];
      var w := ElemWidth(v, 0);
      AlignedSlot(buf, w);
      PrefixShorter(buf, FlexSpec.Align(buf, w));
      if !IsInline(v.ty) { OffsetSuits(|buf|, 0, 0, v.u, w); }
      Align(w);
      WriteAny(v, w);
      WriteBytes([StoredType(v, 1)]);
      WriteBytes([w]);
      finished := true;
    }

    // ---- whole trees ---------------------------------------------------------------------------

    /** The calls that build a tree. */
    method Add(t: Tree)
      requires Valid() && Storable(t)
      requires FlexRoundTrip.Add(flags, St(), t).Some? && |FlexRoundTrip.Add(flags, St(), t).value.buf| <= MAX_SIZE
      modifies this`buf, this`stack, this`keyPool, this`stringPool
      ensures Valid() && Some(St()) == FlexRoundTrip.Add(flags, old(St()), t)
      decreases t, 1
    {
      hide Inv, CString;
      ghost var st := St();
      AddStands(flags, st, t);
      match t
      case TNull => PushValue(NullValue());
      case TBool(b) => PushValue(BoolValue(b));
      case TInt(i) => PushValue(IntValue(i));
      case TUInt(u) => PushValue(UIntValue(u));
      case TString(str) => String(str);
      case TBlob(bytes) => Blob(bytes);
      case TVector(ts) => AddVector(t);
      case TMap(es) => AddMap(t);
    }

    method AddVector(t: Tree)
      requires Valid() && Storable(t) && t.TVector?
      requires FlexRoundTrip.Add(flags, St(), t).Some? && |FlexRoundTrip.Add(flags, St(), t).value.buf| <= MAX_SIZE
      modifies this`buf, this`stack, this`keyPool, this`stringPool
      ensures Some(St()) == FlexRoundTrip.Add(flags, old(St()), t)
      decreases t, 0
    {
      hide Inv, FlexSpec.EndVector;
      ghost var st := St();
      var start := |stack|;
      var i := 0;
      while i < |t.elems|
        invariant 0 <= i <= |t.elems|
        invariant Valid() && AddElements(flags, st, t, i) == Some(St())
      {
        ElementRoom(flags, st, t, i);
        Add(t.elems[i]);
        i := i + 1;
      }
      VectorRoom(flags, st, t);
      EndVector(start);
    }

    method AddMap(t: Tree)
      requires Valid() && Storable(t) && t.TMap?
      requires FlexRoundTrip.Add(flags, St(), t).Some? && |FlexRoundTrip.Add(flags, St(), t).value.buf| <= MAX_SIZE
      modifies this`buf, this`stack, this`keyPool, this`stringPool
      ensures Some(St()) == FlexRoundTrip.Add(flags, old(St()), t)
      decreases t, 0
    {
      hide Inv, FlexSpec.EndMap, FlexSpec.Key, CString;
      ghost var st := St();
      var start := |stack|;
      var i := 0;
      while i < |t.entries|
        invariant 0 <= i <= |t.entries|
        invariant Valid() && AddEntries(flags, st, t, i) == Some(St())
      {
        EntryRoom(flags, st, t, i);
        var _ := Key(t.entries[i].key);
        Add(t.entries[i].value);
        i := i + 1;
      }
      MapRoom(flags, st, t);
      EndMap(start);
    }
  }

  lemma NoneWritten(vs: seq<Value>, pos: nat, w: Width)
    ensures ValuesIn(vs[..0], pos) && Elements(vs[..0], pos, w) == []
  {
  }

  lemma TypesFit(vs: seq<Value>, size: nat)
    requires ValuesIn(vs, size)
    ensures forall k :: 0 <= k < |vs| ==> vs[k].ty < 64
  {
  }

  lemma NoElements(vs: seq<Value>, size: nat, step: nat, prefix: nat, least: Width)
    ensures ValuesIn(vs[..0], size) && WidestElement(vs[..0], size, step, prefix, least) == least
  {
  }

  lemma NextElement(vs: seq<Value>, size: nat, step: nat, prefix: nat, least: Width, i: nat)
    requires ValuesIn(vs, size) && i < |vs| && 1 <= step <= 2
    ensures ValuesIn(vs[..i], size) && ValuesIn(vs[..i + 1], size) && ValueIn(vs[i], size)
    ensures i * step <= step * |vs|
    ensures WidestElement(vs[..i + 1], size, step, prefix, least)
         == MaxWidth(WidestElement(vs[..i], size, step, prefix, least), FlexSpec.ElemWidth(vs[i], size, i * step + prefix))
  {
    hide FlexSpec.ElemWidth, ValueIn;
    assert vs[..i + 1][..i] == vs[..i];
  }

  lemma FirstIn(vs: seq<Value>, pos: nat, n: nat)
    requires ValuesIn(vs, pos) && n <= |vs|
    ensures ValuesIn(vs[..n], pos)
  {
  }

  lemma {:induction false} SameFindKey(older: seq<Byte>, newer: seq<Byte>, pool: seq<nat>, key: seq<Byte>)
    requires Prefix(older, newer) && forall k :: 0 <= k < |pool| ==> KeyPooled(older, pool[k])
    ensures FlexSpec.FindKey(newer, pool, key) == FlexSpec.FindKey(older, pool, key)
  {
    hide CString, Prefix;
    if pool != [] {
      assert KeyPooled(older, pool[0]);
      CStringStable(older, newer, pool[0]);
      forall k | 0 <= k < |pool[1..]| ensures KeyPooled(older, pool[1..][k]) { assert KeyPooled(older, pool[k + 1]); }
      SameFindKey(older, newer, pool[1..], key);
    }
  }

  lemma FindKeyStable(older: seq<Byte>, newer: seq<Byte>, st: State, key: seq<Byte>)
    requires Inv(st) && older == st.buf && Prefix(older, newer)
    ensures FlexSpec.FindKey(newer, st.keyPool, key) == FlexSpec.FindKey(older, st.keyPool, key)
  {
    hide CString, Prefix;
    SameFindKey(older, newer, st.keyPool, key);
  }

  lemma {:induction false} SameFindString(older: seq<Byte>, newer: seq<Byte>, pool: seq<(nat, nat)>, str: seq<Byte>)
    requires Prefix(older, newer) && forall k :: 0 <= k < |pool| ==> pool[k].0 + pool[k].1 <= |older|
    ensures FlexSpec.FindString(newer, pool, str) == FlexSpec.FindString(older, pool, str)
  {
    hide Prefix;
    if pool != [] {
      if pool[0].1 == |str| { SliceStable(older, newer, pool[0].0, pool[0].0 + |str|); }
      SameFindString(older, newer, pool[1..], str);
    }
  }

  lemma FindStringStable(older: seq<Byte>, newer: seq<Byte>, st: State, str: seq<Byte>)
    requires Inv(st) && older == st.buf && Prefix(older, newer)
    ensures FlexSpec.FindString(newer, st.stringPool, str) == FlexSpec.FindString(older, st.stringPool, str)
  {
    hide Prefix, ReadSize, WidthU;
    forall k | 0 <= k < |st.stringPool| ensures st.stringPool[k].0 + st.stringPool[k].1 <= |older| {
      assert StringPooled(older, st.stringPool[k].0, st.stringPool[k].1);
    }
    SameFindString(older, newer, st.stringPool, str);
  }

  // ---- room: what fits at the end fits on the way ----------------------------------------------

  lemma MapSizes(flags: Flags, st: State, start: nat)
    requires MapReady(st, start)
    ensures var (kbuf, keys) := FlexSpec.CreateVector(flags, st.buf, SortedKeys(st, start), 2, true, None);
            && |st.buf| <= |kbuf| <= |EndMap(flags, st, start).buf| && KeysIn(Some(keys), |kbuf|)
  {
    hide FlexSpec.CreateVector, SortedKeys, SortedValues, Prefix;
    KeyVectorShape(flags, st.buf, SortedKeys(st, start));
    var (kbuf, keys) := FlexSpec.CreateVector(flags, st.buf, SortedKeys(st, start), 2, true, None);
    ValuesStay(SortedValues(st, start), |st.buf|, |kbuf|);
    TypedVectorIn(flags, kbuf, SortedValues(st, start), 2, Some(keys));
    PrefixShorter(kbuf, EndMap(flags, st, start).buf);
  }

  lemma AddGrows(flags: Flags, st: State, t: Tree)
    requires Inv(st) && Storable(t)
    ensures FlexRoundTrip.Add(flags, st, t).Some?
    ensures var r := FlexRoundTrip.Add(flags, st, t).value; Inv(r) && |st.buf| <= |r.buf|
  {
    hide Stands, Inv, FlexRoundTrip.Add;
    AddStands(flags, st, t);
    assert Added(st, FlexRoundTrip.Add(flags, st, t).value, Normal(t));
  }

  lemma ElementsStep(flags: Flags, st: State, t: Tree, n: nat)
    requires t.TVector? && n < |t.elems| && AddElements(flags, st, t, n).Some?
    ensures AddElements(flags, st, t, n + 1) == FlexRoundTrip.Add(flags, AddElements(flags, st, t, n).value, t.elems[n])
  {
  }

  lemma EntriesStep(flags: Flags, st: State, t: Tree, n: nat)
    requires t.TMap? && n < |t.entries| && AddEntries(flags, st, t, n).Some?
    ensures AddEntries(flags, st, t, n + 1)
         == FlexRoundTrip.Add(flags, FlexSpec.Key(flags, AddEntries(flags, st, t, n).value, t.entries[n].key), t.entries[n].value)
  {
  }

  lemma {:induction false} ElementsGrow(flags: Flags, st: State, t: Tree, n: nat, m: nat)
    requires Inv(st) && t.TVector? && Storable(t) && n <= m <= |t.elems|
    ensures AddElements(flags, st, t, n).Some? && AddElements(flags, st, t, m).Some?
    ensures Inv(AddElements(flags, st, t, n).value)
    ensures |AddElements(flags, st, t, n).value.buf| <= |AddElements(flags, st, t, m).value.buf|
    decreases m - n
  {
    hide Inv, FlexRoundTrip.Add, AddElements;
    ElementsStand(flags, st, t, n);
    ElementsStand(flags, st, t, m);
    if n < m {
      ElementsGrow(flags, st, t, n + 1, m);
      AddGrows(flags, AddElements(flags, st, t, n).value, t.elems[n]);
      ElementsStep(flags, st, t, n);
    }
  }

  lemma VectorRoom(flags: Flags, st: State, t: Tree)
    requires Inv(st) && t.TVector? && Storable(t)
    ensures var s := AddElements(flags, st, t, |t.elems|);
            && s.Some? && |s.value.stack| == |st.stack| + |t.elems| && VectorReady(s.value, |st.stack|)
            && FlexRoundTrip.Add(flags, st, t) == Some(EndVector(flags, s.value, |st.stack|))
            && |s.value.buf| <= |EndVector(flags, s.value, |st.stack|).buf|
  {
    hide AllStand, FlexSpec.CreateVector, PoolsOk, AddElements, Prefix;
    ElementsStand(flags, st, t, |t.elems|);
    var s := AddElements(flags, st, t, |t.elems|).value;
    TypedVectorIn(flags, s.buf, s.stack[|st.stack|..], 1, None);
    PrefixShorter(s.buf, EndVector(flags, s, |st.stack|).buf);
  }

  lemma ElementRoom(flags: Flags, st: State, t: Tree, i: nat)
    requires Inv(st) && t.TVector? && Storable(t) && i < |t.elems|
    requires FlexRoundTrip.Add(flags, st, t).Some? && |FlexRoundTrip.Add(flags, st, t).value.buf| <= MAX_SIZE
    ensures AddElements(flags, st, t, i).Some?
    ensures var r := FlexRoundTrip.Add(flags, AddElements(flags, st, t, i).value, t.elems[i]);
            r.Some? && |r.value.buf| <= MAX_SIZE && r == AddElements(flags, st, t, i + 1)
  {
    hide Inv, FlexRoundTrip.Add, EndVector;
    VectorRoom(flags, st, t);
    ElementsGrow(flags, st, t, i, i + 1);
    ElementsGrow(flags, st, t, i + 1, |t.elems|);
  }

  lemma {:induction false} EntriesGrow(flags: Flags, st: State, t: Tree, n: nat, m: nat)
    requires Inv(st) && t.TMap? && Storable(t) && n <= m <= |t.entries|
    ensures AddEntries(flags, st, t, n).Some? && AddEntries(flags, st, t, m).Some?
    ensures Inv(AddEntries(flags, st, t, n).value)
    ensures |AddEntries(flags, st, t, n).value.buf| <= |AddEntries(flags, st, t, m).value.buf|
    decreases m - n
  {
    hide Inv, FlexRoundTrip.Add, AddEntries, FlexSpec.Key, NamedBy, Prefix, Stands;
    EntriesStand(flags, st, t, n);
    EntriesStand(flags, st, t, m);
    if n < m {
      EntriesGrow(flags, st, t, n + 1, m);
      var s := AddEntries(flags, st, t, n).value;
      KeyGrows(flags, s, t.entries[n].key);
      AddGrows(flags, FlexSpec.Key(flags, s, t.entries[n].key), t.entries[n].value);
      EntriesStep(flags, st, t, n);
    }
  }

  lemma KeyGrows(flags: Flags, st: State, str: seq<Byte>)
    requires Inv(st)
    ensures var r := FlexSpec.Key(flags, st, str); Inv(r) && |st.buf| <= |r.buf|
  {
    hide Inv, FlexSpec.Key, NamedBy;
    KeyStands(flags, st, str);
  }

  lemma MapRoom(flags: Flags, st: State, t: Tree)
    requires Inv(st) && t.TMap? && Storable(t)
    ensures var s := AddEntries(flags, st, t, |t.entries|);
            && s.Some? && |s.value.stack| == |st.stack| + 2 * |t.entries| && MapReady(s.value, |st.stack|)
            && FlexRoundTrip.Add(flags, st, t) == Some(EndMap(flags, s.value, |st.stack|))
            && |s.value.buf| <= |EndMap(flags, s.value, |st.stack|).buf|
  {
    hide Stands, PoolsOk, ValuesIn, AddEntries, Prefix, EndMap, MapReady, NamedBy, CString;
    EntriesStand(flags, st, t, |t.entries|);
    var s := AddEntries(flags, st, t, |t.entries|).value;
    assert NormalEntries(t)[..|t.entries|] == NormalEntries(t);
    EndMapStands(flags, st, s, NormalEntries(t));
    MapSizes(flags, s, |st.stack|);
  }

  lemma SortedSizes(st: State, start: nat)
    requires MapReady(st, start)
    ensures start <= |st.stack|
    ensures 2 * |SortedKeys(st, start)| == |st.stack| - start && 2 * |SortedValues(st, start)| == |st.stack| - start
  {
  }

  lemma EntryRoom(flags: Flags, st: State, t: Tree, i: nat)
    requires Inv(st) && t.TMap? && Storable(t) && i < |t.entries|
    requires FlexRoundTrip.Add(flags, st, t).Some? && |FlexRoundTrip.Add(flags, st, t).value.buf| <= MAX_SIZE
    ensures AddEntries(flags, st, t, i).Some?
    ensures var k := FlexSpec.Key(flags, AddEntries(flags, st, t, i).value, t.entries[i].key);
            var r := FlexRoundTrip.Add(flags, k, t.entries[i].value);
            r.Some? && |r.value.buf| <= MAX_SIZE && r == AddEntries(flags, st, t, i + 1)
  {
    hide Inv, FlexRoundTrip.Add, EndMap, FlexSpec.Key;
    MapRoom(flags, st, t);
    EntriesGrow(flags, st, t, i, i + 1);
    EntriesGrow(flags, st, t, i + 1, |t.entries|);
  }

  /** The whole way: whatever the tree, the finished bytes read back as it from their root. */
  method Encode(flags: Flags, t: Tree) returns (bytes: seq<Byte>)
    requires Storable(t)
    requires FlexRoundTrip.Add(flags, FlexSpec.Empty, t).Some? && |FlexRoundTrip.Add(flags, FlexSpec.Empty, t).value.buf| <= MAX_SIZE
    ensures GetRoot(bytes).Some? && Reads(bytes, GetRoot(bytes).value, Normal(t))
  {
    hide Inv, FlexRoundTrip.Add, FlexSpec.Finish, Reads, GetRoot, Storable, Normal;
    RoundTrip(flags, t);
    var b := new Builder(flags);
    b.Add(t);
    b.Finish();
    bytes := b.buf;
  }
}
