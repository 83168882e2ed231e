/** Building any tree of values and reading it back. */
module FlexRoundTrip {
  import opened Bytes
  import opened Wrappers
  import opened FlexWidths
  import opened FlexReader
  import opened FlexSpec
  import opened FlexLayout
  import opened FlexVectors

  // ---- the tree as it is read: keys up to their first zero, maps sorted by key -----------------

  function Names(es: seq<Entry>): (r: seq<seq<Byte>>)
    ensures |r| == |es| && forall i :: 0 <= i < |r| ==> r[i] == es[i].key
  {
    seq(|es|, i requires 0 <= i < |es| => es[i].key)
  }

  function SortEntries(es: seq<Entry>): (r: seq<Entry>) {
    Arrange(es, Order(Names(es)))
  }

  function NormalEntries(t: Tree): (r: seq<Entry>)
    requires t.TMap?
    ensures |r| == |t.entries|
    decreases t, 0
  {
    seq(|t.entries|, i requires 0 <= i < |t.entries| => Entry(CPart(t.entries[i].key), Normal(t.entries[i].value)))
  }

  function Normal(t: Tree): Tree
    decreases t, 1
  {
    match t
    case TVector(ts) => TVector(seq(|ts|, i requires 0 <= i < |ts| => Normal(ts[i])))
    case TMap(es) => TMap(SortEntries(NormalEntries(t)))
    case _ => t
  }

  /** Numbers of 64 bits and as many elements as can be on the stack. */
  predicate Storable(t: Tree) {
    match t
    case TInt(i) => IsInt64(i)
    case TUInt(u) => u < U64
    case TString(s) => |s| <= MAX_SIZE
    case TBlob(s) => |s| <= MAX_SIZE
    case TVector(ts) => |ts| <= MAX_STACK && forall i :: 0 <= i < |ts| ==> Storable(ts[i])
    case TMap(es) => 2 * |es| <= MAX_STACK && forall i :: 0 <= i < |es| ==> Storable(es[i].value)
    case _ => true
  }

  // ---- building --------------------------------------------------------------------------------

  /** The calls that build a tree: vectors and maps between their start and their end. */
  function Add(flags: Flags, st: State, t: Tree): Option<State>
    decreases t, 1
  {
    match t
    case TNull => Some(Push(st, NullValue()))
    case TBool(b) => Some(Push(st, BoolValue(b)))
    case TInt(i) => Some(Push(st, IntValue(i)))
    case TUInt(u) => Some(Push(st, UIntValue(u)))
    case TString(s) => Some(String(flags, st, s))
    case TBlob(s) => Some(Blob(st, s))
    case TVector(ts) =>
      var s :- AddElements(flags, st, t, |ts|);
      if VectorReady(s, |st.stack|) then Some(EndVector(flags, s, |st.stack|)) else None
    case TMap(es) =>
      var s :- AddEntries(flags, st, t, |es|);
      if MapReady(s, |st.stack|) then Some(EndMap(flags, s, |st.stack|)) else None
  }

  function AddElements(flags: Flags, st: State, t: Tree, n: nat): Option<State>
    requires t.TVector? && n <= |t.elems|
    decreases t, 0, n
  {
    if n == 0 then Some(st)
    else
      var s :- AddElements(flags, st, t, n - 1);
      Add(flags, s, t.elems[n - 1])
  }

  function AddEntries(flags: Flags, st: State, t: Tree, n: nat): Option<State>
    requires t.TMap? && n <= |t.entries|
    decreases t, 0, n
  {
    if n == 0 then Some(st)
    else
      var s :- AddEntries(flags, st, t, n - 1);
      Add(flags, Key(flags, s, t.entries[n - 1].key), t.entries[n - 1].value)
  }

  // ---- the builder's invariant -----------------------------------------------------------------

  ghost predicate KeyPooled(buf: seq<Byte>, p: nat) {
    p <= |buf| && CString(buf, p).Some?
  }

  ghost predicate StringPooled(buf: seq<Byte>, p: nat, n: nat) {
    p <= |buf| && StringAt(buf, p, WidthU(n)).Some? && |StringAt(buf, p, WidthU(n)).value| == n
  }

  ghost predicate PoolsOk(st: State) {
    && (forall k :: 0 <= k < |st.keyPool| ==> KeyPooled(st.buf, st.keyPool[k]))
    && (forall k :: 0 <= k < |st.stringPool| ==> StringPooled(st.buf, st.stringPool[k].0, st.stringPool[k].1))
  }

  ghost predicate Inv(st: State) {
    ValuesIn(st.stack, |st.buf|) && PoolsOk(st)
  }

  lemma PoolsStay(st: State, r: State)
    requires PoolsOk(st) && Prefix(st.buf, r.buf) && r.keyPool == st.keyPool && r.stringPool == st.stringPool
    ensures PoolsOk(r)
  {
    forall k | 0 <= k < |r.keyPool| ensures KeyPooled(r.buf, r.keyPool[k]) {
      assert KeyPooled(st.buf, st.keyPool[k]);
      CStringStable(st.buf, r.buf, r.keyPool[k]);
    }
    forall k | 0 <= k < |r.stringPool| ensures StringPooled(r.buf, r.stringPool[k].0, r.stringPool[k].1) {
      assert StringPooled(st.buf, st.stringPool[k].0, st.stringPool[k].1);
      StringAtStable(st.buf, r.buf, r.stringPool[k].0, WidthU(r.stringPool[k].1));
    }
  }

  /** One more value on the stack, and it stands for t. */
  ghost predicate Added(st: State, r: State, t: Tree) {
    && Inv(r) && Prefix(st.buf, r.buf)
    && |r.stack| == |st.stack| + 1 && r.stack[..|st.stack|] == st.stack
    && (|r.buf| <= MAX_SIZE ==> Stands(r.buf, r.stack[|st.stack|], t))
  }

  lemma PushStands(st: State, v: Value, t: Tree)
    requires Inv(st) && Stands(st.buf, v, t)
    ensures Added(st, Push(st, v), t)
  {
    hide Stands, ValueIn;
    StandsIn(st.buf, v, t);
    var r := Push(st, v);
    forall k | 0 <= k < |r.stack| ensures ValueIn(r.stack[k], |r.buf|) {
      if k < |st.stack| { assert r.stack[k] == st.stack[k]; }
    }
  }

  // ---- strings, blobs and keys -----------------------------------------------------------------

  /** What CreateBlob wrote reads as the bytes. */
  lemma BlobReads(buf: seq<Byte>, data: seq<Byte>, trailing: nat, ty: nat)
    requires |data| < U64
    ensures var (r, v) := CreateBlob(buf, data, trailing, ty);
            && Prefix(buf, r) && 0 <= v.u <= |r| && v.width == WidthU(|data|) && v.ty == ty
            && ReadBytes(r, v.u, v.width) == Some(data)
            && v.u + |data| + trailing == |r| && (0 < trailing ==> r[v.u + |data|] == 0)
  {
    hide LE, FromLE, Pow256, WidthU, Align;
    var w := WidthU(|data|);
    var a := Align(buf, w);
    AlignedSlot(buf, w);
    var b := a + LE(|data|, w);
    var r := b + (data + Zeros(trailing));
    assert r[|b| - w..|b|] == LE(|data|, w);
    LengthReads(r, |data|, |b|, w);
    assert r[|b|..|b| + |data|] == data;
  }

  lemma BlobStands(flags: Flags, st: State, bytes: seq<Byte>)
    requires Inv(st) && |bytes| < U64
    ensures Added(st, Blob(st, bytes), TBlob(bytes))
  {
    hide CreateBlob, PoolsOk, ReadBytes;
    var (buf, v) := CreateBlob(st.buf, bytes, 0, FBT_BLOB);
    var r := Blob(st, bytes);
    BlobReads(st.buf, bytes, 0, FBT_BLOB);
    PoolsStay(st, r);
    PushedIn(st, r, v);
  }

  lemma PushedIn(st: State, r: State, v: Value)
    requires ValuesIn(st.stack, |st.buf|) && |st.buf| <= |r.buf| && r.stack == st.stack + [v] && ValueIn(v, |r.buf|)
    ensures ValuesIn(r.stack, |r.buf|) && |r.stack| == |st.stack| + 1 && r.stack[..|st.stack|] == st.stack
    ensures r.stack[|st.stack|] == v
  {
  }

  /** Pooled bytes of the right length are the whole pooled string. */
  lemma PooledString(buf: seq<Byte>, p: nat, str: seq<Byte>)
    requires StringPooled(buf, p, |str|) && p + |str| <= |buf| && buf[p..p + |str|] == str
    ensures StringAt(buf, p, WidthU(|str|)) == Some(str)
  {
    hide WidthU, ReadSize;
  }

  /** A string, shared or not, stands for its bytes. */
  lemma StringStands(flags: Flags, st: State, str: seq<Byte>)
    requires Inv(st) && |str| < U64
    ensures Added(st, String(flags, st, str), TString(str))
  {
    hide CreateBlob, StringAt, ReadBytes, PoolsOk, WidthU, FindString;
    var (buf, v) := CreateBlob(st.buf, str, 1, FBT_STRING);
    var r := String(flags, st, str);
    BlobReads(st.buf, str, 1, FBT_STRING);
    var found := if flags.shareStrings then FindString(st.buf, st.stringPool, str) else None;
    match found
    case Some(p) =>
      PoolsStay(st, r);
      assert exists k :: 0 <= k < |st.stringPool| && st.stringPool[k] == (p, |str|)
                         && p + |str| <= |st.buf| && st.buf[p..p + |str|] == str;
      var k :| 0 <= k < |st.stringPool| && st.stringPool[k] == (p, |str|)
               && p + |str| <= |st.buf| && st.buf[p..p + |str|] == str;
      PooledAt(st, k);
      PooledString(st.buf, p, str);
      PushedIn(st, r, v.(u := p));
    case None =>
      StringWritten(buf, v.u, v.width, str);
      NewPool(st, r, v.u, str, flags);
      PushedIn(st, r, v);
  }

  lemma PooledAt(st: State, k: nat)
    requires PoolsOk(st) && k < |st.stringPool|
    ensures StringPooled(st.buf, st.stringPool[k].0, st.stringPool[k].1)
  {
  }

  lemma StringWritten(buf: seq<Byte>, data: nat, w: Width, str: seq<Byte>)
    requires ReadBytes(buf, data, w) == Some(str) && data + |str| < |buf| && buf[data + |str|] == 0
    ensures StringAt(buf, data, w) == Some(str)
  {
  }

  lemma NewPool(st: State, r: State, p: nat, str: seq<Byte>, flags: Flags)
    requires PoolsOk(st) && Prefix(st.buf, r.buf) && p <= |r.buf| && StringAt(r.buf, p, WidthU(|str|)) == Some(str)
    requires r.keyPool == st.keyPool
    requires r.stringPool == if flags.shareStrings then st.stringPool + [(p, |str|)] else st.stringPool
    ensures PoolsOk(r)
  {
    hide StringAt, WidthU, CString;
    PoolsStay(st, r.(stringPool := st.stringPool));
    var m := r.(stringPool := st.stringPool);
    forall k | 0 <= k < |r.stringPool| ensures StringPooled(r.buf, r.stringPool[k].0, r.stringPool[k].1) {
      if k < |st.stringPool| { assert StringPooled(m.buf, m.stringPool[k].0, m.stringPool[k].1); }
    }
    forall k | 0 <= k < |r.keyPool| ensures KeyPooled(r.buf, r.keyPool[k]) {
      assert KeyPooled(m.buf, m.keyPool[k]);
    }
  }

  lemma {:induction false} KeyWritten(buf: seq<Byte>, str: seq<Byte>, i: nat)
    requires i <= |str|
    ensures CString(buf + (str + [0]), |buf| + i) == Some(CPart(str[i..]))
    decreases |str| - i
  {
    var r := buf + (str + [0]);
    if i == |str| {
      assert r[|buf| + i] == 0 && str[i..] == [];
    } else {
      assert r[|buf| + i] == str[i] == str[i..][0];
      KeyWritten(buf, str, i + 1);
      assert str[i..][1..] == str[i + 1..];
    }
  }

  /** A key on the stack leads to the bytes of its name. */
  ghost predicate KeyAdded(st: State, r: State, name: seq<Byte>) {
    && Inv(r) && Prefix(st.buf, r.buf)
    && |r.stack| == |st.stack| + 1 && r.stack[..|st.stack|] == st.stack
    && NamedBy(r.buf, r.stack[|st.stack|], name)
  }

  ghost predicate NamedBy(buf: seq<Byte>, v: Value, name: seq<Byte>) {
    v.ty == FBT_KEY && 0 <= v.u <= |buf| && CString(buf, v.u) == Some(name)
  }

  lemma KeyStands(flags: Flags, st: State, str: seq<Byte>)
    requires Inv(st)
    ensures KeyAdded(st, Key(flags, st, str), CPart(str))
  {
    hide CString, StringAt, FindKey, CPart, WidthU;
    var r := Key(flags, st, str);
    KeyWritten(st.buf, str, 0);
    assert str[0..] == str;
    var found := if flags.shareKeys then FindKey(st.buf, st.keyPool, CPart(str)) else None;
    match found
    case Some(p) =>
      PoolsStay(st, r);
      var k :| 0 <= k < |st.keyPool| && st.keyPool[k] == p;
      assert KeyPooled(st.buf, st.keyPool[k]);
      PushedIn(st, r, Value(p, FBT_KEY, 1));
    case None =>
      var m := r.(keyPool := st.keyPool);
      PoolsStay(st, m);
      forall k | 0 <= k < |r.keyPool| ensures KeyPooled(r.buf, r.keyPool[k]) {
        if k < |st.keyPool| { assert KeyPooled(m.buf, m.keyPool[k]); }
      }
      forall k | 0 <= k < |r.stringPool| ensures StringPooled(r.buf, r.stringPool[k].0, r.stringPool[k].1) {
        assert StringPooled(m.buf, m.stringPool[k].0, m.stringPool[k].1);
      }
      PushedIn(st, r, Value(|st.buf|, FBT_KEY, 1));
  }

  // ---- vectors ---------------------------------------------------------------------------------

  /** As many values on top of the stack as there are trees, each standing for its tree. */
  ghost predicate AddedAll(st: State, r: State, ts: seq<Tree>) {
    && Inv(r) && Prefix(st.buf, r.buf)
    && |r.stack| == |st.stack| + |ts| && r.stack[..|st.stack|] == st.stack
    && (|r.buf| <= MAX_SIZE ==> AllStand(r.buf, r.stack[|st.stack|..], ts))
  }

  lemma PrefixTransitive(a: seq<Byte>, b: seq<Byte>, c: seq<Byte>)
    requires Prefix(a, b) && Prefix(b, c)
    ensures Prefix(a, c) && |a| <= |b| <= |c|
  {
    assert c[..|a|] == c[..|b|][..|a|];
  }

  lemma AllStandStable(older: seq<Byte>, newer: seq<Byte>, vs: seq<Value>, ts: seq<Tree>)
    requires Prefix(older, newer) && AllStand(older, vs, ts)
    ensures AllStand(newer, vs, ts)
  {
    hide Stands, Prefix;
    forall i | 0 <= i < |vs| ensures Stands(newer, vs[i], ts[i]) { StandsStable(older, newer, vs[i], ts[i]); }
  }

  lemma OneMoreAdded(st: State, s: State, r: State, ts: seq<Tree>, t: Tree)
    requires AddedAll(st, s, ts) && Added(s, r, t)
    ensures AddedAll(st, r, ts + [t])
  {
    hide Stands, Prefix, Inv;
    PrefixTransitive(st.buf, s.buf, r.buf);
    var base := |st.stack|;
    assert r.stack[..base] == r.stack[..|s.stack|][..base];
    if |r.buf| <= MAX_SIZE {
      AllStandStable(s.buf, r.buf, s.stack[base..], ts);
      forall i | 0 <= i < |ts| + 1 ensures Stands(r.buf, r.stack[base..][i], (ts + [t])[i]) {
        if i < |ts| { assert r.stack[base + i] == r.stack[..|s.stack|][base + i] == s.stack[base..][i]; }
      }
    }
  }

  lemma TypedVectorIn(flags: Flags, buf: seq<Byte>, vs: seq<Value>, step: nat, keys: Option<Value>)
    requires ValuesIn(vs, |buf|) && KeysIn(keys, |buf|)
    ensures var (r, v) := CreateVector(flags, buf, vs, step, false, keys);
            Prefix(buf, r) && ValueIn(v, |r|) && v.ty == if keys.Some? then FBT_MAP else FBT_VECTOR
  {
    hide CreateVector, VectorWidth, Slot;
    CreateVectorLays(flags, buf, vs, step, false, keys);
  }

  /** The state after a vector or map was closed. */
  lemma Closed(st: State, s: State, r: State, v: Value, t: Tree)
    requires Inv(s) && Prefix(st.buf, s.buf) && Prefix(s.buf, r.buf) && ValueIn(v, |r.buf|)
    requires |st.stack| <= |s.stack| && s.stack[..|st.stack|] == st.stack
    requires r == s.(buf := r.buf, stack := s.stack[..|st.stack|] + [v])
    requires |r.buf| <= MAX_SIZE ==> Stands(r.buf, v, t)
    ensures Added(st, r, t)
  {
    hide Stands, PoolsOk;
    PrefixTransitive(st.buf, s.buf, r.buf);
    PoolsStay(s, r);
    forall k | 0 <= k < |r.stack| ensures ValueIn(r.stack[k], |r.buf|) {
      if k < |st.stack| { assert r.stack[k] == s.stack[k]; }
    }
  }

  lemma EndVectorStands(flags: Flags, st: State, s: State, ts: seq<Tree>)
    requires AddedAll(st, s, ts) && |ts| <= MAX_STACK
    ensures VectorReady(s, |st.stack|) && Added(st, EndVector(flags, s, |st.stack|), TVector(ts))
  {
    hide Stands, Prefix, CreateVector, Reads, Element, ReadSize, PoolsOk, AllStand;
    var base := |st.stack|;
    var vs := s.stack[base..];
    assert ValuesIn(vs, |s.buf|);
    TypedVectorIn(flags, s.buf, vs, 1, None);
    var (r, v) := CreateVector(flags, s.buf, vs, 1, false, None);
    PrefixShorter(s.buf, r);
    if |r| <= MAX_SIZE {
      ElementsRead(flags, s.buf, vs, ts, 1, None);
      assert Stands(r, v, TVector(ts)) by { VectorStands(r, v, ts); }
    }
    Closed(st, s, EndVector(flags, s, base), v, TVector(ts));
  }

  lemma VectorStands(r: seq<Byte>, v: Value, ts: seq<Tree>)
    requires v.ty == FBT_VECTOR && 0 <= v.u <= |r| && ReadSize(r, v.u, v.width) == Some(|ts|)
    requires forall i :: 0 <= i < |ts| ==>
               Element(r, v.u, v.width, i).Some? && Reads(r, Element(r, v.u, v.width, i).value, ts[i])
    ensures Stands(r, v, TVector(ts))
  {
    hide Element, ReadSize;
  }

  // ---- maps ------------------------------------------------------------------------------------

  /** Keys and values alternate on top of the stack. */
  ghost predicate EntriesAdded(st: State, r: State, es: seq<Entry>) {
    && Inv(r) && Prefix(st.buf, r.buf)
    && |r.stack| == |st.stack| + 2 * |es| && r.stack[..|st.stack|] == st.stack
    && (forall i :: 0 <= i < |es| ==> NamedBy(r.buf, r.stack[|st.stack| + 2 * i], es[i].key))
    && (|r.buf| <= MAX_SIZE ==>
          forall i :: 0 <= i < |es| ==> Stands(r.buf, r.stack[|st.stack| + 2 * i + 1], es[i].value))
  }

  lemma NamedStable(older: seq<Byte>, newer: seq<Byte>, v: Value, name: seq<Byte>)
    requires Prefix(older, newer) && NamedBy(older, v, name)
    ensures NamedBy(newer, v, name)
  {
    CStringStable(older, newer, v.u);
  }

  lemma OneMoreEntry(st: State, s: State, k: State, r: State, es: seq<Entry>, e: Entry)
    requires EntriesAdded(st, s, es) && KeyAdded(s, k, e.key) && Added(k, r, e.value)
    ensures EntriesAdded(st, r, es + [e])
  {
    hide Stands, Prefix, Inv, NamedBy;
    PrefixTransitive(s.buf, k.buf, r.buf);
    PrefixTransitive(st.buf, s.buf, r.buf);
    var base := |st.stack|;
    assert r.stack[..|s.stack|] == s.stack by { assert r.stack[..|k.stack|][..|s.stack|] == r.stack[..|s.stack|]; }
    assert r.stack[..base] == r.stack[..|s.stack|][..base];
    assert r.stack[|s.stack|] == r.stack[..|k.stack|][|s.stack|];
    NamedStable(k.buf, r.buf, r.stack[|s.stack|], e.key);
    forall i | 0 <= i < |es| + 1 ensures NamedBy(r.buf, r.stack[base + 2 * i], (es + [e])[i].key) {
      if i < |es| {
        assert r.stack[base + 2 * i] == r.stack[..|s.stack|][base + 2 * i];
        NamedStable(s.buf, r.buf, s.stack[base + 2 * i], es[i].key);
      }
    }
    if |r.buf| <= MAX_SIZE {
      forall i | 0 <= i < |es| + 1 ensures Stands(r.buf, r.stack[base + 2 * i + 1], (es + [e])[i].value) {
        if i < |es| {
          assert r.stack[base + 2 * i + 1] == r.stack[..|s.stack|][base + 2 * i + 1];
          StandsStable(s.buf, r.buf, s.stack[base + 2 * i + 1], es[i].value);
        }
      }
    }
  }

  function Values(es: seq<Entry>): (r: seq<Tree>)
    ensures |r| == |es| && forall i :: 0 <= i < |r| ==> r[i] == es[i].value
  {
    seq(|es|, i requires 0 <= i < |es| => es[i].value)
  }

  lemma KeyVectorShape(flags: Flags, buf: seq<Byte>, ks: seq<Value>)
    requires ValuesIn(ks, |buf|) && forall j :: 0 <= j < |ks| ==> ks[j].ty == FBT_KEY
    ensures var (kbuf, keys) := CreateVector(flags, buf, ks, 2, true, None);
            Prefix(buf, kbuf) && |buf| <= |kbuf| && KeysIn(Some(keys), |kbuf|)
  {
    hide CreateVector, VectorWidth, Slot;
    CreateVectorLays(flags, buf, ks, 2, true, None);
  }

  /** In the finished map the prefix leads to the key vector. */
  lemma MapFindsKeys(flags: Flags, kbuf: seq<Byte>, vs: seq<Value>, keys: Value, r: seq<Byte>, v: Value)
    requires ValuesIn(vs, |kbuf|) && KeysIn(Some(keys), |kbuf|) && |kbuf| <= MAX_SIZE
    requires CreateVector(flags, kbuf, vs, 2, false, Some(keys)) == (r, v)
    ensures 0 <= v.u && KeysOf(r, v.u, v.width) == Some((keys.u as nat, keys.width))
  {
    hide CreateVector, VectorWidth, Slot, VectorLaid, Prefix, ValuesIn, KeysOf, KeysLaid;
    CreateVectorLays(flags, kbuf, vs, 2, false, Some(keys));
    KeysAreLaid(flags, kbuf, vs, 2, keys);
    KeysSuit(flags, vs, |kbuf|, 2, keys);
    SlotSteps(|kbuf|, 3, v.width);
    KeysFound(r, keys, v.u, v.width);
  }

  lemma KeysStillRead(kbuf: seq<Byte>, r: seq<Byte>, k: nat, kw: Width, data: nat, w: Width, es: seq<Entry>)
    requires Prefix(kbuf, r) && KeysOf(r, data, w) == Some((k, kw))
    requires ReadSize(kbuf, k, kw) == Some(|es|)
    requires forall j :: 0 <= j < |es| ==> KeyAt(kbuf, k, kw, j) == Some(es[j].key)
    ensures ReadsKeys(r, data, w, es)
  {
    hide Prefix, KeyAt, KeysOf, ReadUInt;
    UIntStable(kbuf, r, k - kw, kw);
    forall j | 0 <= j < |es| ensures KeyAt(r, k, kw, j) == Some(es[j].key) {
      KeyStable(kbuf, r, k, kw, j);
    }
  }

  /** Keys become a key vector and the values a vector that leads to it; together they read as a map
      with the entries in that order. */
  lemma MapStands(flags: Flags, buf: seq<Byte>, ks: seq<Value>, vs: seq<Value>, es: seq<Entry>,
                  kbuf: seq<Byte>, keys: Value, r: seq<Byte>, v: Value)
    requires AllNamed(buf, ks, Names(es)) && AllStand(buf, vs, Values(es)) && 2 * |es| <= MAX_STACK
    requires ValuesIn(ks, |buf|) && CreateVector(flags, buf, ks, 2, true, None) == (kbuf, keys)
    requires ValuesIn(vs, |kbuf|) && KeysIn(Some(keys), |kbuf|) && Prefix(buf, kbuf)
    requires CreateVector(flags, kbuf, vs, 2, false, Some(keys)) == (r, v) && |r| <= MAX_SIZE
    ensures Stands(r, v, TMap(es))
  {
    hide Stands, Prefix, CreateVector, Reads, Element, ReadSize, AllStand, KeyAt, KeysOf, ReadsKeys, ValuesIn;
    AsMany(buf, vs, Values(es));
    TypedVectorIn(flags, kbuf, vs, 2, Some(keys));
    PrefixShorter(buf, kbuf);
    PrefixShorter(kbuf, r);
    KeyVectorReads(flags, buf, ks, Names(es));
    AllStandStable(buf, kbuf, vs, Values(es));
    ElementsRead(flags, kbuf, vs, Values(es), 2, Some(keys));
    MapFindsKeys(flags, kbuf, vs, keys, r, v);
    KeysStillRead(kbuf, r, keys.u, keys.width, v.u, v.width, es);
    MapReads(r, v, es);
  }

  lemma AsMany(buf: seq<Byte>, vs: seq<Value>, ts: seq<Tree>)
    requires AllStand(buf, vs, ts)
    ensures |vs| == |ts|
  {
  }

  lemma MapReads(r: seq<Byte>, v: Value, es: seq<Entry>)
    requires v.ty == FBT_MAP && 0 <= v.u <= |r| && ReadSize(r, v.u, v.width) == Some(|es|)
    requires ReadsKeys(r, v.u, v.width, es)
    requires forall i :: 0 <= i < |es| ==>
               Element(r, v.u, v.width, i).Some? && Reads(r, Element(r, v.u, v.width, i).value, Values(es)[i])
    ensures Stands(r, v, TMap(es))
  {
    hide Element, ReadSize, ReadsKeys;
  }

  lemma ArrangedNamed(buf: seq<Byte>, ks: seq<Value>, es: seq<Entry>, order: seq<nat>)
    requires |ks| == |es| && forall j :: 0 <= j < |order| ==> order[j] < |es|
    requires forall i :: 0 <= i < |es| ==> NamedBy(buf, ks[i], es[i].key)
    ensures AllNamed(buf, Arrange(ks, order), Names(Arrange(es, order)))
  {
    hide CString;
    forall j | 0 <= j < |order| ensures NamedBy(buf, Arrange(ks, order)[j], es[order[j]].key) {
      assert NamedBy(buf, ks[order[j]], es[order[j]].key);
    }
  }

  lemma ArrangedStand(buf: seq<Byte>, vs: seq<Value>, es: seq<Entry>, order: seq<nat>)
    requires |vs| == |es| && forall j :: 0 <= j < |order| ==> order[j] < |es|
    requires forall i :: 0 <= i < |es| ==> Stands(buf, vs[i], es[i].value)
    ensures AllStand(buf, Arrange(vs, order), Values(Arrange(es, order)))
  {
    hide Stands;
    forall j | 0 <= j < |order| ensures Stands(buf, Arrange(vs, order)[j], es[order[j]].value) {
      assert Stands(buf, vs[order[j]], es[order[j]].value);
    }
  }

  lemma KeyStringsAre(buf: seq<Byte>, ks: seq<Value>, es: seq<Entry>)
    requires |ks| == |es| && forall i :: 0 <= i < |es| ==> NamedBy(buf, ks[i], es[i].key)
    ensures KeysReadable(buf, ks) && KeyStrings(buf, ks) == Names(es)
  {
    hide CString;
    forall i | 0 <= i < |es| ensures ks[i].ty == FBT_KEY && ks[i].u >= 0 && CString(buf, ks[i].u) == Some(es[i].key) {
      assert NamedBy(buf, ks[i], es[i].key);
    }
  }

  /** EndMap: the entries sorted by key. */
  lemma EndMapStands(flags: Flags, st: State, s: State, es: seq<Entry>)
    requires EntriesAdded(st, s, es) && 2 * |es| <= MAX_STACK
    ensures MapReady(s, |st.stack|) && Added(st, EndMap(flags, s, |st.stack|), TMap(SortEntries(es)))
  {
    hide Stands, Prefix, CreateVector, PoolsOk, NamedBy, MapReady, AllNamed, AllStand, SortedKeys, SortedValues;
    var base := |st.stack|;
    EntriesReady(st, s, es);
    var ks, vs := SortedKeys(s, base), SortedValues(s, base);
    KeyVectorShape(flags, s.buf, ks);
    var (kbuf, keys) := CreateVector(flags, s.buf, ks, 2, true, None);
    ValuesStay(vs, |s.buf|, |kbuf|);
    TypedVectorIn(flags, kbuf, vs, 2, Some(keys));
    var (r, v) := CreateVector(flags, kbuf, vs, 2, false, Some(keys));
    PrefixTransitive(s.buf, kbuf, r);
    if |r| <= MAX_SIZE { MapStands(flags, s.buf, ks, vs, SortEntries(es), kbuf, keys, r, v); }
    Closed(st, s, EndMap(flags, s, base), v, TMap(SortEntries(es)));
  }

  /** What is sorted are the entries: their names lead, and their values stand. */
  lemma EntriesReady(st: State, s: State, es: seq<Entry>)
    requires EntriesAdded(st, s, es)
    ensures MapReady(s, |st.stack|)
    ensures AllNamed(s.buf, SortedKeys(s, |st.stack|), Names(SortEntries(es)))
    ensures |s.buf| <= MAX_SIZE ==> AllStand(s.buf, SortedValues(s, |st.stack|), Values(SortEntries(es)))
  {
    hide Stands, Prefix, PoolsOk, NamedBy, KeyStrings, Order, KeysReadable, AllNamed, AllStand;
    var base, n := |st.stack|, |es|;
    var ks, vs := Every2nd(s.stack, base, n), Every2nd(s.stack, base + 1, n);
    KeyStringsAre(s.buf, ks, es);
    assert (|s.stack| - base) / 2 == n;
    var order := Order(Names(es));
    ArrangedNamed(s.buf, ks, es, order);
    if |s.buf| <= MAX_SIZE { ArrangedStand(s.buf, vs, es, order); }
  }

  // ---- whole trees -----------------------------------------------------------------------------

  function NormalElements(t: Tree, n: nat): (r: seq<Tree>)
    requires t.TVector? && n <= |t.elems|
    ensures |r| == n
  {
    seq(n, i requires 0 <= i < n => Normal(t.elems[i]))
  }

  lemma ScalarStands(flags: Flags, st: State, t: Tree)
    requires Inv(st) && Storable(t) && (t.TNull? || t.TBool? || t.TInt? || t.TUInt?)
    ensures Add(flags, st, t).Some? && Added(st, Add(flags, st, t).value, t)
  {
    hide Inv, Added, WidthI, WidthU;
    match t
    case TNull => PushStands(st, NullValue(), t);
    case TBool(b) => PushStands(st, BoolValue(b), t);
    case TInt(i) => PushStands(st, IntValue(i), t);
    case TUInt(u) => PushStands(st, UIntValue(u), t);
  }

  lemma NothingAdded(st: State)
    requires Inv(st)
    ensures AddedAll(st, st, []) && EntriesAdded(st, st, [])
  {
  }

  /** Building a tree leaves one value that stands for it. */
  lemma {:induction false} AddStands(flags: Flags, st: State, t: Tree)
    requires Inv(st) && Storable(t)
    ensures Add(flags, st, t).Some? && Added(st, Add(flags, st, t).value, Normal(t))
    decreases t, 1
  {
    hide Stands, Added, PoolsOk, ValuesIn, EndVector, EndMap, VectorReady, MapReady, SortEntries, CreateBlob, String, Blob;
    match t
    case TNull => ScalarStands(flags, st, t);
    case TBool(_) => ScalarStands(flags, st, t);
    case TInt(_) => ScalarStands(flags, st, t);
    case TUInt(_) => ScalarStands(flags, st, t);
    case TString(str) => StringStands(flags, st, str);
    case TBlob(bytes) => BlobStands(flags, st, bytes);
    case TVector(ts) =>
      ElementsStand(flags, st, t, |ts|);
      var s := AddElements(flags, st, t, |ts|).value;
      EndVectorStands(flags, st, s, NormalElements(t, |ts|));
      assert Normal(t) == TVector(NormalElements(t, |ts|));
    case TMap(es) =>
      EntriesStand(flags, st, t, |es|);
      var s := AddEntries(flags, st, t, |es|).value;
      assert NormalEntries(t)[..|es|] == NormalEntries(t);
      EndMapStands(flags, st, s, NormalEntries(t));
  }

  lemma {:induction false} ElementsStand(flags: Flags, st: State, t: Tree, n: nat)
    requires Inv(st) && t.TVector? && Storable(t) && n <= |t.elems|
    ensures AddElements(flags, st, t, n).Some? && AddedAll(st, AddElements(flags, st, t, n).value, NormalElements(t, n))
    decreases t, 0, n
  {
    hide Stands, PoolsOk, ValuesIn, Add, Added, AllStand, Prefix, Normal;
    if n == 0 {
      NothingAdded(st);
      assert NormalElements(t, 0) == [];
    } else {
      ElementsStand(flags, st, t, n - 1);
      var s := AddElements(flags, st, t, n - 1).value;
      AddStands(flags, s, t.elems[n - 1]);
      OneMoreAdded(st, s, AddElements(flags, st, t, n).value, NormalElements(t, n - 1), Normal(t.elems[n - 1]));
      assert NormalElements(t, n) == NormalElements(t, n - 1) + [Normal(t.elems[n - 1])];
    }
  }

  lemma {:induction false} EntriesStand(flags: Flags, st: State, t: Tree, n: nat)
    requires Inv(st) && t.TMap? && Storable(t) && n <= |t.entries|
    ensures AddEntries(flags, st, t, n).Some?
    ensures EntriesAdded(st, AddEntries(flags, st, t, n).value, NormalEntries(t)[..n])
    decreases t, 0, n
  {
    hide Stands, PoolsOk, ValuesIn, NamedBy, Key, Add, Added, Prefix, Normal, CPart;
    if n == 0 {
      NothingAdded(st);
      assert NormalEntries(t)[..0] == [];
    } else {
      EntriesStand(flags, st, t, n - 1);
      var s := AddEntries(flags, st, t, n - 1).value;
      var e := t.entries[n - 1];
      KeyStands(flags, s, e.key);
      AddStands(flags, Key(flags, s, e.key), e.value);
      var ns := NormalEntries(t);
      assert ns[n - 1] == Entry(CPart(e.key), Normal(e.value));
      OneMoreEntry(st, s, Key(flags, s, e.key), AddEntries(flags, st, t, n).value, ns[..n - 1], ns[n - 1]);
      assert ns[..n] == ns[..n - 1] + [ns[n - 1]];
    }
  }

  // ---- the finished buffer ---------------------------------------------------------------------

  /** GetRoot finds what Finish wrote last. */
  lemma FinishReads(st: State, t: Tree)
    requires |st.stack| == 1 && ValuesIn(st.stack, |st.buf|) && Stands(st.buf, st.stack[0], t)
    requires |st.buf| <= MAX_SIZE
    ensures var f := Finish(st); GetRoot(f).Some? && Reads(f, GetRoot(f).value, t)
  {
    hide Stands, Slot, OffsetWidth, LE, Reads, StoredType;
    var v := st.stack[0];
    var w := ElemWidth(v, |st.buf|, 0);
    var a := Align(st.buf, w);
    AlignedSlot(st.buf, w);
    if !IsInline(v.ty) { OffsetSuits(|st.buf|, 0, 0, v.u, w); }
    var f := Finish(st);
    assert Prefix(st.buf, f);
    assert f[|a|..|a| + w] == LE(Raw(v, |a|), w);
    StandsStable(st.buf, f, v, t);
    SlotReads(f, v, t, |a|, w);
    assert f[|f| - 1] == w && f[|f| - 2] == StoredType(v, 1);
    var p := StoredType(v, 1);
    assert Unpack(|a|, w, p) == Reference(|a|, w, StoredWidth(v, 1), v.ty);
  }

  /** Round trip: a tree of any shape, with keys and strings shared or not and whatever least width is
      forced, reads back from the root as the same tree, its maps sorted by key. */
  lemma RoundTrip(flags: Flags, t: Tree)
    requires Storable(t)
    ensures Add(flags, Empty, t).Some?
    ensures var st := Add(flags, Empty, t).value;
            && |st.stack| == 1 && ValuesIn(st.stack, |st.buf|)
            && (|st.buf| <= MAX_SIZE ==> GetRoot(Finish(st)).Some? && Reads(Finish(st), GetRoot(Finish(st)).value, Normal(t)))
  {
    hide Add, Stands, Reads, Finish, GetRoot, Normal, Storable;
    AddStands(flags, Empty, t);
    var st := Add(flags, Empty, t).value;
    if |st.buf| <= MAX_SIZE { FinishReads(st, Normal(t)); }
  }
}
