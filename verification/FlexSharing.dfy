/** Sharing of keys and strings: with it on, two keys get one place exactly if they are equal up to their
    first zero, two strings exactly if they are equal, whatever was built in between. */
module FlexSharing {
  import opened Bytes
  import opened Wrappers
  import opened FlexWidths
  import opened FlexReader
  import opened FlexSpec
  import opened FlexRoundTrip

  /** Where pooled strings lie ascends, and is inside what is written. */
  predicate Ascends(st: State) {
    && (forall i :: 0 <= i < |st.stringPool| ==> st.stringPool[i].0 <= |st.buf|)
    && forall i, j :: 0 <= i < j < |st.stringPool| ==> st.stringPool[i].0 < st.stringPool[j].0
  }

  /** More was built: nothing written or pooled before was lost. */
  ghost predicate Grown(st: State, r: State) {
    && Prefix(st.buf, r.buf) && st.keyPool <= r.keyPool && st.stringPool <= r.stringPool
    && (Ascends(st) ==> Ascends(r))
  }

  lemma GrownInTurn(a: State, b: State, c: State)
    requires Grown(a, b) && Grown(b, c)
    ensures Grown(a, c)
  {
    PrefixTransitive(a.buf, b.buf, c.buf);
  }

  /** The same pools over more bytes. */
  lemma SamePools(st: State, r: State)
    requires Prefix(st.buf, r.buf) && r.keyPool == st.keyPool && r.stringPool == st.stringPool
    ensures Grown(st, r)
  {
  }

  lemma KeyGrows(flags: Flags, st: State, str: seq<Byte>)
    ensures Grown(st, Key(flags, st, str))
  {
    hide FindKey, CPart;
  }

  lemma StringGrows(flags: Flags, st: State, str: seq<Byte>)
    ensures Grown(st, String(flags, st, str))
  {
    hide FindString, LE, WidthU;
  }

  lemma BlobGrows(st: State, bytes: seq<Byte>)
    ensures Grown(st, Blob(st, bytes))
  {
    hide LE, WidthU;
    SamePools(st, Blob(st, bytes));
  }

  lemma VectorGrows(flags: Flags, buf: seq<Byte>, vs: seq<Value>, step: nat, typed: bool, keys: Option<Value>)
    requires ValuesIn(vs, |buf|) && KeysIn(keys, |buf|)
    ensures Prefix(buf, CreateVector(flags, buf, vs, step, typed, keys).0)
  {
    hide LE, VectorWidth, Elements, Types, Header, VectorType, ValuesIn, KeysIn;
  }

  lemma EndVectorGrows(flags: Flags, st: State, start: nat)
    requires VectorReady(st, start)
    ensures Grown(st, EndVector(flags, st, start))
  {
    hide CreateVector, ValuesIn, Ascends;
    StackIn(st, start);
    VectorGrows(flags, st.buf, st.stack[start..], 1, false, None);
    SamePools(st, EndVector(flags, st, start));
  }

  lemma StackIn(st: State, start: nat)
    requires VectorReady(st, start)
    ensures ValuesIn(st.stack[start..], |st.buf|)
  {
  }

  lemma EndMapGrows(flags: Flags, st: State, start: nat)
    requires MapReady(st, start)
    ensures Grown(st, EndMap(flags, st, start))
  {
    hide CreateVector, ValuesIn, SortedKeys, SortedValues, Ascends, MapReady;
    KeyVectorIn(flags, st.buf, SortedKeys(st, start));
    var (kbuf, keys) := CreateVector(flags, st.buf, SortedKeys(st, start), 2, true, None);
    VectorGrows(flags, st.buf, SortedKeys(st, start), 2, true, None);
    MoreRoom(SortedValues(st, start), |st.buf|, |kbuf|);
    VectorGrows(flags, kbuf, SortedValues(st, start), 2, false, Some(keys));
    PrefixTransitive(st.buf, kbuf, EndMap(flags, st, start).buf);
    SamePools(st, EndMap(flags, st, start));
  }

  lemma MoreRoom(vs: seq<Value>, size: nat, more: nat)
    requires ValuesIn(vs, size) && size <= more
    ensures ValuesIn(vs, more)
  {
  }

  /** Whatever tree is built, nothing is lost. */
  lemma {:induction false} AddGrows(flags: Flags, st: State, t: Tree)
    requires Add(flags, st, t).Some?
    ensures Grown(st, Add(flags, st, t).value)
    decreases t, 1
  {
    hide Grown, EndVector, EndMap, VectorReady, MapReady, String, Blob;
    match t
    case TString(str) => StringGrows(flags, st, str);
    case TBlob(bytes) => BlobGrows(st, bytes);
    case TVector(ts) =>
      ElementsGrow(flags, st, t, |ts|);
      var s := AddElements(flags, st, t, |ts|).value;
      EndVectorGrows(flags, s, |st.stack|);
      GrownInTurn(st, s, Add(flags, st, t).value);
    case TMap(es) =>
      EntriesGrow(flags, st, t, |es|);
      var s := AddEntries(flags, st, t, |es|).value;
      EndMapGrows(flags, s, |st.stack|);
      GrownInTurn(st, s, Add(flags, st, t).value);
    case _ => SamePools(st, Add(flags, st, t).value);
  }

  lemma {:induction false} ElementsGrow(flags: Flags, st: State, t: Tree, n: nat)
    requires t.TVector? && n <= |t.elems| && AddElements(flags, st, t, n).Some?
    ensures Grown(st, AddElements(flags, st, t, n).value)
    decreases t, 0, n
  {
    hide Grown, Add;
    if n == 0 {
      SamePools(st, st);
    } else {
      ElementsGrow(flags, st, t, n - 1);
      var s := AddElements(flags, st, t, n - 1).value;
      AddGrows(flags, s, t.elems[n - 1]);
      GrownInTurn(st, s, AddElements(flags, st, t, n).value);
    }
  }

  lemma {:induction false} EntriesGrow(flags: Flags, st: State, t: Tree, n: nat)
    requires t.TMap? && n <= |t.entries| && AddEntries(flags, st, t, n).Some?
    ensures Grown(st, AddEntries(flags, st, t, n).value)
    decreases t, 0, n
  {
    hide Grown, Add, Key;
    if n == 0 {
      SamePools(st, st);
    } else {
      EntriesGrow(flags, st, t, n - 1);
      var s := AddEntries(flags, st, t, n - 1).value;
      var e := t.entries[n - 1];
      KeyGrows(flags, s, e.key);
      AddGrows(flags, Key(flags, s, e.key), e.value);
      GrownInTurn(st, s, Key(flags, s, e.key));
      GrownInTurn(st, Key(flags, s, e.key), AddEntries(flags, st, t, n).value);
    }
  }

  // ---- the pools are searched ------------------------------------------------------------------

  predicate KeysPooled(buf: seq<Byte>, pool: seq<nat>) {
    forall k :: 0 <= k < |pool| ==> CString(buf, pool[k]).Some?
  }

  lemma SameWindow(older: seq<Byte>, newer: seq<Byte>, p: nat, n: nat)
    requires Prefix(older, newer) && p + n <= |older|
    ensures |older| <= |newer| && newer[p..p + n] == older[p..p + n]
  {
    var a, b := newer[p..p + n], older[p..p + n];
    forall k | 0 <= k < |a| ensures a[k] == b[k] {
      assert a[k] == newer[p + k] && newer[p + k] == newer[..|older|][p + k];
    }
  }

  predicate IsThere(buf: seq<Byte>, p: nat, n: nat, str: seq<Byte>) {
    n == |str| && p + n <= |buf| && buf[p..p + n] == str
  }

  lemma NoStrings(buf: seq<Byte>, str: seq<Byte>)
    ensures FindString(buf, [], str) == None
  {
  }

  lemma FirstString(buf: seq<Byte>, pool: seq<(nat, nat)>, str: seq<Byte>)
    requires pool != []
    ensures var (p, n) := pool[0];
            FindString(buf, pool, str) == if IsThere(buf, p, n, str) then Some(p) else FindString(buf, pool[1..], str)
  {
  }

  /** What was found in the pool of keys is found again, and what was not is found once it is added. */
  lemma {:induction false} KeyFound(older: seq<Byte>, newer: seq<Byte>, pool: seq<nat>, more: seq<nat>, key: seq<Byte>)
    requires Prefix(older, newer) && KeysPooled(older, pool)
    ensures FindKey(newer, pool + more, key)
         == if FindKey(older, pool, key).Some? then FindKey(older, pool, key) else FindKey(newer, more, key)
  {
    hide CString, Prefix;
    if pool == [] {
      assert pool + more == more;
    } else {
      CStringStable(older, newer, pool[0]);
      assert (pool + more)[1..] == pool[1..] + more;
      KeyFound(older, newer, pool[1..], more, key);
    }
  }

  predicate StringsPooled(buf: seq<Byte>, pool: seq<(nat, nat)>) {
    forall k :: 0 <= k < |pool| ==> pool[k].0 + pool[k].1 <= |buf|
  }

  lemma {:induction false} StringFound(older: seq<Byte>, newer: seq<Byte>, pool: seq<(nat, nat)>, more: seq<(nat, nat)>, str: seq<Byte>)
    requires Prefix(older, newer) && StringsPooled(older, pool)
    ensures FindString(newer, pool + more, str)
         == if FindString(older, pool, str).Some? then FindString(older, pool, str) else FindString(newer, more, str)
  {
    hide FindString, Prefix;
    NoStrings(older, str);
    if pool == [] {
      assert pool + more == more;
    } else {
      var (p, n) := pool[0];
      SameWindow(older, newer, p, n);
      assert (pool + more)[1..] == pool[1..] + more && (pool + more)[0] == (p, n);
      StringFound(older, newer, pool[1..], more, str);
      FirstString(older, pool, str);
      FirstString(newer, pool + more, str);
    }
  }

  // ---- one place for equals --------------------------------------------------------------------

  function Last(st: State): Value
    requires st.stack != []
  {
    st.stack[|st.stack| - 1]
  }

  lemma KeyPools(st: State)
    requires Inv(st)
    ensures KeysPooled(st.buf, st.keyPool) && StringsPooled(st.buf, st.stringPool)
  {
    hide CString, ValuesIn;
    forall k | 0 <= k < |st.keyPool| ensures CString(st.buf, st.keyPool[k]).Some? {
      assert KeyPooled(st.buf, st.keyPool[k]);
    }
    forall k | 0 <= k < |st.stringPool| ensures st.stringPool[k].0 + st.stringPool[k].1 <= |st.buf| {
      assert StringPooled(st.buf, st.stringPool[k].0, st.stringPool[k].1);
    }
  }

  /** After a key was added, the pool leads to where it lies. */
  lemma KeyIsPooled(flags: Flags, st: State, a: seq<Byte>)
    requires Inv(st) && flags.shareKeys
    ensures var s := Key(flags, st, a);
            0 <= Last(s).u && FindKey(s.buf, s.keyPool, CPart(a)) == Some(Last(s).u as nat)
  {
    hide CString, CPart;
    KeyPools(st);
    var s := Key(flags, st, a);
    KeyWritten(st.buf, a, 0);
    assert a[0..] == a;
    KeyFound(st.buf, s.buf, st.keyPool, if FindKey(st.buf, st.keyPool, CPart(a)).Some? then [] else [|st.buf|], CPart(a));
    assert st.keyPool + [] == st.keyPool;
  }

  /** With shared keys, whatever is built between them: two keys lie at one place exactly if they are equal
      up to the first zero, and then nothing is written for the second. */
  lemma SharedKeys(flags: Flags, st: State, a: seq<Byte>, r: State, b: seq<Byte>)
    requires Inv(st) && flags.shareKeys && Inv(r) && Grown(Key(flags, st, a), r)
    ensures var s, k := Key(flags, st, a), Key(flags, r, b);
            && (Last(k).u == Last(s).u <==> CPart(a) == CPart(b))
            && (CPart(a) == CPart(b) ==> k == Push(r, Last(s)))
  {
    hide CString, CPart, FindKey, Inv, Key, Prefix;
    var s, k := Key(flags, st, a), Key(flags, r, b);
    KeyStands(flags, st, a);
    KeyStands(flags, r, b);
    AddedIsLast(st, s, CPart(a));
    AddedIsLast(r, k, CPart(b));
    KeyIsPooled(flags, st, a);
    KeyWidth(flags, st, a);
    KeyPools(s);
    KeyFound(s.buf, r.buf, s.keyPool, r.keyPool[|s.keyPool|..], CPart(a));
    assert s.keyPool + r.keyPool[|s.keyPool|..] == r.keyPool;
    PrefixTransitive(s.buf, r.buf, k.buf);
    CStringStable(s.buf, k.buf, Last(s).u);
    if CPart(a) == CPart(b) { FoundKey(flags, r, b, Last(s)); }
  }

  lemma FoundKey(flags: Flags, r: State, b: seq<Byte>, v: Value)
    requires flags.shareKeys && 0 <= v.u && FindKey(r.buf, r.keyPool, CPart(b)) == Some(v.u as nat)
    requires v.ty == FBT_KEY && v.width == 1
    ensures Key(flags, r, b) == Push(r, v)
  {
  }

  lemma KeyWidth(flags: Flags, st: State, a: seq<Byte>)
    ensures var s := Key(flags, st, a); s.stack != [] && Last(s).width == 1
  {
    hide FindKey, CPart;
  }

  lemma AddedIsLast(st: State, r: State, name: seq<Byte>)
    requires KeyAdded(st, r, name)
    ensures Inv(r) && Prefix(st.buf, r.buf) && r.stack != [] && Last(r).ty == FBT_KEY && 0 <= Last(r).u
    ensures CString(r.buf, Last(r).u) == Some(name)
  {
    hide CString, Inv, Prefix;
  }

  // ---- strings ---------------------------------------------------------------------------------

  lemma StringsIn(st: State)
    requires Inv(st)
    ensures StringsPooled(st.buf, st.stringPool)
  {
    KeyPools(st);
  }

  /** After a string was added, the pool leads to where it lies. */
  lemma StringIsPooled(flags: Flags, st: State, a: seq<Byte>)
    requires Inv(st) && flags.shareStrings
    ensures var s := String(flags, st, a);
            s.stack != [] && 0 <= Last(s).u && FindString(s.buf, s.stringPool, a) == Some(Last(s).u as nat)
  {
    hide FindString, Inv, LE, WidthU;
    StringsIn(st);
    var s := String(flags, st, a);
    var (buf, v) := CreateBlob(st.buf, a, 1, FBT_STRING);
    if FindString(st.buf, st.stringPool, a).None? {
      var p: nat := v.u;
      StringFound(st.buf, s.buf, st.stringPool, [(p, |a|)], a);
      assert buf[p..p + |a|] == a;
      FirstString(buf, [(p, |a|)], a);
    } else {
      StringFound(st.buf, st.buf, st.stringPool, [], a);
      assert st.stringPool + [] == st.stringPool;
    }
  }

  /** Pooled strings that lie at one place are one. */
  lemma PlaceDetermines(st: State, a: seq<Byte>, b: seq<Byte>)
    requires Ascends(st) && FindString(st.buf, st.stringPool, a).Some?
    requires FindString(st.buf, st.stringPool, a) == FindString(st.buf, st.stringPool, b)
    ensures a == b
  {
    hide FindString;
    var p := FindString(st.buf, st.stringPool, a).value;
    var i :| 0 <= i < |st.stringPool| && st.stringPool[i] == (p, |a|) && p + |a| <= |st.buf| && st.buf[p..p + |a|] == a;
    var j :| 0 <= j < |st.stringPool| && st.stringPool[j] == (p, |b|) && p + |b| <= |st.buf| && st.buf[p..p + |b|] == b;
    assert i == j;
  }

  lemma StringShape(flags: Flags, st: State, a: seq<Byte>)
    ensures var s := String(flags, st, a); s.stack != [] && Last(s).ty == FBT_STRING && Last(s).width == WidthU(|a|)
  {
    hide FindString, LE, WidthU;
  }

  lemma FoundString(flags: Flags, r: State, b: seq<Byte>, v: Value)
    requires flags.shareStrings && 0 <= v.u && FindString(r.buf, r.stringPool, b) == Some(v.u as nat)
    requires v.ty == FBT_STRING && v.width == WidthU(|b|)
    ensures String(flags, r, b) == Push(r, v)
  {
    hide FindString, LE, WidthU;
  }

  /** With shared strings, whatever is built between them: two strings lie at one place exactly if they
      are equal, and then the second leaves the bytes and the pool as they were. */
  lemma SharedStrings(flags: Flags, st: State, a: seq<Byte>, r: State, b: seq<Byte>)
    requires |a| < U64 && Inv(st) && flags.shareStrings && Ascends(st) && Inv(r) && Grown(String(flags, st, a), r)
    ensures var s, k := String(flags, st, a), String(flags, r, b);
            && s.stack != [] && k.stack != [] && (Last(k).u == Last(s).u <==> a == b)
            && (a == b ==> k == Push(r, Last(s)))
  {
    hide FindString, Inv, String, Ascends, Prefix;
    var s, k := String(flags, st, a), String(flags, r, b);
    StringIsPooled(flags, st, a);
    StringIsPooled(flags, r, b);
    StringStands(flags, st, a);
    StringsIn(s);
    StringFound(s.buf, r.buf, s.stringPool, r.stringPool[|s.stringPool|..], a);
    assert s.stringPool + r.stringPool[|s.stringPool|..] == r.stringPool;
    StringGrows(flags, st, a);
    StringGrows(flags, r, b);
    StringsIn(r);
    StringFound(r.buf, k.buf, r.stringPool, k.stringPool[|r.stringPool|..], a);
    assert r.stringPool + k.stringPool[|r.stringPool|..] == k.stringPool;
    if Last(k).u == Last(s).u { PlaceDetermines(k, a, b); }
    StringShape(flags, st, a);
    if a == b { FoundString(flags, r, a, Last(s)); }
  }
}
