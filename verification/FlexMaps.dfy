/** Map lookup: the keys are sorted when the map is built and searched by halving when it is read. */
module FlexMaps {
  import opened Bytes
  import opened Wrappers
  import opened FlexWidths
  import opened FlexReader
  import opened FlexSpec
  import opened FlexRoundTrip

  // ---- the order of keys -----------------------------------------------------------------------

  lemma {:induction false} LessIsStrict(a: seq<Byte>, b: seq<Byte>)
    ensures !(Less(a, b) && Less(b, a))
    ensures !Less(a, b) && !Less(b, a) <==> a == b
  {
    if a != [] && b != [] && a[0] == b[0] {
      LessIsStrict(a[1..], b[1..]);
      assert a == [a[0]] + a[1..] && b == [b[0]] + b[1..];
    }
  }

  lemma {:induction false} LessTransitive(a: seq<Byte>, b: seq<Byte>, c: seq<Byte>)
    requires Less(a, b) && Less(b, c)
    ensures Less(a, c)
  {
    if a != [] && a[0] == b[0] == c[0] {
      LessTransitive(a[1..], b[1..], c[1..]);
    }
  }

  lemma NotLessTransitive(a: seq<Byte>, b: seq<Byte>, c: seq<Byte>)
    requires !Less(b, a) && !Less(c, b)
    ensures !Less(c, a)
  {
    LessIsStrict(a, b);
    LessIsStrict(b, c);
    LessIsStrict(a, c);
    if Less(c, a) {
      if a != b && b != c { LessTransitive(a, b, c); }
    }
  }

  // ---- sorting ---------------------------------------------------------------------------------

  ghost predicate InOrder(keys: seq<seq<Byte>>, order: seq<nat>)
    requires forall j :: 0 <= j < |order| ==> order[j] < |keys|
  {
    forall i, j :: 0 <= i < j < |order| ==> !Less(keys[order[j]], keys[order[i]])
  }

  ghost predicate Has(order: seq<nat>, x: nat) {
    exists j :: 0 <= j < |order| && order[j] == x
  }

  lemma HasAt(order: seq<nat>, x: nat, j: nat)
    requires j < |order| && order[j] == x
    ensures Has(order, x)
  {
  }

  lemma {:induction false} InsertHas(keys: seq<seq<Byte>>, order: seq<nat>, x: nat, y: nat)
    requires x < |keys| && forall j :: 0 <= j < |order| ==> order[j] < |keys|
    ensures Has(Insert(keys, order, x), y) <==> y == x || Has(order, y)
    decreases |order|
  {
    var r := Insert(keys, order, x);
    if order == [] {
      if y == x { HasAt(r, y, 0); }
    } else {
      var n := |order| - 1;
      if Less(keys[x], keys[order[n]]) {
        InsertHas(keys, order[..n], x, y);
        var front := Insert(keys, order[..n], x);
        AppendHas(front, order[n], y);
        AppendHas(order[..n], order[n], y);
        assert order == order[..n] + [order[n]];
      } else {
        AppendHas(order, x, y);
      }
    }
  }

  lemma AppendHas(order: seq<nat>, last: nat, y: nat)
    ensures Has(order + [last], y) <==> y == last || Has(order, y)
  {
    if y == last { HasAt(order + [last], y, |order|); }
    if Has(order, y) {
      var j :| 0 <= j < |order| && order[j] == y;
      HasAt(order + [last], y, j);
    }
  }

  ghost predicate Distinct(order: seq<nat>) {
    forall i, j :: 0 <= i < j < |order| ==> order[i] != order[j]
  }

  /** The last index stays behind all of `front`. */
  lemma LastStays(keys: seq<seq<Byte>>, order: seq<nat>, front: seq<nat>, x: nat, i: nat)
    requires x < |keys| && forall j :: 0 <= j < |order| ==> order[j] < |keys|
    requires InOrder(keys, order) && Distinct(order) && !Has(order, x) && order != []
    requires front == Insert(keys, order[..|order| - 1], x) && Less(keys[x], keys[order[|order| - 1]]) && i < |front|
    ensures front[i] != order[|order| - 1] && !Less(keys[order[|order| - 1]], keys[front[i]])
  {
    hide Less, Insert;
    var n := |order| - 1;
    HasAt(order, order[n], n);
    HasAt(front, front[i], i);
    InsertHas(keys, order[..n], x, front[i]);
    if front[i] == x {
      LessIsStrict(keys[x], keys[order[n]]);
    } else {
      var j :| 0 <= j < |order[..n]| && order[..n][j] == front[i];
      assert order[j] == front[i];
    }
  }

  lemma {:induction false} InsertSorts(keys: seq<seq<Byte>>, order: seq<nat>, x: nat)
    requires x < |keys| && forall j :: 0 <= j < |order| ==> order[j] < |keys|
    requires InOrder(keys, order) && Distinct(order) && !Has(order, x)
    ensures InOrder(keys, Insert(keys, order, x)) && Distinct(Insert(keys, order, x))
    decreases |order|
  {
    hide Less, Has, InOrder, Distinct;
    if order == [] {
      OneInOrder(keys, [], x);
      assert [] + [x] == [x];
    } else {
      var n := |order| - 1;
      var last := order[n];
      if Less(keys[x], keys[last]) {
        NotHasFront(order, x);
        FrontInOrder(keys, order);
        InsertSorts(keys, order[..n], x);
        var front := Insert(keys, order[..n], x);
        forall i | 0 <= i < |front| ensures front[i] != last && !Less(keys[last], keys[front[i]]) {
          LastStays(keys, order, front, x, i);
        }
        OneInOrder(keys, front, last);
      } else {
        forall i | 0 <= i < |order| ensures order[i] != x && !Less(keys[x], keys[order[i]]) {
          HasAt(order, order[i], i);
          if i < n {
            InOrderAt(keys, order, i);
            NotLessTransitive(keys[order[i]], keys[last], keys[x]);
          }
        }
        OneInOrder(keys, order, x);
      }
    }
  }

  lemma FrontInOrder(keys: seq<seq<Byte>>, order: seq<nat>)
    requires order != [] && (forall j :: 0 <= j < |order| ==> order[j] < |keys|) && InOrder(keys, order) && Distinct(order)
    ensures InOrder(keys, order[..|order| - 1]) && Distinct(order[..|order| - 1])
  {
    hide Less;
  }

  lemma InOrderAt(keys: seq<seq<Byte>>, order: seq<nat>, i: nat)
    requires i < |order| - 1 && (forall j :: 0 <= j < |order| ==> order[j] < |keys|) && InOrder(keys, order)
    ensures !Less(keys[order[|order| - 1]], keys[order[i]])
  {
    hide Less;
  }

  /** One more index behind all others. */
  lemma OneInOrder(keys: seq<seq<Byte>>, order: seq<nat>, x: nat)
    requires x < |keys| && (forall j :: 0 <= j < |order| ==> order[j] < |keys|)
    requires order == [] || (InOrder(keys, order) && Distinct(order))
    requires forall i :: 0 <= i < |order| ==> order[i] != x && !Less(keys[x], keys[order[i]])
    ensures InOrder(keys, order + [x]) && Distinct(order + [x])
  {
    hide Less;
  }

  lemma NotHasFront(order: seq<nat>, x: nat)
    requires order != [] && !Has(order, x)
    ensures !Has(order[..|order| - 1], x)
  {
  }

  /** Order arranges all indices, each once, with no key before a smaller one. */
  lemma {:induction false} OrderSorts(keys: seq<seq<Byte>>)
    ensures InOrder(keys, Order(keys)) && Distinct(Order(keys))
    ensures forall x: nat :: Has(Order(keys), x) <==> x < |keys|
  {
    hide Less, Insert;
    if keys != [] {
      var n := |keys| - 1;
      var front := Order(keys[..n]);
      OrderSorts(keys[..n]);
      assert InOrder(keys, front) by {
        forall i, j | 0 <= i < j < |front| ensures !Less(keys[front[j]], keys[front[i]]) {
          assert keys[..n][front[j]] == keys[front[j]] && keys[..n][front[i]] == keys[front[i]];
        }
      }
      InsertSorts(keys, front, n);
      forall x: nat ensures Has(Order(keys), x) <==> x < |keys| {
        InsertHas(keys, front, n, x);
      }
    }
  }

  // ---- maps ------------------------------------------------------------------------------------

  /** The value given with a key: the first entry whose name is the same up to the first zero. */
  function Find(es: seq<Entry>, name: seq<Byte>): (r: Option<Tree>)
    ensures r.None? <==> forall i :: 0 <= i < |es| ==> CPart(es[i].key) != name
    ensures r.Some? ==> exists i :: 0 <= i < |es| && CPart(es[i].key) == name && es[i].value == r.value
  {
    if es == [] then None
    else if CPart(es[0].key) == name then Some(es[0].value)
    else
      var r := Find(es[1..], name);
      assert forall i :: 0 < i < |es| ==> es[i] == es[1..][i - 1];
      r
  }

  ghost predicate DistinctKeys(es: seq<Entry>) {
    forall i, j :: 0 <= i < j < |es| ==> CPart(es[i].key) != CPart(es[j].key)
  }

  ghost predicate StrictlySorted(es: seq<Entry>) {
    forall i, j :: 0 <= i < j < |es| ==> Less(es[i].key, es[j].key)
  }

  /** The entry as it is read. */
  ghost predicate IsEntry(read: Entry, given: Entry) {
    read.key == CPart(given.key) && read.value == Normal(given.value)
  }

  /** `order` says where each entry read was given: every index once. */
  ghost predicate Arranged(read: seq<Entry>, given: seq<Entry>, order: seq<nat>) {
    && |read| == |given| == |order| && Distinct(order)
    && (forall x: nat :: Has(order, x) <==> x < |given|)
    && forall j :: 0 <= j < |order| ==> order[j] < |given| && IsEntry(read[j], given[order[j]])
  }

  /** Before sorting the entries are those given, one by one. */
  lemma EntryGiven(t: Tree, i: nat)
    requires t.TMap? && i < |t.entries|
    ensures IsEntry(NormalEntries(t)[i], t.entries[i])
  {
  }

  /** A map built with distinct keys has its keys strictly ascending, and holds exactly the entries
      given, each once. */
  lemma NormalIsSorted(t: Tree) returns (order: seq<nat>)
    requires t.TMap? && DistinctKeys(t.entries)
    ensures Normal(t).TMap? && StrictlySorted(Normal(t).entries) && Arranged(Normal(t).entries, t.entries, order)
  {
    hide Less, Normal, CPart, NormalEntries, Order, Has, IsEntry;
    var ns := NormalEntries(t);
    order := Order(Names(ns));
    OrderSorts(Names(ns));
    var es := SortEntries(ns);
    NormalMap(t);
    forall j | 0 <= j < |order| ensures order[j] < |t.entries| && IsEntry(es[j], t.entries[order[j]]) {
      EntryGiven(t, order[j]);
    }
    forall i, j | 0 <= i < j < |es| ensures Less(es[i].key, es[j].key) {
      KeysDiffer(t, order[i], order[j]);
      LessIsStrict(es[i].key, es[j].key);
      assert !Less(Names(ns)[order[j]], Names(ns)[order[i]]);
    }
  }

  lemma NormalMap(t: Tree)
    requires t.TMap?
    ensures Normal(t) == TMap(SortEntries(NormalEntries(t)))
  {
  }

  lemma KeysDiffer(t: Tree, i: nat, j: nat)
    requires t.TMap? && DistinctKeys(t.entries) && i != j && i < |t.entries| && j < |t.entries|
    ensures NormalEntries(t)[i].key != NormalEntries(t)[j].key
  {
    hide Normal, CPart;
    EntryGiven(t, i);
    EntryGiven(t, j);
    if i < j {
      assert CPart(t.entries[i].key) != CPart(t.entries[j].key);
    } else {
      assert CPart(t.entries[j].key) != CPart(t.entries[i].key);
    }
  }

  /** Map::operator[] with std::bsearch over the key vector: the value at an index with that key, or
      null when there is none. */
  method Lookup(buf: seq<Byte>, r: Reference, name: seq<Byte>, ghost es: seq<Entry>)
    returns (res: Reference, at: Option<nat>)
    requires Reads(buf, r, TMap(es)) && StrictlySorted(es)
    ensures match at {
              case Some(i) => i < |es| && es[i].key == CPart(name) && Reads(buf, res, es[i].value)
              case None => res == NullReference && forall i :: 0 <= i < |es| ==> es[i].key != CPart(name) }
  {
    hide Less, CPart, Element, KeyAt, ReadSize, Reads;
    var key := CPart(name);
    ReadsAsMap(buf, r, es);
    var data := VectorData(buf, r).value;
    var (keys, kw) := KeysOf(buf, data, r.width).value;
    var lo, hi := 0, ReadSize(buf, keys, kw).value;
    while lo < hi
      invariant 0 <= lo <= hi <= |es|
      invariant forall i :: 0 <= i < lo ==> Less(es[i].key, key)
      invariant forall i :: hi <= i < |es| ==> Less(key, es[i].key)
    {
      var mid := lo + (hi - lo) / 2;
      var other := KeyAt(buf, keys, kw, mid).value;
      LessIsStrict(key, other);
      if Less(key, other) {
        forall i | mid < i < |es| ensures Less(key, es[i].key) { LessTransitive(key, other, es[i].key); }
        hi := mid;
      } else if Less(other, key) {
        forall i | 0 <= i < mid ensures Less(es[i].key, key) { LessTransitive(es[i].key, other, key); }
        lo := mid + 1;
      } else {
        res, at := Element(buf, data, r.width, mid).value, Some(mid);
        return;
      }
    }
    forall i | 0 <= i < |es| ensures es[i].key != key { LessIsStrict(es[i].key, key); }
    res, at := NullReference, None;
  }

  lemma ReadsAsMap(buf: seq<Byte>, r: Reference, es: seq<Entry>)
    requires Reads(buf, r, TMap(es))
    ensures VectorData(buf, r).Some?
    ensures var data := VectorData(buf, r).value;
            && KeysOf(buf, data, r.width).Some?
            && var (keys, kw) := KeysOf(buf, data, r.width).value;
            && ReadSize(buf, keys, kw) == Some(|es|)
            && (forall i :: 0 <= i < |es| ==> KeyAt(buf, keys, kw, i) == Some(es[i].key))
            && forall i :: 0 <= i < |es| ==>
                 Element(buf, data, r.width, i).Some? && Reads(buf, Element(buf, data, r.width, i).value, es[i].value)
  {
    hide Element, KeyAt, ReadSize, Indirect, KeysOf;
  }

  /** Lookup agrees with the association list: in a map built with distinct keys, the value found under
      a name is the one given with it, and a name not given finds null. */
  method LookupGiven(buf: seq<Byte>, r: Reference, name: seq<Byte>, ghost t: Tree) returns (res: Reference)
    requires t.TMap? && DistinctKeys(t.entries) && Reads(buf, r, Normal(t))
    ensures match Find(t.entries, CPart(name)) {
              case Some(v) => Reads(buf, res, Normal(v))
              case None => res == NullReference }
  {
    hide Less, CPart, Reads, Normal, Find, Has, IsEntry, StrictlySorted, Arranged;
    ghost var order := NormalIsSorted(t);
    ghost var es := Normal(t).entries;
    assert Normal(t) == TMap(es);
    var at;
    res, at := Lookup(buf, r, name, es);
    match at
    case Some(i) => FoundGiven(t.entries, es, order, i);
    case None => NotGiven(t.entries, es, order, CPart(name));
  }

  lemma FoundGiven(given: seq<Entry>, read: seq<Entry>, order: seq<nat>, i: nat)
    requires Arranged(read, given, order) && DistinctKeys(given) && i < |read|
    ensures var f := Find(given, read[i].key); f.Some? && read[i].value == Normal(f.value)
  {
    hide Normal, CPart, Find, Has;
    var key := read[i].key;
    assert IsEntry(read[i], given[order[i]]);
    var f := Find(given, key);
    assert CPart(given[order[i]].key) == key;
    var k :| 0 <= k < |given| && CPart(given[k].key) == key && given[k].value == f.value;
    assert k == order[i];
  }

  lemma NotGiven(given: seq<Entry>, read: seq<Entry>, order: seq<nat>, key: seq<Byte>)
    requires Arranged(read, given, order) && forall j :: 0 <= j < |read| ==> read[j].key != key
    ensures Find(given, key).None?
  {
    hide Normal, CPart, Find;
    forall i | 0 <= i < |given| ensures CPart(given[i].key) != key {
      assert Has(order, i);
      var j :| 0 <= j < |order| && order[j] == i;
      assert IsEntry(read[j], given[order[j]]);
    }
  }
}
