/** How large a FlexBuffer gets: a bound on the bytes of every tree, known before it is built. */
module FlexSizes {
  import opened Bytes
  import opened Wrappers
  import opened FlexWidths
  import opened FlexReader
  import opened FlexSpec
  import opened FlexVectors
  import opened FlexRoundTrip
  import opened FlexBuilder

  /** At most this many bytes are added for a tree: scalars are written with what contains them. */
  function Room(t: Tree): nat
    decreases t, 1
  {
    match t
    case TString(s) => |s| + 16
    case TBlob(s) => |s| + 16
    case TVector(ts) => ElementsRoom(t, |ts|) + 9 * |ts| + 16
    case TMap(es) => EntriesRoom(t, |es|) + 17 * |es| + 48
    case _ => 0
  }

  function ElementsRoom(t: Tree, n: nat): nat
    requires t.TVector? && n <= |t.elems|
    decreases t, 0, n
  {
    if n == 0 then 0 else ElementsRoom(t, n - 1) + Room(t.elems[n - 1])
  }

  function EntriesRoom(t: Tree, n: nat): nat
    requires t.TMap? && n <= |t.entries|
    decreases t, 0, n
  {
    if n == 0 then 0 else EntriesRoom(t, n - 1) + |t.entries[n - 1].key| + 1 + Room(t.entries[n - 1].value)
  }

  lemma AlignFits(buf: seq<Byte>, w: Width)
    ensures |FlexSpec.Align(buf, w)| <= |buf| + 7
  {
  }

  lemma BlobFits(buf: seq<Byte>, data: seq<Byte>, trailing: nat, ty: nat)
    ensures |CreateBlob(buf, data, trailing, ty).0| <= |buf| + |data| + trailing + 15
  {
    hide WidthU;
    AlignFits(buf, WidthU(|data|));
  }

  lemma SlotsFit(n: nat, w: Width)
    ensures n * w <= 8 * n
  {
  }

  lemma VectorFits(flags: Flags, buf: seq<Byte>, vs: seq<Value>, step: nat, typed: bool, keys: Option<Value>)
    requires ValuesIn(vs, |buf|) && KeysIn(keys, |buf|)
    ensures |CreateVector(flags, buf, vs, step, typed, keys).0|
         <= |buf| + 7 + 8 * PrefixSlots(keys) + 8 * |vs| + (if typed then 0 else |vs|)
  {
    hide VectorWidth, FlexSpec.Align, Header, Elements, Types;
    var w := VectorWidth(flags, vs, |buf|, step, keys);
    AlignFits(buf, w);
    SlotsFit(PrefixSlots(keys), w);
    SlotsFit(|vs|, w);
  }

  lemma KeyFits(flags: Flags, st: State, str: seq<Byte>)
    ensures |FlexSpec.Key(flags, st, str).buf| <= |st.buf| + |str| + 1
  {
    hide FindKey;
  }

  lemma EndMapFits(flags: Flags, st: State, start: nat)
    requires MapReady(st, start)
    ensures start <= |st.stack|
    ensures 2 * |EndMap(flags, st, start).buf| <= 2 * |st.buf| + 17 * (|st.stack| - start) + 96
  {
    hide CreateVector, SortedKeys, SortedValues;
    SortedSizes(st, start);
    var ks, vs := SortedKeys(st, start), SortedValues(st, start);
    VectorFits(flags, st.buf, ks, 2, true, None);
    KeyVectorIn(flags, st.buf, ks);
    var (kbuf, keys) := CreateVector(flags, st.buf, ks, 2, true, None);
    VectorFits(flags, kbuf, vs, 2, false, Some(keys));
  }

  lemma EndVectorFits(flags: Flags, st: State, start: nat)
    requires VectorReady(st, start)
    ensures |EndVector(flags, st, start).buf| <= |st.buf| + 9 * (|st.stack| - start) + 16
  {
    hide CreateVector;
    VectorFits(flags, st.buf, st.stack[start..], 1, false, None);
  }

  /** A tree takes no more than its room. */
  lemma {:induction false} AddFits(flags: Flags, st: State, t: Tree)
    requires Inv(st) && Storable(t)
    ensures FlexRoundTrip.Add(flags, st, t).Some? && |FlexRoundTrip.Add(flags, st, t).value.buf| <= |st.buf| + Room(t)
    decreases t, 1
  {
    hide Inv, CreateBlob, EndVector, EndMap, FlexSpec.FindString;
    match t
    case TString(s) => BlobFits(st.buf, s, 1, FBT_STRING);
    case TBlob(s) => BlobFits(st.buf, s, 0, FBT_BLOB);
    case TVector(ts) =>
      VectorRoom(flags, st, t);
      ElementsFit(flags, st, t, |ts|);
      EndVectorFits(flags, AddElements(flags, st, t, |ts|).value, |st.stack|);
    case TMap(es) =>
      MapRoom(flags, st, t);
      EntriesFit(flags, st, t, |es|);
      EndMapFits(flags, AddEntries(flags, st, t, |es|).value, |st.stack|);
    case _ =>
  }

  lemma {:induction false} ElementsFit(flags: Flags, st: State, t: Tree, n: nat)
    requires Inv(st) && t.TVector? && Storable(t) && n <= |t.elems|
    ensures AddElements(flags, st, t, n).Some? && |AddElements(flags, st, t, n).value.buf| <= |st.buf| + ElementsRoom(t, n)
    decreases t, 0, n
  {
    hide Inv, FlexRoundTrip.Add, Room;
    if n > 0 {
      ElementsFit(flags, st, t, n - 1);
      ElementsGrow(flags, st, t, n - 1, n - 1);
      AddFits(flags, AddElements(flags, st, t, n - 1).value, t.elems[n - 1]);
    }
  }

  lemma {:induction false} EntriesFit(flags: Flags, st: State, t: Tree, n: nat)
    requires Inv(st) && t.TMap? && Storable(t) && n <= |t.entries|
    ensures AddEntries(flags, st, t, n).Some? && |AddEntries(flags, st, t, n).value.buf| <= |st.buf| + EntriesRoom(t, n)
    decreases t, 0, n
  {
    hide Inv, FlexRoundTrip.Add, Room, FlexSpec.Key;
    if n > 0 {
      EntriesFit(flags, st, t, n - 1);
      EntriesGrow(flags, st, t, n - 1, n - 1);
      var s := AddEntries(flags, st, t, n - 1).value;
      KeyGrows(flags, s, t.entries[n - 1].key);
      KeyFits(flags, s, t.entries[n - 1].key);
      AddFits(flags, FlexSpec.Key(flags, s, t.entries[n - 1].key), t.entries[n - 1].value);
    }
  }

  lemma NothingBuilt()
    ensures Inv(FlexSpec.Empty) && FlexSpec.Empty.buf == []
  {
  }

  /** The round trip under a condition on the tree alone. */
  method EncodeSized(flags: Flags, t: Tree) returns (bytes: seq<Byte>)
    requires Storable(t) && Room(t) <= MAX_SIZE
    ensures GetRoot(bytes).Some? && Reads(bytes, GetRoot(bytes).value, Normal(t))
  {
    hide Inv, FlexRoundTrip.Add, Reads, GetRoot, Storable, Normal, Room;
    NothingBuilt();
    AddFits(flags, FlexSpec.Empty, t);
    bytes := Encode(flags, t);
  }
}
