/** Reading a FlexBuffer: references into the bytes, and what it means that a reference reads as a
    given tree of values. */
module FlexReader {
  import opened Bytes
  import opened Wrappers
  import opened FlexWidths

  const FBT_NULL: nat := 0
  const FBT_INT: nat := 1
  const FBT_UINT: nat := 2
  const FBT_KEY: nat := 4
  const FBT_STRING: nat := 5
  const FBT_MAP: nat := 9
  const FBT_VECTOR: nat := 10
  const FBT_VECTOR_KEY: nat := 14
  const FBT_BLOB: nat := 25
  const FBT_BOOL: nat := 26

  /** A value's place, the width of the slot it is in, and its own width and type. */
  datatype Reference = Reference(pos: nat, parentWidth: Width, width: Width, ty: nat)

  /** What is read beyond the end of a vector or for a missing key. */
  const NullReference := Reference(0, 1, 1, FBT_NULL)

  function Unpack(pos: nat, parentWidth: Width, packed: Byte): Reference {
    Reference(pos, parentWidth, FromBits(packed % 4), packed / 4)
  }

  // ---- accessors; None is a read outside the buffer --------------------------------------------

  function ReadUInt(buf: seq<Byte>, pos: int, w: Width): (r: Option<nat>)
    ensures r.Some? <==> 0 <= pos && pos + w <= |buf|
  {
    if 0 <= pos && pos + w <= |buf| then Some(Word(buf, pos, w)) else None
  }

  function ReadInt(buf: seq<Byte>, pos: int, w: Width): Option<int> {
    var n :- ReadUInt(buf, pos, w);
    Some(SignExtend(n, w))
  }

  /** Offsets point backwards. */
  function Indirect(buf: seq<Byte>, pos: int, w: Width): (r: Option<nat>)
    ensures r.Some? ==> 0 <= r.value <= pos
  {
    var o :- ReadUInt(buf, pos, w);
    if o <= pos then Some(pos - o) else None
  }

  /** The size stored in front of the data. */
  function ReadSize(buf: seq<Byte>, data: nat, w: Width): Option<nat> {
    ReadUInt(buf, data - w, w)
  }

  function AsInt64(buf: seq<Byte>, r: Reference): Option<int> {
    if r.ty == FBT_INT then ReadInt(buf, r.pos, r.parentWidth) else Some(0)
  }

  function AsUInt64(buf: seq<Byte>, r: Reference): Option<nat> {
    if r.ty == FBT_UINT then ReadUInt(buf, r.pos, r.parentWidth) else Some(0)
  }

  function AsBool(buf: seq<Byte>, r: Reference): Option<bool> {
    if r.ty == FBT_BOOL then var n :- ReadUInt(buf, r.pos, r.parentWidth); Some(n != 0) else Some(false)
  }

  function ReadBytes(buf: seq<Byte>, data: nat, w: Width): Option<seq<Byte>> {
    var n :- ReadSize(buf, data, w);
    if data + n <= |buf| then Some(buf[data..data + n]) else None
  }

  /** A string is its bytes and, past them, a zero for the readers of c_str(). */
  function StringAt(buf: seq<Byte>, data: nat, w: Width): Option<seq<Byte>> {
    var s :- ReadBytes(buf, data, w);
    if data + |s| < |buf| && buf[data + |s|] == 0 then Some(s) else None
  }

  function AsString(buf: seq<Byte>, r: Reference): Option<seq<Byte>> {
    if r.ty != FBT_STRING then Some([])
    else
      var data :- Indirect(buf, r.pos, r.parentWidth);
      StringAt(buf, data, r.width)
  }

  function AsBlob(buf: seq<Byte>, r: Reference): Option<seq<Byte>> {
    if r.ty != FBT_BLOB then Some([])
    else
      var data :- Indirect(buf, r.pos, r.parentWidth);
      ReadBytes(buf, data, r.width)
  }

  /** The bytes up to the first zero. */
  function CString(buf: seq<Byte>, pos: nat): Option<seq<Byte>>
    decreases |buf| - pos
  {
    if pos >= |buf| then None
    else if buf[pos] == 0 then Some([])
    else
      var rest :- CString(buf, pos + 1);
      Some([buf[pos]] + rest)
  }

  /** The data of a vector or map. */
  function VectorData(buf: seq<Byte>, r: Reference): Option<nat> {
    Indirect(buf, r.pos, r.parentWidth)
  }

  /** Vector::operator[]: the element types follow the elements. */
  function Element(buf: seq<Byte>, data: nat, w: Width, i: nat): Option<Reference> {
    var len :- ReadSize(buf, data, w);
    if i >= len then Some(NullReference)
    else if data + len * w + i < |buf| then Some(Unpack(data + i * w, w, buf[data + len * w + i]))
    else None
  }

  /** Map::Keys: where the key vector's data lies, and its width. */
  function KeysOf(buf: seq<Byte>, data: nat, w: Width): Option<(nat, Width)> {
    var k :- Indirect(buf, data - 3 * w, w);
    var kw :- ReadUInt(buf, data - 2 * w, w);
    if kw == 1 || kw == 2 || kw == 4 || kw == 8 then Some((k, kw)) else None
  }

  /** Keys()[i].AsKey(). */
  function KeyAt(buf: seq<Byte>, keys: nat, kw: Width, i: nat): Option<seq<Byte>> {
    var p :- Indirect(buf, keys + i * kw, kw);
    CString(buf, p)
  }

  function GetRoot(buf: seq<Byte>): Option<Reference> {
    if |buf| < 2 then None
    else
      var byteWidth := buf[|buf| - 1];
      if (byteWidth == 1 || byteWidth == 2 || byteWidth == 4 || byteWidth == 8) && byteWidth + 2 <= |buf|
      then Some(Unpack(|buf| - 2 - byteWidth, byteWidth, buf[|buf| - 2]))
      else None
  }

  // ---- trees -----------------------------------------------------------------------------------

  datatype Tree =
    | TNull
    | TBool(b: bool)
    | TInt(i: int)
    | TUInt(u: nat)
    | TString(str: seq<Byte>)
    | TBlob(bytes: seq<Byte>)
    | TVector(elems: seq<Tree>)
    | TMap(entries: seq<Entry>)

  datatype Entry = Entry(key: seq<Byte>, value: Tree)

  /** The accessors applied to r give exactly the tree t. */
  ghost predicate Reads(buf: seq<Byte>, r: Reference, t: Tree)
    decreases t, 1
  {
    match t
    case TNull => r.ty == FBT_NULL
    case TBool(b) => r.ty == FBT_BOOL && AsBool(buf, r) == Some(b)
    case TInt(i) => r.ty == FBT_INT && AsInt64(buf, r) == Some(i)
    case TUInt(u) => r.ty == FBT_UINT && AsUInt64(buf, r) == Some(u)
    case TString(s) => r.ty == FBT_STRING && AsString(buf, r) == Some(s)
    case TBlob(s) => r.ty == FBT_BLOB && AsBlob(buf, r) == Some(s)
    case TVector(ts) =>
      && r.ty == FBT_VECTOR && VectorData(buf, r).Some?
      && ReadsVector(buf, VectorData(buf, r).value, r.width, t)
    case TMap(es) =>
      && r.ty == FBT_MAP && VectorData(buf, r).Some?
      && ReadsMap(buf, VectorData(buf, r).value, r.width, t)
  }

  ghost predicate ReadsVector(buf: seq<Byte>, data: nat, w: Width, t: Tree)
    requires t.TVector?
    decreases t, 0
  {
    && ReadSize(buf, data, w) == Some(|t.elems|)
    && forall i :: 0 <= i < |t.elems| ==>
         Element(buf, data, w, i).Some? && Reads(buf, Element(buf, data, w, i).value, t.elems[i])
  }

  /** The keys in the key vector and, at the same index, the values in the map's own vector. */
  ghost predicate ReadsMap(buf: seq<Byte>, data: nat, w: Width, t: Tree)
    requires t.TMap?
    decreases t, 0
  {
    && ReadSize(buf, data, w) == Some(|t.entries|)
    && ReadsKeys(buf, data, w, t.entries)
    && forall i :: 0 <= i < |t.entries| ==>
         Element(buf, data, w, i).Some? && Reads(buf, Element(buf, data, w, i).value, t.entries[i].value)
  }

  ghost predicate ReadsKeys(buf: seq<Byte>, data: nat, w: Width, entries: seq<Entry>) {
    match KeysOf(buf, data, w)
    case Some((k, kw)) =>
      && ReadSize(buf, k, kw) == Some(|entries|)
      && forall i :: 0 <= i < |entries| ==> KeyAt(buf, k, kw, i) == Some(entries[i].key)
    case None => false
  }

  /** Beyond the end of what is read as a vector or a map, every element reads as null. */
  lemma BeyondReadsNull(buf: seq<Byte>, r: Reference, t: Tree, i: nat)
    requires Reads(buf, r, t) && (t.TVector? || t.TMap?)
    requires i >= if t.TVector? then |t.elems| else |t.entries|
    ensures VectorData(buf, r).Some?
    ensures var e := Element(buf, VectorData(buf, r).value, r.width, i); e.Some? && Reads(buf, e.value, TNull)
  {
    hide ReadSize, ReadsKeys;
  }

  // ---- what was read stays ---------------------------------------------------------------------

  ghost predicate Prefix(older: seq<Byte>, newer: seq<Byte>) {
    |older| <= |newer| && newer[..|older|] == older
  }

  lemma PrefixShorter(older: seq<Byte>, newer: seq<Byte>)
    requires Prefix(older, newer)
    ensures |older| <= |newer|
  {
  }

  lemma UIntStable(older: seq<Byte>, newer: seq<Byte>, pos: int, w: Width)
    requires Prefix(older, newer) && ReadUInt(older, pos, w).Some?
    ensures ReadUInt(newer, pos, w) == ReadUInt(older, pos, w)
  {
    assert newer[pos..pos + w] == newer[..|older|][pos..pos + w];
  }

  lemma ByteStable(older: seq<Byte>, newer: seq<Byte>, pos: nat)
    requires Prefix(older, newer) && pos < |older|
    ensures newer[pos] == older[pos]
  {
    assert newer[pos] == newer[..|older|][pos];
  }

  lemma SliceStable(older: seq<Byte>, newer: seq<Byte>, lo: nat, hi: nat)
    requires Prefix(older, newer) && lo <= hi <= |older|
    ensures hi <= |newer| && newer[lo..hi] == older[lo..hi]
  {
    forall i | lo <= i < hi ensures newer[i] == older[i] { ByteStable(older, newer, i); }
  }

  lemma IndirectStable(older: seq<Byte>, newer: seq<Byte>, pos: int, w: Width)
    requires Prefix(older, newer) && Indirect(older, pos, w).Some?
    ensures Indirect(newer, pos, w) == Indirect(older, pos, w)
  {
    UIntStable(older, newer, pos, w);
  }

  lemma BytesStable(older: seq<Byte>, newer: seq<Byte>, data: nat, w: Width)
    requires Prefix(older, newer) && ReadBytes(older, data, w).Some?
    ensures ReadBytes(newer, data, w) == ReadBytes(older, data, w)
  {
    hide Word, Prefix;
    UIntStable(older, newer, data - w, w);
    SliceStable(older, newer, data, data + ReadSize(older, data, w).value);
  }

  lemma {:induction false} CStringStable(older: seq<Byte>, newer: seq<Byte>, pos: nat)
    requires Prefix(older, newer) && CString(older, pos).Some?
    ensures CString(newer, pos) == CString(older, pos)
    decreases |older| - pos
  {
    ByteStable(older, newer, pos);
    if older[pos] != 0 {
      CStringStable(older, newer, pos + 1);
    }
  }

  lemma ElementStable(older: seq<Byte>, newer: seq<Byte>, data: nat, w: Width, i: nat)
    requires Prefix(older, newer) && Element(older, data, w, i).Some?
    ensures Element(newer, data, w, i) == Element(older, data, w, i)
  {
    hide Word, Prefix;
    UIntStable(older, newer, data - w, w);
    var len := ReadSize(older, data, w).value;
    if i < len {
      ByteStable(older, newer, data + len * w + i);
      PrefixShorter(older, newer);
    }
  }

  lemma KeyStable(older: seq<Byte>, newer: seq<Byte>, k: nat, kw: Width, i: nat)
    requires Prefix(older, newer) && KeyAt(older, k, kw, i).Some?
    ensures KeyAt(newer, k, kw, i) == KeyAt(older, k, kw, i)
  {
    hide Word, CString, Prefix;
    IndirectStable(older, newer, k + i * kw, kw);
    CStringStable(older, newer, Indirect(older, k + i * kw, kw).value);
  }

  lemma KeysStable(older: seq<Byte>, newer: seq<Byte>, data: nat, w: Width, entries: seq<Entry>)
    requires Prefix(older, newer) && ReadsKeys(older, data, w, entries)
    ensures ReadsKeys(newer, data, w, entries)
  {
    hide Word, CString, Prefix, KeyAt;
    IndirectStable(older, newer, data - 3 * w, w);
    UIntStable(older, newer, data - 2 * w, w);
    var (k, kw) := KeysOf(older, data, w).value;
    UIntStable(older, newer, k - kw, kw);
    forall i | 0 <= i < |entries|
      ensures KeyAt(newer, k, kw, i) == Some(entries[i].key)
    {
      KeyStable(older, newer, k, kw, i);
    }
  }

  lemma StringAtStable(older: seq<Byte>, newer: seq<Byte>, data: nat, w: Width)
    requires Prefix(older, newer) && StringAt(older, data, w).Some?
    ensures StringAt(newer, data, w) == StringAt(older, data, w)
  {
    hide ReadBytes, Prefix;
    BytesStable(older, newer, data, w);
    ByteStable(older, newer, data + |ReadBytes(older, data, w).value|);
    PrefixShorter(older, newer);
  }

  lemma StringReadStable(older: seq<Byte>, newer: seq<Byte>, r: Reference)
    requires Prefix(older, newer) && AsString(older, r).Some?
    ensures AsString(newer, r) == AsString(older, r)
  {
    hide Word, StringAt, Prefix;
    if r.ty == FBT_STRING {
      IndirectStable(older, newer, r.pos, r.parentWidth);
      StringAtStable(older, newer, Indirect(older, r.pos, r.parentWidth).value, r.width);
    }
  }

  lemma BlobReadStable(older: seq<Byte>, newer: seq<Byte>, r: Reference)
    requires Prefix(older, newer) && AsBlob(older, r).Some?
    ensures AsBlob(newer, r) == AsBlob(older, r)
  {
    hide Word, ReadBytes, Prefix;
    if r.ty == FBT_BLOB {
      IndirectStable(older, newer, r.pos, r.parentWidth);
      BytesStable(older, newer, Indirect(older, r.pos, r.parentWidth).value, r.width);
    }
  }

  /** Whatever is appended later, a reference goes on reading as the same tree. */
  lemma {:induction false} ReadsStable(older: seq<Byte>, newer: seq<Byte>, r: Reference, t: Tree)
    requires Prefix(older, newer) && Reads(older, r, t)
    ensures Reads(newer, r, t)
    decreases t, 1
  {
    hide Word, Prefix, Element, ReadBytes;
    match t
    case TNull =>
    case TBool(b) => UIntStable(older, newer, r.pos, r.parentWidth);
    case TInt(i) => UIntStable(older, newer, r.pos, r.parentWidth);
    case TUInt(u) => UIntStable(older, newer, r.pos, r.parentWidth);
    case TString(s) => StringReadStable(older, newer, r);
    case TBlob(s) => BlobReadStable(older, newer, r);
    case TVector(ts) =>
      IndirectStable(older, newer, r.pos, r.parentWidth);
      VectorStable(older, newer, VectorData(older, r).value, r.width, t);
    case TMap(es) =>
      IndirectStable(older, newer, r.pos, r.parentWidth);
      MapStable(older, newer, VectorData(older, r).value, r.width, t);
  }

  lemma {:induction false} VectorStable(older: seq<Byte>, newer: seq<Byte>, data: nat, w: Width, t: Tree)
    requires Prefix(older, newer) && t.TVector? && ReadsVector(older, data, w, t)
    ensures ReadsVector(newer, data, w, t)
    decreases t, 0
  {
    hide Word, Prefix, Element;
    UIntStable(older, newer, data - w, w);
    forall i | 0 <= i < |t.elems|
      ensures Element(newer, data, w, i).Some? && Reads(newer, Element(newer, data, w, i).value, t.elems[i])
    {
      ElementStable(older, newer, data, w, i);
      ReadsStable(older, newer, Element(older, data, w, i).value, t.elems[i]);
    }
  }

  lemma {:induction false} MapStable(older: seq<Byte>, newer: seq<Byte>, data: nat, w: Width, t: Tree)
    requires Prefix(older, newer) && t.TMap? && ReadsMap(older, data, w, t)
    ensures ReadsMap(newer, data, w, t)
    decreases t, 0
  {
    hide Word, Prefix, Element, ReadsKeys;
    UIntStable(older, newer, data - w, w);
    KeysStable(older, newer, data, w, t.entries);
    forall i | 0 <= i < |t.entries|
      ensures Element(newer, data, w, i).Some? && Reads(newer, Element(newer, data, w, i).value, t.entries[i].value)
    {
      ElementStable(older, newer, data, w, i);
      ReadsStable(older, newer, Element(older, data, w, i).value, t.entries[i].value);
    }
  }

  /** The accessors determine the tree: a reference reads as at most one. */
  lemma {:induction false} ReadsUnique(buf: seq<Byte>, r: Reference, t1: Tree, t2: Tree)
    requires Reads(buf, r, t1) && Reads(buf, r, t2)
    ensures t1 == t2
    decreases t1
  {
    hide Word, Element, ReadBytes, KeysOf, KeyAt;
    match t1
    case TVector(ts) =>
      forall i | 0 <= i < |ts| ensures ts[i] == t2.elems[i] {
        ReadsUnique(buf, Element(buf, VectorData(buf, r).value, r.width, i).value, ts[i], t2.elems[i]);
      }
      assert ts == t2.elems;
    case TMap(es) =>
      forall i | 0 <= i < |es| ensures es[i] == t2.entries[i] {
        ReadsUnique(buf, Element(buf, VectorData(buf, r).value, r.width, i).value, es[i].value, t2.entries[i].value);
      }
      assert es == t2.entries;
    case _ =>
  }
}
