/** What the FlexBuffers builder's operations do, as functions on the bytes written so far and the
    stack of values waiting for their parent. */
module FlexSpec {
  import opened Bytes
  import opened Wrappers
  import opened FlexWidths
  import opened FlexReader

  /** Builder::Value: a scalar, or the absolute position of what was written; the type; the width of
      the scalar itself, of a string's length or of a vector's elements. */
  datatype Value = Value(u: int, ty: nat, width: Width)

  datatype Flags = Flags(shareKeys: bool, shareStrings: bool, forceMin: Width)

  datatype State = State(
    buf: seq<Byte>,
    stack: seq<Value>,
    keyPool: seq<nat>,
    stringPool: seq<(nat, nat)>)

  const Empty := State([], [], [], [])

  predicate IsInline(ty: nat) {
    ty <= 3 || ty == FBT_BOOL
  }

  /** A value whose position, if it has one, is inside the first `size` bytes. */
  predicate ValueIn(v: Value, size: nat) {
    v.ty < 64 && (if v.ty == FBT_UINT || v.ty == FBT_BOOL then 0 <= v.u else !IsInline(v.ty) ==> 0 <= v.u <= size)
  }

  predicate ValuesIn(vs: seq<Value>, size: nat) {
    forall k :: 0 <= k < |vs| ==> ValueIn(vs[k], size)
  }

  function Push(st: State, v: Value): State {
    st.(stack := st.stack + [v])
  }

  // ---- scalars ---------------------------------------------------------------------------------

  function NullValue(): Value { Value(0, FBT_NULL, 1) }

  function BoolValue(b: bool): Value { Value(if b then 1 else 0, FBT_BOOL, 1) }

  function IntValue(i: int): Value { Value(i, FBT_INT, WidthI(i)) }

  function UIntValue(u: nat): Value { Value(u, FBT_UINT, WidthU(u)) }

  // ---- keys, strings and blobs -----------------------------------------------------------------

  /** What strcmp and the readers see of a key. */
  function CPart(s: seq<Byte>): (r: seq<Byte>)
    ensures |r| <= |s|
  {
    if s == [] || s[0] == 0 then [] else [s[0]] + CPart(s[1..])
  }

  function FindKey(buf: seq<Byte>, pool: seq<nat>, key: seq<Byte>): (r: Option<nat>)
    ensures r.Some? ==> CString(buf, r.value) == Some(key) && exists k :: 0 <= k < |pool| && pool[k] == r.value
    ensures r.None? ==> forall k :: 0 <= k < |pool| ==> CString(buf, pool[k]) != Some(key)
  {
    if pool == [] then None
    else if CString(buf, pool[0]) == Some(key) then Some(pool[0])
    else
      var r := FindKey(buf, pool[1..], key);
      assert forall k :: 0 < k < |pool| ==> pool[k] == pool[1..][k - 1];
      r
  }

  function Key(flags: Flags, st: State, str: seq<Byte>): State {
    var found := if flags.shareKeys then FindKey(st.buf, st.keyPool, CPart(str)) else None;
    match found
    case Some(k) => Push(st, Value(k, FBT_KEY, 1))
    case None =>
      Push(st.(buf := st.buf + (str + [0]),
               keyPool := if flags.shareKeys then st.keyPool + [|st.buf|] else st.keyPool),
           Value(|st.buf|, FBT_KEY, 1))
  }

  function Align(buf: seq<Byte>, w: Width): seq<Byte> {
    buf + Zeros(PaddingBytes(|buf|, w))
  }

  /** CreateBlob: the length, the bytes, and `trailing` zeros. */
  function CreateBlob(buf: seq<Byte>, data: seq<Byte>, trailing: nat, ty: nat): (seq<Byte>, Value) {
    var w := WidthU(|data|);
    var a := Align(buf, w) + LE(|data|, w);
    (a + (data + Zeros(trailing)), Value(|a|, ty, w))
  }

  function FindString(buf: seq<Byte>, pool: seq<(nat, nat)>, str: seq<Byte>): (r: Option<nat>)
    ensures r.Some? ==> exists k :: 0 <= k < |pool| && pool[k] == (r.value, |str|)
                                   && r.value + |str| <= |buf| && buf[r.value..r.value + |str|] == str
    ensures r.None? ==> forall k :: 0 <= k < |pool| && pool[k].1 == |str| && pool[k].0 + |str| <= |buf| ==>
                          buf[pool[k].0..pool[k].0 + |str|] != str
  {
    if pool == [] then None
    else if pool[0].1 == |str| && pool[0].0 + |str| <= |buf| && buf[pool[0].0..pool[0].0 + |str|] == str
    then Some(pool[0].0)
    else
      var r := FindString(buf, pool[1..], str);
      assert forall k :: 0 < k < |pool| ==> pool[k] == pool[1..][k - 1];
      r
  }

  function String(flags: Flags, st: State, str: seq<Byte>): State {
    var (buf, v) := CreateBlob(st.buf, str, 1, FBT_STRING);
    var found := if flags.shareStrings then FindString(st.buf, st.stringPool, str) else None;
    match found
    case Some(p) => Push(st, v.(u := p))
    case None =>
      Push(st.(buf := buf, stringPool := if flags.shareStrings then st.stringPool + [(v.u as nat, |str|)] else st.stringPool), v)
  }

  function Blob(st: State, bytes: seq<Byte>): State {
    var (buf, v) := CreateBlob(st.buf, bytes, 0, FBT_BLOB);
    Push(st.(buf := buf), v)
  }

  // ---- vectors ---------------------------------------------------------------------------------

  /** Value::ElemWidth. */
  function ElemWidth(v: Value, size: nat, index: nat): Width
    requires ValueIn(v, size)
  {
    if IsInline(v.ty) then v.width else OffsetWidth(size, index, v.u)
  }

  function StoredWidth(v: Value, parent: Width): Width {
    if IsInline(v.ty) then MaxWidth(v.width, parent) else v.width
  }

  function StoredType(v: Value, parent: Width): (p: Byte)
    requires v.ty < 64
    ensures Unpack(0, 1, p) == Reference(0, 1, StoredWidth(v, parent), v.ty)
  {
    PackedType(StoredWidth(v, parent), v.ty)
  }

  /** The number WriteAny stores for a value in the slot at `pos`: its own pattern, or how far back
      what it stands for lies. */
  function Raw(v: Value, pos: nat): nat
    requires ValueIn(v, pos)
  {
    if v.ty == FBT_NULL || v.ty == FBT_INT then v.u % U64
    else if v.ty == FBT_BOOL || v.ty == FBT_UINT then v.u
    else if IsInline(v.ty) then v.u % U64
    else pos - v.u
  }

  /** The elements one after the other, the first at `pos`. */
  function Elements(vs: seq<Value>, pos: nat, w: Width): (s: seq<Byte>)
    requires ValuesIn(vs, pos)
    ensures |s| == |vs| * w
  {
    if vs == [] then []
    else
      var n := |vs| - 1;
      assert ValueIn(vs[n], pos + n * w);
      Elements(vs[..n], pos, w) + LE(Raw(vs[n], pos + n * w), w)
  }

  function Types(vs: seq<Value>, w: Width): (s: seq<Byte>)
    requires forall k :: 0 <= k < |vs| ==> vs[k].ty < 64
    ensures |s| == |vs|
  {
    seq(|vs|, k requires 0 <= k < |vs| => StoredType(vs[k], w))
  }

  /** The largest width any element asks for; `step` slots are counted per element. */
  function WidestElement(vs: seq<Value>, size: nat, step: nat, prefix: nat, least: Width): (w: Width)
    requires ValuesIn(vs, size)
    ensures least <= w
  {
    if vs == [] then least
    else
      var n := |vs| - 1;
      MaxWidth(WidestElement(vs[..n], size, step, prefix, least), ElemWidth(vs[n], size, n * step + prefix))
  }

  function PrefixSlots(keys: Option<Value>): nat {
    if keys.Some? then 3 else 1
  }

  predicate KeysIn(keys: Option<Value>, size: nat) {
    keys.Some? ==> !IsInline(keys.value.ty) && ValueIn(keys.value, size)
  }

  function VectorWidth(flags: Flags, vs: seq<Value>, size: nat, step: nat, keys: Option<Value>): Width
    requires ValuesIn(vs, size) && KeysIn(keys, size)
  {
    var least := MaxWidth(flags.forceMin, WidthU(|vs|));
    WidestElement(vs, size, step, PrefixSlots(keys),
                  if keys.Some? then MaxWidth(least, ElemWidth(keys.value, size, 0)) else least)
  }

  /** What precedes the elements: for a map the offset and the width of its keys; the length. */
  function Header(keys: Option<Value>, len: nat, pos: nat, w: Width): (s: seq<Byte>)
    requires KeysIn(keys, pos)
    ensures |s| == PrefixSlots(keys) * w
  {
    match keys
    case Some(k) => LE(pos - k.u, w) + LE(k.width, w) + LE(len, w)
    case None => LE(len, w)
  }

  function VectorType(vs: seq<Value>, typed: bool, keys: Option<Value>): nat {
    if keys.Some? then FBT_MAP
    else if typed then (if vs == [] then FBT_KEY else vs[0].ty) + 10
    else FBT_VECTOR
  }

  /** CreateVector over every `step`-th value of the stack, given as vs. */
  function CreateVector(flags: Flags, buf: seq<Byte>, vs: seq<Value>, step: nat, typed: bool, keys: Option<Value>): (seq<Byte>, Value)
    requires ValuesIn(vs, |buf|) && KeysIn(keys, |buf|)
  {
    var w := VectorWidth(flags, vs, |buf|, step, keys);
    var a := Align(buf, w);
    var b := a + Header(keys, |vs|, |a|, w);
    var c := b + Elements(vs, |b|, w);
    (if typed then c else c + Types(vs, w), Value(|b|, VectorType(vs, typed, keys), w))
  }

  predicate VectorReady(st: State, start: nat) {
    start <= |st.stack| && ValuesIn(st.stack, |st.buf|)
  }

  function EndVector(flags: Flags, st: State, start: nat): State
    requires VectorReady(st, start)
  {
    var (buf, v) := CreateVector(flags, st.buf, st.stack[start..], 1, false, None);
    st.(buf := buf, stack := st.stack[..start] + [v])
  }

  // ---- maps ------------------------------------------------------------------------------------

  /** `strcmp(a, b) < 0` on the bytes before the zeros. */
  predicate Less(a: seq<Byte>, b: seq<Byte>) {
    if b == [] then false
    else if a == [] then true
    else if a[0] != b[0] then a[0] < b[0]
    else Less(a[1..], b[1..])
  }

  /** Puts index x into an order of indices that is sorted by key, after its equals. */
  function Insert(keys: seq<seq<Byte>>, order: seq<nat>, x: nat): (r: seq<nat>)
    requires x < |keys| && forall j :: 0 <= j < |order| ==> order[j] < |keys|
    ensures |r| == |order| + 1 && forall j :: 0 <= j < |r| ==> r[j] < |keys|
  {
    if order == [] then [x]
    else
      var n := |order| - 1;
      if Less(keys[x], keys[order[n]]) then Insert(keys, order[..n], x) + [order[n]] else order + [x]
  }

  /** The order in which sorting by key arranges the entries. */
  function Order(keys: seq<seq<Byte>>): (r: seq<nat>)
    ensures |r| == |keys| && forall j :: 0 <= j < |r| ==> r[j] < |keys|
  {
    if keys == [] then []
    else Insert(keys, Order(keys[..|keys| - 1]), |keys| - 1)
  }

  function Arrange<T>(xs: seq<T>, order: seq<nat>): (r: seq<T>)
    requires forall j :: 0 <= j < |order| ==> order[j] < |xs|
    ensures |r| == |order| && forall j :: 0 <= j < |r| ==> r[j] == xs[order[j]]
  {
    seq(|order|, j requires 0 <= j < |order| => xs[order[j]])
  }

  /** Every second value of the stack from `start` on. */
  function Every2nd(stack: seq<Value>, start: nat, n: nat): (r: seq<Value>)
    requires n > 0 ==> start + 2 * (n - 1) < |stack|
    ensures |r| == n && forall j :: 0 <= j < n ==> r[j] == stack[start + 2 * j]
  {
    seq(n, j requires 0 <= j < n => stack[start + 2 * j])
  }

  /** Each key of the map is a readable string. */
  predicate KeysReadable(buf: seq<Byte>, ks: seq<Value>) {
    forall j :: 0 <= j < |ks| ==> ks[j].ty == FBT_KEY && ks[j].u >= 0 && CString(buf, ks[j].u).Some?
  }

  function KeyStrings(buf: seq<Byte>, ks: seq<Value>): (r: seq<seq<Byte>>)
    requires KeysReadable(buf, ks)
    ensures |r| == |ks| && forall j :: 0 <= j < |ks| ==> r[j] == CString(buf, ks[j].u).value
  {
    seq(|ks|, j requires 0 <= j < |ks| => CString(buf, ks[j].u).value)
  }

  predicate MapReady(st: State, start: nat) {
    && VectorReady(st, start) && (|st.stack| - start) % 2 == 0
    && KeysReadable(st.buf, Every2nd(st.stack, start, (|st.stack| - start) / 2))
  }

  /** Keys and values alternate on the stack from `start`; here the keys, sorted. */
  function SortedKeys(st: State, start: nat): (r: seq<Value>)
    requires MapReady(st, start)
    ensures ValuesIn(r, |st.buf|) && forall j :: 0 <= j < |r| ==> r[j].ty == FBT_KEY
  {
    var ks := Every2nd(st.stack, start, (|st.stack| - start) / 2);
    Arrange(ks, Order(KeyStrings(st.buf, ks)))
  }

  /** The values in the order of their keys. */
  function SortedValues(st: State, start: nat): (r: seq<Value>)
    requires MapReady(st, start)
    ensures ValuesIn(r, |st.buf|)
  {
    var n := (|st.stack| - start) / 2;
    Arrange(Every2nd(st.stack, start + 1, n), Order(KeyStrings(st.buf, Every2nd(st.stack, start, n))))
  }

  /** EndMap: a key vector and, referring to it, the values' vector. */
  function EndMap(flags: Flags, st: State, start: nat): (r: State)
    requires MapReady(st, start)
  {
    var (kbuf, keys) := CreateVector(flags, st.buf, SortedKeys(st, start), 2, true, None);
    KeyVectorIn(flags, st.buf, SortedKeys(st, start));
    var (buf, v) := CreateVector(flags, kbuf, SortedValues(st, start), 2, false, Some(keys));
    st.(buf := buf, stack := st.stack[..start] + [v])
  }

  lemma KeyVectorIn(flags: Flags, buf: seq<Byte>, ks: seq<Value>)
    requires ValuesIn(ks, |buf|) && forall j :: 0 <= j < |ks| ==> ks[j].ty == FBT_KEY
    ensures var (kbuf, keys) := CreateVector(flags, buf, ks, 2, true, None);
            keys.ty == FBT_VECTOR_KEY && |buf| <= |kbuf| && 0 <= keys.u <= |kbuf|
  {
  }

  // ---- finishing -------------------------------------------------------------------------------

  /** Finish: the root value, its packed type, its width. */
  function Finish(st: State): seq<Byte>
    requires |st.stack| == 1 && ValuesIn(st.stack, |st.buf|)
  {
    var v := st.stack[0];
    var w := ElemWidth(v, |st.buf|, 0);
    var a := Align(st.buf, w);
    a + LE(Raw(v, |a|), w) + [StoredType(v, 1)] + [w]
  }
}
