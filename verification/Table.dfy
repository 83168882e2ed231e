/** The accessors of a finished buffer.  Every accessor returns None when it would read a byte
    outside the buffer, so "Some" means that the reads were inside. */
module Table {
  import opened Bytes
  import opened Wrappers

  datatype Pointer = Null | To(pos: nat)

  /** Field ids as FieldIndexToOffset produces them: even, past the two sizes, below the limit. */
  predicate IsFieldId(id: nat) {
    id % 2 == 0 && 4 <= id <= 65532
  }

  function ReadScalar(buf: seq<Byte>, pos: int, size: nat): (r: Option<nat>)
    ensures r.Some? <==> 0 <= pos && pos + size <= |buf|
  {
    if 0 <= pos && pos + size <= |buf| then Some(Word(buf, pos, size)) else None
  }

  /** The position of the vtable: the table's position less the signed offset stored there. */
  function GetVTable(buf: seq<Byte>, t: nat): Option<int> {
    var soffset :- ReadScalar(buf, t, 4);
    Some(t - Signed32(soffset))
  }

  /** The field's distance from the table's start, 0 when the vtable does not have it. */
  function GetOptionalFieldOffset(buf: seq<Byte>, t: nat, field: nat): Option<nat> {
    var vtable :- GetVTable(buf, t);
    var vtsize :- ReadScalar(buf, vtable, 2);
    if field < vtsize then ReadScalar(buf, vtable + field, 2) else Some(0)
  }

  function GetField(buf: seq<Byte>, t: nat, field: nat, size: nat, def: nat): Option<nat> {
    var offset :- GetOptionalFieldOffset(buf, t, field);
    if offset != 0 then ReadScalar(buf, t + offset, size) else Some(def)
  }

  function GetPointer(buf: seq<Byte>, t: nat, field: nat): (r: Option<Pointer>)
    ensures r.Some? && r.value.To? ==> t < r.value.pos
  {
    var offset :- GetOptionalFieldOffset(buf, t, field);
    if offset == 0 then Some(Null)
    else
      var o :- ReadScalar(buf, t + offset, 4);
      Some(To(t + offset + o))
  }

  /** Vector::size. */
  function VectorSize(buf: seq<Byte>, v: nat): Option<nat> {
    ReadScalar(buf, v, 4)
  }

  /** Vector::Get on scalars. */
  function GetScalar(buf: seq<Byte>, v: nat, size: nat, i: nat): Option<nat> {
    ReadScalar(buf, v + 4 + i * size, size)
  }

  /** Vector::Get on offsets: an offset is relative to its own position. */
  function GetIndirect(buf: seq<Byte>, v: nat, i: nat): (r: Option<nat>)
    ensures r.Some? ==> v < r.value
  {
    var o :- ReadScalar(buf, v + 4 + i * 4, 4);
    Some(v + 4 + i * 4 + o)
  }

  function GetScalars(buf: seq<Byte>, v: nat, size: nat, i: nat, n: nat): (r: Option<seq<nat>>)
    requires i <= n
    ensures r.Some? ==> |r.value| == n - i
    decreases n - i
  {
    if i == n then Some([])
    else
      var x :- GetScalar(buf, v, size, i);
      var rest :- GetScalars(buf, v, size, i + 1, n);
      Some([x] + rest)
  }

  /** The characters of a string.  A reader of c_str() stops only at a zero byte, so a string whose
      terminator is missing counts as a read outside. */
  function GetString(buf: seq<Byte>, s: nat): Option<seq<Byte>> {
    var n :- VectorSize(buf, s);
    if s + 4 + n < |buf| && buf[s + 4 + n] == 0 then Some(buf[s + 4..s + 4 + n]) else None
  }

  /** GetRoot: the root offset is stored at the start. */
  function GetRoot(buf: seq<Byte>, start: nat): Option<nat> {
    var o :- ReadScalar(buf, start, 4);
    Some(start + o)
  }
}

/** Schemas as data, and reading a whole buffer by schema through the accessors. */
module Schema {
  import opened Bytes
  import opened Wrappers
  import opened Table

  datatype FieldType =
    | TScalar(size: nat, def: nat)
    | TString
    | TScalarVector(size: nat)
    | TStringVector
    | TTable(table: nat)
    | TTableVector(table: nat)
    | TUnion(typeField: nat, members: map<nat, nat>)   // union type value -> table

  datatype FieldDef = FieldDef(id: nat, ty: FieldType)

  /** Tables by index, each with its fields in the order their checks are generated. */
  type Schema = seq<seq<FieldDef>>

  predicate TypeOk(sch: Schema, table: nat, k: nat)
    requires table < |sch| && k < |sch[table]|
  {
    match sch[table][k].ty
    case TScalar(size, def) => IsScalarSize(size) && def < Pow256(size)
    case TString => true
    case TScalarVector(size) => IsScalarSize(size)
    case TStringVector => true
    case TTable(t) => t < |sch|
    case TTableVector(t) => t < |sch|
    case TUnion(typeField, members) =>
      // the union's type is a one-byte field checked just before the union
      && 0 < k && sch[table][k - 1] == FieldDef(typeField, TScalar(1, 0))
      && forall e :: e in members ==> members[e] < |sch|
  }

  predicate SchemaOk(sch: Schema) {
    forall t, k :: 0 <= t < |sch| && 0 <= k < |sch[t]| ==> IsFieldId(sch[t][k].id) && TypeOk(sch, t, k)
  }

  lemma FieldIsOk(sch: Schema, ti: nat, k: nat)
    requires SchemaOk(sch) && ti < |sch| && k < |sch[ti]|
    ensures IsFieldId(sch[ti][k].id) && TypeOk(sch, ti, k)
  {
  }

  /** A union's type field is the one-byte field before it. */
  lemma UnionIsOk(sch: Schema, ti: nat, k: nat)
    requires SchemaOk(sch) && ti < |sch| && k < |sch[ti]| && sch[ti][k].ty.TUnion?
    ensures IsFieldId(sch[ti][k].id) && IsFieldId(sch[ti][k].ty.typeField)
    ensures 0 < k && sch[ti][k - 1] == FieldDef(sch[ti][k].ty.typeField, TScalar(1, 0))
    ensures forall e :: e in sch[ti][k].ty.members ==> sch[ti][k].ty.members[e] < |sch|
  {
    FieldIsOk(sch, ti, k);
    FieldIsOk(sch, ti, k - 1);
  }

  datatype Value =
    | VNull
    | VScalar(n: nat)
    | VString(str: seq<Byte>)
    | VScalars(ns: seq<nat>)
    | VList(items: seq<Value>)
    | VTable(fields: seq<Value>)

  // ---- reading by schema -----------------------------------------------------------------------

  /** Reads a whole table: every field, every element, every byte of text. */
  function DecodeTable(buf: seq<Byte>, sch: Schema, ti: nat, t: nat): Option<Value>
    requires SchemaOk(sch) && ti < |sch|
    decreases |buf| - t, 3
  {
    if t >= |buf| then None
    else
      var fields :- DecodeFields(buf, sch, ti, t, 0);
      Some(VTable(fields))
  }

  function DecodeFields(buf: seq<Byte>, sch: Schema, ti: nat, t: nat, k: nat): (r: Option<seq<Value>>)
    requires SchemaOk(sch) && ti < |sch| && t < |buf| && k <= |sch[ti]|
    ensures r.Some? ==> |r.value| == |sch[ti]| - k
    decreases |buf| - t, 2, |sch[ti]| - k
  {
    if k == |sch[ti]| then Some([])
    else
      var v :- DecodeField(buf, sch, ti, t, k);
      var rest :- DecodeFields(buf, sch, ti, t, k + 1);
      Some([v] + rest)
  }

  function DecodeField(buf: seq<Byte>, sch: Schema, ti: nat, t: nat, k: nat): Option<Value>
    requires SchemaOk(sch) && ti < |sch| && t < |buf| && k < |sch[ti]|
    decreases |buf| - t, 1
  {
    var id := sch[ti][k].id;
    assert TypeOk(sch, ti, k);
    match sch[ti][k].ty
    case TScalar(size, def) =>
      var n :- GetField(buf, t, id, size, def);
      Some(VScalar(n))
    case TUnion(typeField, members) =>
      var which :- GetField(buf, t, typeField, 1, 0);
      var p :- GetPointer(buf, t, id);
      if p.To? && which in members then DecodeTable(buf, sch, members[which], p.pos) else Some(VNull)
    case _ =>
      var p :- GetPointer(buf, t, id);
      if p.Null? then Some(VNull) else DecodeObject(buf, sch, sch[ti][k].ty, p.pos)
  }

  /** The object an offset field of type `ty` points to. */
  function DecodeObject(buf: seq<Byte>, sch: Schema, ty: FieldType, p: nat): Option<Value>
    requires SchemaOk(sch)
    requires match ty { case TTable(j) => j < |sch| case TTableVector(j) => j < |sch| case _ => true }
    decreases |buf| - p, 4
  {
    match ty
    case TString =>
      var s :- GetString(buf, p);
      Some(VString(s))
    case TScalarVector(size) =>
      var n :- VectorSize(buf, p);
      var ns :- GetScalars(buf, p, size, 0, n);
      Some(VScalars(ns))
    case TStringVector =>
      var n :- VectorSize(buf, p);
      var items :- DecodeStrings(buf, p, 0, n);
      Some(VList(items))
    case TTable(j) => DecodeTable(buf, sch, j, p)
    case TTableVector(j) =>
      var n :- VectorSize(buf, p);
      var items :- DecodeTables(buf, sch, j, p, 0, n);
      Some(VList(items))
    case _ => Some(VNull)
  }

  function DecodeStrings(buf: seq<Byte>, v: nat, i: nat, n: nat): (r: Option<seq<Value>>)
    requires i <= n
    ensures r.Some? ==> |r.value| == n - i
    decreases n - i
  {
    if i == n then Some([])
    else
      var p :- GetIndirect(buf, v, i);
      var s :- GetString(buf, p);
      var rest :- DecodeStrings(buf, v, i + 1, n);
      Some([VString(s)] + rest)
  }

  function DecodeTables(buf: seq<Byte>, sch: Schema, ti: nat, v: nat, i: nat, n: nat): (r: Option<seq<Value>>)
    requires SchemaOk(sch) && ti < |sch| && i <= n && v < |buf|
    ensures r.Some? ==> |r.value| == n - i
    decreases |buf| - v, 3, n - i
  {
    if i == n then Some([])
    else
      var p :- GetIndirect(buf, v, i);
      var item :- DecodeTable(buf, sch, ti, p);
      var rest :- DecodeTables(buf, sch, ti, v, i + 1, n);
      Some([item] + rest)
  }

  /** The root table of a buffer that starts at `start`. */
  function DecodeRoot(buf: seq<Byte>, sch: Schema, ti: nat, start: nat): Option<Value>
    requires SchemaOk(sch) && ti < |sch|
  {
    var root :- GetRoot(buf, start);
    DecodeTable(buf, sch, ti, root)
  }
}
