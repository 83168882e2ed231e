/** A laid out value is what the accessors read. */
module LayoutReads {
  import opened Bytes
  import opened Wrappers
  import opened Table
  import opened Schema
  import opened TableLayout
  import opened Layout

  /** The accessor finds the vtable by the signed offset and returns its entry. */
  lemma EntryReads(buf: seq<Byte>, o: nat, id: nat)
    requires 4 <= o <= |buf| && 0 <= VtableOf(buf, o) && VtableOk(buf, VtableOf(buf, o)) && IsFieldId(id)
    ensures GetOptionalFieldOffset(buf, |buf| - o, id) == Some(EntryAt(buf, VtableOf(buf, o), id))
  {
    var vt := VtableOf(buf, o);
    assert GetVTable(buf, |buf| - o) == Some(|buf| - vt);
  }

  lemma StringReads(buf: seq<Byte>, lim: nat, o: nat, str: seq<Byte>)
    requires LaidString(buf, lim, o, str)
    ensures GetString(buf, |buf| - o) == Some(str)
  {
    var p := |buf| - o;
    assert buf[p + 4..p + 4 + |str|] == Tail(buf, o)[4..4 + |str|];
    assert buf[p + 4 + |str|] == Tail(buf, o)[4 + |str|];
  }

  lemma ScalarReads(buf: seq<Byte>, e: nat, size: nat, i: nat, n: nat)
    requires e + 4 <= |buf| && ScalarIs(buf, e, size, i, n)
    ensures GetScalar(buf, |buf| - e - 4, size, i) == Some(n)
  {
    var d := i * size;
    assert |buf| - (e - d) == |buf| - e - 4 + 4 + d;
  }

  lemma {:induction false} ScalarsRead(buf: seq<Byte>, e: nat, size: nat, ns: seq<nat>, i: nat)
    requires e + 4 <= |buf| && i <= |ns|
    requires forall k :: 0 <= k < |ns| ==> ScalarIs(buf, e, size, k, ns[k])
    ensures GetScalars(buf, |buf| - e - 4, size, i, |ns|) == Some(ns[i..])
    decreases |ns| - i
  {
    hide ScalarIs, GetScalar;
    if i < |ns| {
      ScalarReads(buf, e, size, i, ns[i]);
      ScalarsRead(buf, e, size, ns, i + 1);
      assert ns[i..] == [ns[i]] + ns[i + 1..];
    }
  }

  /** An offset element of a vector reads as the position of its target. */
  lemma OffsetReads(buf: seq<Byte>, lim: nat, o: nat, i: nat)
    requires 4 + 4 * i + 4 <= o <= |buf| && LaidOffset(buf, lim, o - 4 - 4 * i)
    ensures GetIndirect(buf, |buf| - o, i) == Some(|buf| - Target(buf, o - 4 - 4 * i))
  {
  }

  lemma {:induction false} StringsRead(buf: seq<Byte>, lim: nat, o: nat, items: seq<Value>, i: nat)
    requires LaidOffsets(buf, lim, o, |items|) && i <= |items|
    requires forall k :: 0 <= k < |items| ==>
               items[k].VString? && LaidString(buf, lim, Target(buf, o - 4 - 4 * k), items[k].str)
    ensures DecodeStrings(buf, |buf| - o, i, |items|) == Some(items[i..])
    decreases |items| - i
  {
    hide LaidString, GetIndirect, GetString, At;
    if i < |items| {
      OffsetReads(buf, lim, o, i);
      StringReads(buf, lim, Target(buf, o - 4 - 4 * i), items[i].str);
      StringsRead(buf, lim, o, items, i + 1);
      assert items[i..] == [items[i]] + items[i + 1..];
    }
  }

  /** An offset field reads as the position of its target, an absent one as null. */
  lemma PointerReads(buf: seq<Byte>, lim: nat, o: nat, id: nat)
    requires 4 <= o <= |buf| && 0 <= VtableOf(buf, o) && VtableOk(buf, VtableOf(buf, o)) && IsFieldId(id)
    requires var e := EntryAt(buf, VtableOf(buf, o), id); e != 0 ==> e <= o && LaidOffset(buf, lim, o - e)
    ensures var e := EntryAt(buf, VtableOf(buf, o), id);
            GetPointer(buf, |buf| - o, id) == Some(if e == 0 then Null else To(|buf| - Target(buf, o - e)))
  {
    EntryReads(buf, o, id);
  }

  lemma {:induction false} ObjectReads(buf: seq<Byte>, lim: nat, ma: nat, sch: Schema, ty: FieldType, o: nat, v: Value)
    requires SchemaOk(sch) && o <= |buf| && Laid(buf, lim, ma, sch, ty, o, v)
    ensures DecodeObject(buf, sch, ty, |buf| - o) == Some(v)
    decreases v, 1
  {
    match ty
    case TString => StringReads(buf, lim, o, v.str);
    case TScalarVector(size) =>
      ScalarsRead(buf, o - 4, size, v.ns, 0);
      assert v.ns[0..] == v.ns;
    case TStringVector =>
      StringsRead(buf, lim, o, v.items, 0);
      assert v.items[0..] == v.items;
    case TTable(j) => TableReads(buf, lim, ma, sch, j, o, v);
    case TTableVector(j) =>
      TablesRead(buf, lim, ma, sch, j, o, v, 0);
      assert v.items[0..] == v.items;
    case _ =>
  }

  lemma {:induction false} TablesRead(buf: seq<Byte>, lim: nat, ma: nat, sch: Schema, ti: nat, o: nat, v: Value, i: nat)
    requires SchemaOk(sch) && ti < |sch| && v.VList? && LaidOffsets(buf, lim, o, |v.items|) && i <= |v.items|
    requires forall k :: 0 <= k < |v.items| ==>
               LaidTable(buf, lim, ma, sch, ti, Target(buf, o - 4 - 4 * k), v.items[k])
    ensures DecodeTables(buf, sch, ti, |buf| - o, i, |v.items|) == Some(v.items[i..])
    decreases v, 0, |v.items| - i
  {
    hide LaidTable, DecodeTable, GetIndirect, At;
    if i < |v.items| {
      OffsetReads(buf, lim, o, i);
      TableReads(buf, lim, ma, sch, ti, Target(buf, o - 4 - 4 * i), v.items[i]);
      TablesRead(buf, lim, ma, sch, ti, o, v, i + 1);
      assert v.items[i..] == [v.items[i]] + v.items[i + 1..];
    } else {
      assert v.items[i..] == [];
    }
  }

  lemma {:induction false} TableReads(buf: seq<Byte>, lim: nat, ma: nat, sch: Schema, ti: nat, o: nat, v: Value)
    requires SchemaOk(sch) && ti < |sch| && LaidTable(buf, lim, ma, sch, ti, o, v)
    ensures DecodeTable(buf, sch, ti, |buf| - o) == Some(v)
    decreases v, 0, |v.fields| + 1
  {
    FieldsRead(buf, lim, ma, sch, ti, o, v, 0);
    assert v.fields[0..] == v.fields;
  }

  lemma {:induction false} FieldsRead(buf: seq<Byte>, lim: nat, ma: nat, sch: Schema, ti: nat, o: nat, v: Value, k: nat)
    requires SchemaOk(sch) && ti < |sch| && LaidTable(buf, lim, ma, sch, ti, o, v) && k <= |sch[ti]|
    ensures DecodeFields(buf, sch, ti, |buf| - o, k) == Some(v.fields[k..])
    decreases v, 0, |v.fields| - k
  {
    hide LaidField, DecodeField, VtableOk, VtableOf, TypeOk;
    if k < |sch[ti]| {
      FieldReads(buf, lim, ma, sch, ti, o, k, v.fields[k]);
      FieldsRead(buf, lim, ma, sch, ti, o, v, k + 1);
      assert v.fields[k..] == [v.fields[k]] + v.fields[k + 1..];
    } else {
      assert v.fields[k..] == [];
    }
  }

  /** The union's type as the accessor reads it. */
  lemma UnionTypeReads(buf: seq<Byte>, o: nat, typeField: nat)
    requires 4 <= o <= |buf| && 0 <= VtableOf(buf, o) && VtableOk(buf, VtableOf(buf, o)) && IsFieldId(typeField)
    requires UnionType(buf, o, typeField).Some?
    ensures GetField(buf, |buf| - o, typeField, 1, 0) == UnionType(buf, o, typeField)
  {
    EntryReads(buf, o, typeField);
  }

  lemma {:induction false} FieldReads(buf: seq<Byte>, lim: nat, ma: nat, sch: Schema, ti: nat, o: nat, k: nat, v: Value)
    requires SchemaOk(sch) && ti < |sch| && k < |sch[ti]|
    requires 4 <= o <= lim <= |buf| && VtableOf(buf, o) >= 0 && VtableOk(buf, VtableOf(buf, o))
    requires LaidField(buf, lim, ma, sch, ti, o, k, v)
    ensures DecodeField(buf, sch, ti, |buf| - o, k) == Some(v)
    decreases v, 3
  {
    hide LaidField, DecodeField, VtableOf, VtableOk;
    match sch[ti][k].ty
    case TScalar(_, _) => ScalarFieldReads(buf, lim, ma, sch, ti, o, k, v);
    case TUnion(_, _) => UnionFieldReads(buf, lim, ma, sch, ti, o, k, v);
    case _ => ObjectFieldReads(buf, lim, ma, sch, ti, o, k, v);
  }

  lemma ScalarFieldReads(buf: seq<Byte>, lim: nat, ma: nat, sch: Schema, ti: nat, o: nat, k: nat, v: Value)
    requires SchemaOk(sch) && ti < |sch| && k < |sch[ti]|
    requires 4 <= o <= lim <= |buf| && VtableOf(buf, o) >= 0 && VtableOk(buf, VtableOf(buf, o))
    requires sch[ti][k].ty.TScalar? && LaidField(buf, lim, ma, sch, ti, o, k, v)
    ensures DecodeField(buf, sch, ti, |buf| - o, k) == Some(v)
  {
    EntryReads(buf, o, sch[ti][k].id);
    hide VtableOf, VtableOk, EntryAt, GetOptionalFieldOffset;
  }

  lemma {:induction false} UnionFieldReads(buf: seq<Byte>, lim: nat, ma: nat, sch: Schema, ti: nat, o: nat, k: nat, v: Value)
    requires SchemaOk(sch) && ti < |sch| && k < |sch[ti]|
    requires 4 <= o <= lim <= |buf| && VtableOf(buf, o) >= 0 && VtableOk(buf, VtableOf(buf, o))
    requires sch[ti][k].ty.TUnion? && LaidField(buf, lim, ma, sch, ti, o, k, v)
    ensures DecodeField(buf, sch, ti, |buf| - o, k) == Some(v)
    decreases v, 2
  {
    hide SchemaOk, TypeOk, VtableOf, VtableOk, EntryAt, GetPointer, UnionType, GetField, LaidTable, DecodeTable, At;
    UnionIsOk(sch, ti, k);
    var TUnion(typeField, members) := sch[ti][k].ty;
    PointerReads(buf, lim, o, sch[ti][k].id);
    UnionTypeReads(buf, o, typeField);
    var e := EntryAt(buf, VtableOf(buf, o), sch[ti][k].id);
    if e != 0 {
      var w := UnionType(buf, o, typeField).value;
      if w in members {
        TableReads(buf, lim, ma, sch, members[w], Target(buf, o - e), v);
      }
    }
  }

  lemma {:induction false} ObjectFieldReads(buf: seq<Byte>, lim: nat, ma: nat, sch: Schema, ti: nat, o: nat, k: nat, v: Value)
    requires SchemaOk(sch) && ti < |sch| && k < |sch[ti]|
    requires 4 <= o <= lim <= |buf| && VtableOf(buf, o) >= 0 && VtableOk(buf, VtableOf(buf, o))
    requires !sch[ti][k].ty.TScalar? && !sch[ti][k].ty.TUnion? && LaidField(buf, lim, ma, sch, ti, o, k, v)
    ensures DecodeField(buf, sch, ti, |buf| - o, k) == Some(v)
    decreases v, 2
  {
    hide SchemaOk, VtableOf, VtableOk, EntryAt, GetPointer, Laid, DecodeObject, At;
    FieldIsOk(sch, ti, k);
    PointerReads(buf, lim, o, sch[ti][k].id);
    var e := EntryAt(buf, VtableOf(buf, o), sch[ti][k].id);
    if e != 0 {
      ObjectReads(buf, lim, ma, sch, sch[ti][k].ty, Target(buf, o - e), v);
    }
  }
}
