/** How the objects of a value lie in a buffer, counted from its end: a description that writing more
    data in front does not disturb, and from which both reading and verifying can be derived. */
module Layout {
  import opened Bytes
  import opened Wrappers
  import opened Table
  import opened Schema
  import opened TableLayout

  /** The object an offset stored at distance f refers to; offsets point towards the end. */
  function Target(buf: seq<Byte>, f: nat): int
    requires 4 <= f <= |buf|
  {
    f - At(buf, f, 4)
  }

  /** A 4-aligned offset stored at distance f that refers to an object further back. */
  ghost predicate LaidOffset(buf: seq<Byte>, lim: nat, f: nat) {
    4 <= f <= lim <= |buf| && f % 4 == 0 && 0 < Target(buf, f) < f && At(buf, f, 4) < U31
  }

  /** A length, the characters, a zero byte, all within the last `lim` bytes. */
  ghost predicate LaidString(buf: seq<Byte>, lim: nat, o: nat, str: seq<Byte>) {
    && 4 + |str| + 1 <= o <= lim <= |buf|
    && o % 4 == 0
    && At(buf, o, 4) == |str|
    && Tail(buf, o)[4..4 + |str|] == str
    && Tail(buf, o)[4 + |str|] == 0
  }

  ghost predicate LaidScalars(buf: seq<Byte>, lim: nat, ma: nat, o: nat, size: nat, ns: seq<nat>) {
    && IsScalarSize(size)
    && 4 + |ns| * size <= o <= lim <= |buf|
    && o % 4 == 0
    && (ns != [] ==> (o - 4) % size == 0 && size <= ma)
    && At(buf, o, 4) == |ns|
    && forall i :: 0 <= i < |ns| ==> ScalarIs(buf, o - 4, size, i, ns[i])
  }

  /** Element i of the scalars starting at distance e. */
  ghost predicate ScalarIs(buf: seq<Byte>, e: nat, size: nat, i: nat, n: nat) {
    i * size + size <= e <= |buf| && At(buf, e - i * size, size) == n
  }

  ghost predicate LaidOffsets(buf: seq<Byte>, lim: nat, o: nat, n: nat) {
    && 4 + n * 4 <= o <= lim <= |buf|
    && o % 4 == 0
    && At(buf, o, 4) == n
    && forall i :: 0 <= i < n ==> LaidOffset(buf, lim, o - 4 - 4 * i)
  }

  /** The one-byte type stored beside a union. */
  ghost function UnionType(buf: seq<Byte>, o: nat, typeField: nat): (w: Option<nat>)
    requires 4 <= o <= |buf| && VtableOf(buf, o) >= 0 && VtableOk(buf, VtableOf(buf, o)) && typeField % 2 == 0
  {
    var e := EntryAt(buf, VtableOf(buf, o), typeField);
    if e == 0 then Some(0)
    else if e < o then Some(At(buf, o - e, 1))
    else None
  }

  /** The value v is laid out at distance o as an object of type ty, inside the last `lim` bytes,
      every scalar aligned counted from the end, no scalar larger than `ma`. */
  ghost predicate Laid(buf: seq<Byte>, lim: nat, ma: nat, sch: Schema, ty: FieldType, o: nat, v: Value)
    requires SchemaOk(sch)
    decreases v, 2
  {
    match ty
    case TString => v.VString? && LaidString(buf, lim, o, v.str)
    case TScalarVector(size) => v.VScalars? && LaidScalars(buf, lim, ma, o, size, v.ns)
    case TStringVector =>
      && v.VList? && LaidOffsets(buf, lim, o, |v.items|)
      && forall i :: 0 <= i < |v.items| ==>
           v.items[i].VString? && LaidString(buf, lim, Target(buf, o - 4 - 4 * i), v.items[i].str)
    case TTable(j) => j < |sch| && LaidTable(buf, lim, ma, sch, j, o, v)
    case TTableVector(j) =>
      && j < |sch| && v.VList? && LaidOffsets(buf, lim, o, |v.items|)
      && forall i :: 0 <= i < |v.items| ==>
           LaidTable(buf, lim, ma, sch, j, Target(buf, o - 4 - 4 * i), v.items[i])
    case _ => false
  }

  ghost predicate LaidTable(buf: seq<Byte>, lim: nat, ma: nat, sch: Schema, ti: nat, o: nat, v: Value)
    requires SchemaOk(sch) && ti < |sch|
    decreases v, 1
  {
    && v.VTable? && |v.fields| == |sch[ti]|
    && 4 <= o <= lim <= |buf| && o % 4 == 0
    && 0 <= VtableOf(buf, o) <= lim && VtableOk(buf, VtableOf(buf, o))
    && forall k :: 0 <= k < |v.fields| ==> LaidField(buf, lim, ma, sch, ti, o, k, v.fields[k])
  }

  ghost predicate LaidField(buf: seq<Byte>, lim: nat, ma: nat, sch: Schema, ti: nat, o: nat, k: nat, v: Value)
    requires SchemaOk(sch) && ti < |sch| && k < |sch[ti]|
    requires 4 <= o <= lim <= |buf| && VtableOf(buf, o) >= 0 && VtableOk(buf, VtableOf(buf, o))
    decreases v, 3
  {
    var e := EntryAt(buf, VtableOf(buf, o), sch[ti][k].id);
    assert TypeOk(sch, ti, k);
    match sch[ti][k].ty
    case TScalar(size, def) =>
      if e == 0 then v == VScalar(def)
      else e + size <= o && (o - e) % size == 0 && size <= ma && v == VScalar(At(buf, o - e, size))
    case TUnion(typeField, members) =>
      var w := UnionType(buf, o, typeField);
      && w.Some?
      && if e == 0 then v == VNull
         else
           && e <= o && LaidOffset(buf, lim, o - e)
           && if w.value in members then LaidTable(buf, lim, ma, sch, members[w.value], Target(buf, o - e), v)
              else v == VNull
    case ty =>
      if e == 0 then v == VNull
      else e <= o && LaidOffset(buf, lim, o - e) && Laid(buf, lim, ma, sch, ty, Target(buf, o - e), v)
  }

  // ---- a layout survives whatever is written in front ------------------------------------------

  lemma OffsetStable(newer: seq<Byte>, older: seq<Byte>, lim: nat, lim': nat, f: nat)
    requires Extends(newer, older) && lim <= lim' <= |newer| && LaidOffset(older, lim, f)
    ensures LaidOffset(newer, lim', f) && Target(newer, f) == Target(older, f)
  {
    AtStable(newer, older, f, 4);
  }

  lemma StringStable(newer: seq<Byte>, older: seq<Byte>, lim: nat, lim': nat, o: nat, str: seq<Byte>)
    requires Extends(newer, older) && lim <= lim' <= |newer| && LaidString(older, lim, o, str)
    ensures LaidString(newer, lim', o, str)
  {
    AtStable(newer, older, o, 4);
    ExtendsTail(newer, older, o);
  }

  lemma ScalarStable(newer: seq<Byte>, older: seq<Byte>, e: nat, size: nat, i: nat, n: nat)
    requires Extends(newer, older) && ScalarIs(older, e, size, i, n)
    ensures ScalarIs(newer, e, size, i, n)
  {
    var d := i * size;
    AtStable(newer, older, e - d, size);
  }

  lemma ScalarsStable(newer: seq<Byte>, older: seq<Byte>, lim: nat, lim': nat, ma: nat, ma': nat, o: nat, size: nat, ns: seq<nat>)
    requires Extends(newer, older) && lim <= lim' <= |newer| && ma <= ma' && LaidScalars(older, lim, ma, o, size, ns)
    ensures LaidScalars(newer, lim', ma', o, size, ns)
  {
    hide ScalarIs, At, Tail;
    AtStable(newer, older, o, 4);
    forall i | 0 <= i < |ns|
      ensures ScalarIs(newer, o - 4, size, i, ns[i])
    {
      ScalarStable(newer, older, o - 4, size, i, ns[i]);
    }
  }

  lemma OffsetsStable(newer: seq<Byte>, older: seq<Byte>, lim: nat, lim': nat, o: nat, n: nat)
    requires Extends(newer, older) && lim <= lim' <= |newer| && LaidOffsets(older, lim, o, n)
    ensures LaidOffsets(newer, lim', o, n)
    ensures forall i :: 0 <= i < n ==> Target(newer, o - 4 - 4 * i) == Target(older, o - 4 - 4 * i)
  {
    AtStable(newer, older, o, 4);
    forall i | 0 <= i < n
      ensures LaidOffset(newer, lim', o - 4 - 4 * i) && Target(newer, o - 4 - 4 * i) == Target(older, o - 4 - 4 * i)
    {
      OffsetStable(newer, older, lim, lim', o - 4 - 4 * i);
    }
  }

  lemma UnionTypeStable(newer: seq<Byte>, older: seq<Byte>, o: nat, typeField: nat)
    requires Extends(newer, older) && 4 <= o <= |older| && typeField % 2 == 0
    requires VtableOf(older, o) >= 0 && VtableOk(older, VtableOf(older, o))
    ensures VtableOf(newer, o) == VtableOf(older, o) && VtableOk(newer, VtableOf(newer, o))
    ensures UnionType(newer, o, typeField) == UnionType(older, o, typeField)
  {
    AtStable(newer, older, o, 4);
    var vt := VtableOf(older, o);
    EntryStable(newer, older, vt, typeField);
    var e := EntryAt(older, vt, typeField);
    if 0 < e < o {
      AtStable(newer, older, o - e, 1);
    }
  }

  lemma {:induction false} LaidStable(newer: seq<Byte>, older: seq<Byte>, lim: nat, lim': nat, ma: nat, ma': nat,
                                      sch: Schema, ty: FieldType, o: nat, v: Value)
    requires SchemaOk(sch) && Extends(newer, older) && lim <= lim' <= |newer| && ma <= ma'
    requires Laid(older, lim, ma, sch, ty, o, v)
    ensures Laid(newer, lim', ma', sch, ty, o, v)
    decreases v, 1
  {
    match ty
    case TString => StringStable(newer, older, lim, lim', o, v.str);
    case TScalarVector(size) => ScalarsStable(newer, older, lim, lim', ma, ma', o, size, v.ns);
    case TStringVector =>
      OffsetsStable(newer, older, lim, lim', o, |v.items|);
      forall i | 0 <= i < |v.items|
        ensures v.items[i].VString? && LaidString(newer, lim', Target(newer, o - 4 - 4 * i), v.items[i].str)
      {
        StringStable(newer, older, lim, lim', Target(older, o - 4 - 4 * i), v.items[i].str);
      }
    case TTable(j) => LaidTableStable(newer, older, lim, lim', ma, ma', sch, j, o, v);
    case TTableVector(j) =>
      OffsetsStable(newer, older, lim, lim', o, |v.items|);
      forall i | 0 <= i < |v.items|
        ensures LaidTable(newer, lim', ma', sch, j, Target(newer, o - 4 - 4 * i), v.items[i])
      {
        LaidTableStable(newer, older, lim, lim', ma, ma', sch, j, Target(older, o - 4 - 4 * i), v.items[i]);
      }
    case _ =>
  }

  lemma {:induction false} LaidTableStable(newer: seq<Byte>, older: seq<Byte>, lim: nat, lim': nat, ma: nat, ma': nat,
                                           sch: Schema, ti: nat, o: nat, v: Value)
    requires SchemaOk(sch) && ti < |sch| && Extends(newer, older) && lim <= lim' <= |newer| && ma <= ma'
    requires LaidTable(older, lim, ma, sch, ti, o, v)
    ensures LaidTable(newer, lim', ma', sch, ti, o, v)
    decreases v, 0
  {
    UnionTypeStable(newer, older, o, 0);
    forall k | 0 <= k < |v.fields|
      ensures LaidField(newer, lim', ma', sch, ti, o, k, v.fields[k])
    {
      LaidFieldStable(newer, older, lim, lim', ma, ma', sch, ti, o, k, v.fields[k]);
    }
  }

  lemma {:induction false} LaidFieldStable(newer: seq<Byte>, older: seq<Byte>, lim: nat, lim': nat, ma: nat, ma': nat,
                                           sch: Schema, ti: nat, o: nat, k: nat, v: Value)
    requires SchemaOk(sch) && ti < |sch| && k < |sch[ti]| && Extends(newer, older) && lim <= lim' <= |newer| && ma <= ma'
    requires 4 <= o <= lim <= |older| && VtableOf(older, o) >= 0 && VtableOk(older, VtableOf(older, o))
    requires 4 <= o <= lim' <= |newer| && VtableOf(newer, o) >= 0 && VtableOk(newer, VtableOf(newer, o))
    requires LaidField(older, lim, ma, sch, ti, o, k, v)
    ensures LaidField(newer, lim', ma', sch, ti, o, k, v)
    decreases v, 3
  {
    hide Extends, At, Tail, VtableOk, EntryAt, UnionType, LaidOffset, Laid, LaidTable, LaidField, Target, VtableOf;
    assert TypeOk(sch, ti, k) && IsFieldId(sch[ti][k].id);
    AtStable(newer, older, o, 4);
    EntryStable(newer, older, VtableOf(older, o), sch[ti][k].id);
    match sch[ti][k].ty
    case TScalar(_, _) => ScalarFieldStable(newer, older, lim, lim', ma, ma', sch, ti, o, k, v);
    case TUnion(_, _) => UnionFieldStable(newer, older, lim, lim', ma, ma', sch, ti, o, k, v);
    case _ => ObjectFieldStable(newer, older, lim, lim', ma, ma', sch, ti, o, k, v);
  }

  lemma ScalarFieldStable(newer: seq<Byte>, older: seq<Byte>, lim: nat, lim': nat, ma: nat, ma': nat,
                          sch: Schema, ti: nat, o: nat, k: nat, v: Value)
    requires SchemaOk(sch) && ti < |sch| && k < |sch[ti]| && Extends(newer, older) && lim <= lim' <= |newer| && ma <= ma'
    requires 4 <= o <= lim <= |older| && VtableOf(older, o) >= 0 && VtableOk(older, VtableOf(older, o))
    requires 4 <= o <= lim' <= |newer| && VtableOf(newer, o) >= 0 && VtableOk(newer, VtableOf(newer, o))
    requires sch[ti][k].ty.TScalar? && LaidField(older, lim, ma, sch, ti, o, k, v)
    ensures LaidField(newer, lim', ma', sch, ti, o, k, v)
  {
    UnionTypeStable(newer, older, o, 0);
    EntryStable(newer, older, VtableOf(older, o), sch[ti][k].id);
    var e := EntryAt(older, VtableOf(older, o), sch[ti][k].id);
    hide Extends, At, Tail, VtableOk, EntryAt, VtableOf;
    if e != 0 { AtStable(newer, older, o - e, sch[ti][k].ty.size); }
  }

  lemma {:induction false} UnionFieldStable(newer: seq<Byte>, older: seq<Byte>, lim: nat, lim': nat, ma: nat, ma': nat,
                                            sch: Schema, ti: nat, o: nat, k: nat, v: Value)
    requires SchemaOk(sch) && ti < |sch| && k < |sch[ti]| && Extends(newer, older) && lim <= lim' <= |newer| && ma <= ma'
    requires 4 <= o <= lim <= |older| && VtableOf(older, o) >= 0 && VtableOk(older, VtableOf(older, o))
    requires 4 <= o <= lim' <= |newer| && VtableOf(newer, o) >= 0 && VtableOk(newer, VtableOf(newer, o))
    requires sch[ti][k].ty.TUnion? && LaidField(older, lim, ma, sch, ti, o, k, v)
    ensures LaidField(newer, lim', ma', sch, ti, o, k, v)
    decreases v, 2
  {
    hide SchemaOk, TypeOk, Extends, At, Tail, VtableOk, EntryAt, VtableOf, LaidOffset, LaidTable, Target, UnionType;
    UnionIsOk(sch, ti, k);
    var TUnion(typeField, members) := sch[ti][k].ty;
    UnionTypeStable(newer, older, o, typeField);
    EntryStable(newer, older, VtableOf(older, o), sch[ti][k].id);
    var e := EntryAt(older, VtableOf(older, o), sch[ti][k].id);
    if e != 0 {
      OffsetStable(newer, older, lim, lim', o - e);
      var w := UnionType(older, o, typeField).value;
      if w in members {
        LaidTableStable(newer, older, lim, lim', ma, ma', sch, members[w], Target(older, o - e), v);
      }
    }
  }

  lemma {:induction false} ObjectFieldStable(newer: seq<Byte>, older: seq<Byte>, lim: nat, lim': nat, ma: nat, ma': nat,
                                             sch: Schema, ti: nat, o: nat, k: nat, v: Value)
    requires SchemaOk(sch) && ti < |sch| && k < |sch[ti]| && Extends(newer, older) && lim <= lim' <= |newer| && ma <= ma'
    requires 4 <= o <= lim <= |older| && VtableOf(older, o) >= 0 && VtableOk(older, VtableOf(older, o))
    requires 4 <= o <= lim' <= |newer| && VtableOf(newer, o) >= 0 && VtableOk(newer, VtableOf(newer, o))
    requires !sch[ti][k].ty.TScalar? && !sch[ti][k].ty.TUnion? && LaidField(older, lim, ma, sch, ti, o, k, v)
    ensures LaidField(newer, lim', ma', sch, ti, o, k, v)
    decreases v, 2
  {
    hide SchemaOk, TypeOk, Extends, At, Tail, VtableOk, EntryAt, VtableOf, LaidOffset, Laid, Target;
    FieldIsOk(sch, ti, k);
    UnionTypeStable(newer, older, o, 0);
    EntryStable(newer, older, VtableOf(older, o), sch[ti][k].id);
    var e := EntryAt(older, VtableOf(older, o), sch[ti][k].id);
    if e != 0 {
      OffsetStable(newer, older, lim, lim', o - e);
      LaidStable(newer, older, lim, lim', ma, ma', sch, sch[ti][k].ty, Target(older, o - e), v);
    }
  }
}
