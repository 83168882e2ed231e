/** A laid out value is accepted by the verifier, with alignment checking on or off, as long as its
    nesting and its number of tables stay within the options. */
module LayoutVerifies {
  import opened Bytes
  import opened Wrappers
  import opened Table
  import opened Schema
  import opened TableLayout
  import opened Layout
  import opened LayoutReads
  import opened VerifierSpec

  /** Nesting of tables. */
  function Depth(v: Value): nat
    decreases v, 0
  {
    match v
    case VTable(fields) => 1 + DepthFrom(fields, 0)
    case VList(items) => DepthFrom(items, 0)
    case _ => 0
  }

  function DepthFrom(vs: seq<Value>, k: nat): nat
    requires k <= |vs|
    decreases vs, 1, |vs| - k
  {
    if k == |vs| then 0 else Max(Depth(vs[k]), DepthFrom(vs, k + 1))
  }

  /** Number of tables, counted once for each way to reach them. */
  function Tables(v: Value): nat
    decreases v, 0
  {
    match v
    case VTable(fields) => 1 + TablesFrom(fields, 0)
    case VList(items) => TablesFrom(items, 0)
    case _ => 0
  }

  function TablesFrom(vs: seq<Value>, k: nat): nat
    requires k <= |vs|
    decreases vs, 1, |vs| - k
  {
    if k == |vs| then 0 else Tables(vs[k]) + TablesFrom(vs, k + 1)
  }

  /** What a finished buffer offers: its size is a multiple of the largest alignment in it, and the
      root offset lies in front of every object. */
  ghost predicate Frame(buf: seq<Byte>, opts: Options, lim: nat, ma: nat) {
    && SizeOk(buf, opts) && |buf| < U31
    && lim + 4 <= |buf|
    && IsAlignment(ma) && 4 <= ma && |buf| % ma == 0
  }

  /** Aligned counted from the end is aligned counted from the start. */
  lemma AlignedFromStart(buf: seq<Byte>, opts: Options, lim: nat, ma: nat, f: nat, size: nat)
    requires Frame(buf, opts, lim, ma) && f <= lim && IsScalarSize(size) && size <= ma && f % size == 0
    ensures (|buf| - f) % size == 0
  {
    MultiplesCompose(|buf|, size, ma);
    DifferenceOfMultiples(|buf|, f, size);
  }

  /** A scalar at distance f passes the check. */
  lemma ScalarVerifies(buf: seq<Byte>, opts: Options, lim: nat, ma: nat, f: nat, size: nat)
    requires Frame(buf, opts, lim, ma) && size <= f <= lim && IsScalarSize(size) && size <= ma && f % size == 0
    ensures ScalarOk(buf, opts, |buf| - f, size)
  {
    AlignedFromStart(buf, opts, lim, ma, f, size);
  }

  lemma OffsetVerifies(buf: seq<Byte>, opts: Options, lim: nat, ma: nat, f: nat)
    requires Frame(buf, opts, lim, ma) && LaidOffset(buf, lim, f)
    ensures VerifyOffset(buf, opts, |buf| - f)
  {
    ScalarVerifies(buf, opts, lim, ma, f, 4);
  }

  lemma VectorVerifies(buf: seq<Byte>, opts: Options, lim: nat, ma: nat, o: nat, size: nat, n: nat)
    requires Frame(buf, opts, lim, ma) && 4 + n * size <= o <= lim && o + 8 <= |buf|
    requires IsScalarSize(size) && o % 4 == 0 && At(buf, o, 4) == n
    ensures VerifyVectorOrString(buf, opts, |buf| - o, size)
  {
    hide IsAlignment;
    ScalarVerifies(buf, opts, lim, ma, o, 4);
    var product := size * n;
    assert product == n * size;
    LengthBound(n, opts.maxSize, size);
  }

  lemma LengthBound(n: nat, limit: nat, size: nat)
    requires IsScalarSize(size) && n * size + 12 < limit
    ensures n < limit / size
  {
  }

  lemma StringVerifies(buf: seq<Byte>, opts: Options, lim: nat, ma: nat, o: nat, str: seq<Byte>)
    requires Frame(buf, opts, lim, ma) && LaidString(buf, lim, o, str) && o + 8 <= |buf|
    ensures VerifyString(buf, opts, |buf| - o)
  {
    VectorVerifies(buf, opts, lim, ma, o, 1, |str|);
    assert buf[|buf| - o + 4 + |str|] == Tail(buf, o)[4 + |str|];
  }

  lemma {:induction false} StringsVerify(buf: seq<Byte>, opts: Options, lim: nat, ma: nat, o: nat, items: seq<Value>, i: nat)
    requires Frame(buf, opts, lim, ma) && LaidOffsets(buf, lim, o, |items|) && i <= |items|
    requires |buf| - o + 4 + 4 * |items| <= |buf|
    requires forall k :: 0 <= k < |items| ==>
               items[k].VString? && LaidString(buf, lim, Target(buf, o - 4 - 4 * k), items[k].str)
    ensures VerifyStrings(buf, opts, |buf| - o, i, |items|)
    decreases |items| - i
  {
    hide LaidString, GetIndirect, VerifyString, At;
    if i < |items| {
      OffsetReads(buf, lim, o, i);
      TargetIsFar(buf, lim, o, i);
      StringVerifies(buf, opts, lim, ma, Target(buf, o - 4 - 4 * i), items[i].str);
      StringsVerify(buf, opts, lim, ma, o, items, i + 1);
    }
  }

  lemma TargetIsFar(buf: seq<Byte>, lim: nat, o: nat, i: nat)
    requires 8 + 4 * i <= o <= lim && lim + 4 <= |buf| && LaidOffset(buf, lim, o - 4 - 4 * i)
    ensures Target(buf, o - 4 - 4 * i) + 8 <= |buf|
  {
  }

  /** The checks at a table's start pass and count one table and one level. */
  lemma TableStartVerifies(buf: seq<Byte>, opts: Options, lim: nat, ma: nat, o: nat, c: Counters)
    requires Frame(buf, opts, lim, ma)
    requires 4 <= o <= lim && o % 4 == 0 && 0 <= VtableOf(buf, o) <= lim && VtableOk(buf, VtableOf(buf, o))
    requires c.depth + 1 <= opts.maxDepth && c.tables + 1 <= opts.maxTables
    ensures VerifyTableStart(buf, opts, |buf| - o, c) == (true, Counters(c.depth + 1, c.tables + 1))
    ensures TableStartOk(buf, |buf| - o)
  {
    var v := VtableOf(buf, o);
    ScalarVerifies(buf, opts, lim, ma, o, 4);
    ScalarVerifies(buf, opts, lim, ma, v, 2);
    assert VtablePosition(buf, |buf| - o) == |buf| - v;
  }

  lemma {:induction false} TableVerifies(buf: seq<Byte>, sch: Schema, opts: Options, lim: nat, ma: nat,
                                         ti: nat, o: nat, v: Value, c: Counters)
    requires SchemaOk(sch) && ti < |sch| && Frame(buf, opts, lim, ma) && LaidTable(buf, lim, ma, sch, ti, o, v)
    requires c.depth + Depth(v) <= opts.maxDepth && c.tables + Tables(v) <= opts.maxTables
    ensures VerifyTable(buf, sch, opts, ti, |buf| - o, c) == (true, Counters(c.depth, c.tables + Tables(v)))
    decreases v, 0, |v.fields| + 1
  {
    hide LaidField, TableStartOk, VtableOk, VtableOf, VerifyTableStart, VerifyFields, SchemaOk;
    TableStartVerifies(buf, opts, lim, ma, o, c);
    FieldsVerify(buf, sch, opts, lim, ma, ti, o, v, 0, Counters(c.depth + 1, c.tables + 1));
  }

  lemma {:induction false} FieldsVerify(buf: seq<Byte>, sch: Schema, opts: Options, lim: nat, ma: nat,
                                        ti: nat, o: nat, v: Value, k: nat, c: Counters)
    requires SchemaOk(sch) && ti < |sch| && Frame(buf, opts, lim, ma) && LaidTable(buf, lim, ma, sch, ti, o, v)
    requires k <= |sch[ti]| && TableStartOk(buf, |buf| - o) && PriorFieldOk(buf, sch, opts, ti, |buf| - o, k)
    requires c.depth + DepthFrom(v.fields, k) <= opts.maxDepth && c.tables + TablesFrom(v.fields, k) <= opts.maxTables
    ensures VerifyFields(buf, sch, opts, ti, |buf| - o, k, c)
         == (true, Counters(c.depth, c.tables + TablesFrom(v.fields, k)))
    decreases v, 0, |v.fields| - k
  {
    hide LaidField, VerifyOneField, TableStartOk, PriorFieldOk, SizeOk, VtableOk, VtableOf, TypeOk;
    if k < |sch[ti]| {
      var f := v.fields[k];
      FieldVerifies(buf, sch, opts, lim, ma, ti, o, k, f, c);
      PriorHolds(buf, sch, opts, ti, |buf| - o, k, c);
      FieldsVerify(buf, sch, opts, lim, ma, ti, o, v, k + 1, Counters(c.depth, c.tables + Tables(f)));
    }
  }

  lemma PriorHolds(buf: seq<Byte>, sch: Schema, opts: Options, ti: nat, t: nat, k: nat, c: Counters)
    requires SchemaOk(sch) && ti < |sch| && SizeOk(buf, opts) && TableStartOk(buf, t) && k < |sch[ti]|
    requires PriorFieldOk(buf, sch, opts, ti, t, k) && VerifyOneField(buf, sch, opts, ti, t, k, c).0
    ensures PriorFieldOk(buf, sch, opts, ti, t, k + 1)
  {
  }

  lemma {:induction false} FieldVerifies(buf: seq<Byte>, sch: Schema, opts: Options, lim: nat, ma: nat,
                                         ti: nat, o: nat, k: nat, v: Value, c: Counters)
    requires SchemaOk(sch) && ti < |sch| && k < |sch[ti]| && Frame(buf, opts, lim, ma)
    requires 4 <= o <= lim && VtableOf(buf, o) >= 0 && VtableOk(buf, VtableOf(buf, o))
    requires TableStartOk(buf, |buf| - o) && PriorFieldOk(buf, sch, opts, ti, |buf| - o, k)
    requires LaidField(buf, lim, ma, sch, ti, o, k, v)
    requires c.depth + Depth(v) <= opts.maxDepth && c.tables + Tables(v) <= opts.maxTables
    ensures VerifyOneField(buf, sch, opts, ti, |buf| - o, k, c) == (true, Counters(c.depth, c.tables + Tables(v)))
    decreases v, 3
  {
    hide LaidField, VerifyOneField, TableStartOk, PriorFieldOk, VtableOf, VtableOk;
    match sch[ti][k].ty
    case TScalar(_, _) => ScalarFieldVerifies(buf, sch, opts, lim, ma, ti, o, k, v, c);
    case TUnion(_, _) => UnionFieldVerifies(buf, sch, opts, lim, ma, ti, o, k, v, c);
    case _ => ObjectFieldVerifies(buf, sch, opts, lim, ma, ti, o, k, v, c);
  }

  lemma ScalarFieldVerifies(buf: seq<Byte>, sch: Schema, opts: Options, lim: nat, ma: nat,
                            ti: nat, o: nat, k: nat, v: Value, c: Counters)
    requires SchemaOk(sch) && ti < |sch| && k < |sch[ti]| && Frame(buf, opts, lim, ma)
    requires 4 <= o <= lim && VtableOf(buf, o) >= 0 && VtableOk(buf, VtableOf(buf, o))
    requires TableStartOk(buf, |buf| - o) && PriorFieldOk(buf, sch, opts, ti, |buf| - o, k)
    requires sch[ti][k].ty.TScalar? && LaidField(buf, lim, ma, sch, ti, o, k, v)
    ensures VerifyOneField(buf, sch, opts, ti, |buf| - o, k, c) == (true, c) && Tables(v) == 0
  {
    hide SchemaOk, TableStartOk, PriorFieldOk, VtableOf, VtableOk, EntryAt, At, GetOptionalFieldOffset;
    FieldIsOk(sch, ti, k);
    EntryReads(buf, o, sch[ti][k].id);
    var e := EntryAt(buf, VtableOf(buf, o), sch[ti][k].id);
    if e != 0 { ScalarVerifies(buf, opts, lim, ma, o - e, sch[ti][k].ty.size); }
  }

  /** The offset check of an offset field passes. */
  lemma OffsetFieldVerifies(buf: seq<Byte>, opts: Options, lim: nat, ma: nat, o: nat, id: nat)
    requires Frame(buf, opts, lim, ma) && IsFieldId(id) && 4 <= o <= lim && TableStartOk(buf, |buf| - o)
    requires VtableOf(buf, o) >= 0 && VtableOk(buf, VtableOf(buf, o))
    requires var e := EntryAt(buf, VtableOf(buf, o), id); e != 0 ==> e <= o && LaidOffset(buf, lim, o - e)
    ensures VerifyOffsetField(buf, opts, |buf| - o, id)
  {
    hide TableStartOk, VtableOf, VtableOk, EntryAt, At, GetOptionalFieldOffset, VerifyOffset, LaidOffset;
    EntryReads(buf, o, id);
    var e := EntryAt(buf, VtableOf(buf, o), id);
    if e != 0 { OffsetVerifies(buf, opts, lim, ma, o - e); }
  }

  lemma {:induction false} UnionFieldVerifies(buf: seq<Byte>, sch: Schema, opts: Options, lim: nat, ma: nat,
                                              ti: nat, o: nat, k: nat, v: Value, c: Counters)
    requires SchemaOk(sch) && ti < |sch| && k < |sch[ti]| && Frame(buf, opts, lim, ma)
    requires 4 <= o <= lim && VtableOf(buf, o) >= 0 && VtableOk(buf, VtableOf(buf, o))
    requires TableStartOk(buf, |buf| - o) && PriorFieldOk(buf, sch, opts, ti, |buf| - o, k)
    requires sch[ti][k].ty.TUnion? && LaidField(buf, lim, ma, sch, ti, o, k, v)
    requires c.depth + Depth(v) <= opts.maxDepth && c.tables + Tables(v) <= opts.maxTables
    ensures VerifyOneField(buf, sch, opts, ti, |buf| - o, k, c) == (true, Counters(c.depth, c.tables + Tables(v)))
    decreases v, 2
  {
    hide SchemaOk, TypeOk, TableStartOk, PriorFieldOk, VtableOf, VtableOk, EntryAt, GetPointer, UnionType, GetField,
         LaidTable, VerifyTable, VerifyOffsetField, At, SizeOk;
    UnionIsOk(sch, ti, k);
    var TUnion(typeField, members) := sch[ti][k].ty;
    OffsetFieldVerifies(buf, opts, lim, ma, o, sch[ti][k].id);
    PointerReads(buf, lim, o, sch[ti][k].id);
    UnionTypeReads(buf, o, typeField);
    var e := EntryAt(buf, VtableOf(buf, o), sch[ti][k].id);
    if e != 0 {
      var w := UnionType(buf, o, typeField).value;
      if w in members {
        TableVerifies(buf, sch, opts, lim, ma, members[w], Target(buf, o - e), v, c);
      }
    }
  }

  lemma {:induction false} ObjectFieldVerifies(buf: seq<Byte>, sch: Schema, opts: Options, lim: nat, ma: nat,
                                               ti: nat, o: nat, k: nat, v: Value, c: Counters)
    requires SchemaOk(sch) && ti < |sch| && k < |sch[ti]| && Frame(buf, opts, lim, ma)
    requires 4 <= o <= lim && VtableOf(buf, o) >= 0 && VtableOk(buf, VtableOf(buf, o))
    requires TableStartOk(buf, |buf| - o) && PriorFieldOk(buf, sch, opts, ti, |buf| - o, k)
    requires !sch[ti][k].ty.TScalar? && !sch[ti][k].ty.TUnion? && LaidField(buf, lim, ma, sch, ti, o, k, v)
    requires c.depth + Depth(v) <= opts.maxDepth && c.tables + Tables(v) <= opts.maxTables
    ensures VerifyOneField(buf, sch, opts, ti, |buf| - o, k, c) == (true, Counters(c.depth, c.tables + Tables(v)))
    decreases v, 2
  {
    hide SchemaOk, TableStartOk, PriorFieldOk, VtableOf, VtableOk, EntryAt, GetPointer, Laid, VerifyObject,
         VerifyOffsetField, At;
    FieldIsOk(sch, ti, k);
    OffsetFieldVerifies(buf, opts, lim, ma, o, sch[ti][k].id);
    PointerReads(buf, lim, o, sch[ti][k].id);
    var e := EntryAt(buf, VtableOf(buf, o), sch[ti][k].id);
    if e != 0 {
      ObjectVerifies(buf, sch, opts, lim, ma, sch[ti][k].ty, o - e, Target(buf, o - e), v, c);
    }
  }

  lemma LaidIsAligned(buf: seq<Byte>, lim: nat, ma: nat, sch: Schema, ty: FieldType, o: nat, v: Value)
    requires SchemaOk(sch) && Laid(buf, lim, ma, sch, ty, o, v)
    ensures o % 4 == 0 && o <= lim
  {
  }

  lemma {:induction false} ObjectVerifies(buf: seq<Byte>, sch: Schema, opts: Options, lim: nat, ma: nat,
                                          ty: FieldType, f: nat, o: nat, v: Value, c: Counters)
    requires SchemaOk(sch) && Frame(buf, opts, lim, ma) && f <= lim && o < f && f % 4 == 0 && Laid(buf, lim, ma, sch, ty, o, v)
    requires c.depth + Depth(v) <= opts.maxDepth && c.tables + Tables(v) <= opts.maxTables
    ensures VerifyObject(buf, sch, opts, ty, |buf| - o, c) == (true, Counters(c.depth, c.tables + Tables(v)))
    decreases v, 1
  {
    LaidIsAligned(buf, lim, ma, sch, ty, o, v);
    hide LaidString, LaidTable, VerifyStrings, VerifyTables, VerifyTable, VerifyString, VerifyVectorOrString, SchemaOk,
         At, LaidOffset, ScalarIs;
    match ty
    case TString => StringVerifies(buf, opts, lim, ma, o, v.str);
    case TScalarVector(size) => VectorVerifies(buf, opts, lim, ma, o, size, |v.ns|);
    case TStringVector =>
      StringVectorVerifies(buf, sch, opts, lim, ma, o, v, c);
    case TTable(j) => TableVerifies(buf, sch, opts, lim, ma, j, o, v, c);
    case TTableVector(j) =>
      VectorVerifies(buf, opts, lim, ma, o, 4, |v.items|);
      TablesVerify(buf, sch, opts, lim, ma, j, o, v, 0, c);
    case _ =>
  }

  lemma StringVectorVerifies(buf: seq<Byte>, sch: Schema, opts: Options, lim: nat, ma: nat, o: nat, v: Value, c: Counters)
    requires SchemaOk(sch) && Frame(buf, opts, lim, ma) && o + 8 <= |buf| && Laid(buf, lim, ma, sch, TStringVector, o, v)
    ensures VerifyObject(buf, sch, opts, TStringVector, |buf| - o, c) == (true, c) && Tables(v) == 0
  {
    VectorVerifies(buf, opts, lim, ma, o, 4, |v.items|);
    StringsVerify(buf, opts, lim, ma, o, v.items, 0);
    NoTables(v.items, 0);
    hide LaidString, VerifyStrings, VerifyVectorOrString, LaidOffset;
  }

  lemma {:induction false} NoTables(items: seq<Value>, k: nat)
    requires k <= |items| && forall i :: 0 <= i < |items| ==> items[i].VString?
    ensures TablesFrom(items, k) == 0
    decreases |items| - k
  {
    if k < |items| { NoTables(items, k + 1); }
  }

  lemma {:induction false} TablesVerify(buf: seq<Byte>, sch: Schema, opts: Options, lim: nat, ma: nat,
                                        ti: nat, o: nat, v: Value, i: nat, c: Counters)
    requires SchemaOk(sch) && ti < |sch| && Frame(buf, opts, lim, ma)
    requires v.VList? && LaidOffsets(buf, lim, o, |v.items|) && i <= |v.items|
    requires forall k :: 0 <= k < |v.items| ==>
               LaidTable(buf, lim, ma, sch, ti, Target(buf, o - 4 - 4 * k), v.items[k])
    requires c.depth + DepthFrom(v.items, i) <= opts.maxDepth && c.tables + TablesFrom(v.items, i) <= opts.maxTables
    ensures VerifyTables(buf, sch, opts, ti, |buf| - o, i, |v.items|, c)
         == (true, Counters(c.depth, c.tables + TablesFrom(v.items, i)))
    decreases v, 0, |v.items| - i
  {
    hide LaidTable, VerifyTable, GetIndirect, At;
    if i < |v.items| {
      OffsetReads(buf, lim, o, i);
      TableVerifies(buf, sch, opts, lim, ma, ti, Target(buf, o - 4 - 4 * i), v.items[i], c);
      TablesVerify(buf, sch, opts, lim, ma, ti, o, v, i + 1, Counters(c.depth, c.tables + Tables(v.items[i])));
    }
  }
}
