/** What alignment checking guarantees, and what it does not: in an accepted buffer everything the
    accessors load is aligned, except elements of more than four bytes in vectors. */
module VerifierAlignment {
  import opened Bytes
  import opened Wrappers
  import opened Table
  import opened Schema
  import opened VerifierSpec
  import opened VerifierSoundness

  /** The field is absent or lies at a multiple of its size. */
  predicate FieldAligned(buf: seq<Byte>, t: nat, id: nat, size: nat)
    requires size > 0
  {
    match GetOptionalFieldOffset(buf, t, id)
    case Some(offset) => offset == 0 || (t + offset) % size == 0
    case None => true
  }

  /** Everything loaded on the way through a table and what it refers to. */
  ghost predicate AlignedTable(buf: seq<Byte>, sch: Schema, ti: nat, t: nat)
    requires SchemaOk(sch) && ti < |sch|
    decreases |buf| - t, 3
  {
    && t < |buf| && t % 4 == 0
    && GetVTable(buf, t).Some? && GetVTable(buf, t).value % 2 == 0
    && forall k :: 0 <= k < |sch[ti]| ==> AlignedField(buf, sch, ti, t, k)
  }

  ghost predicate AlignedField(buf: seq<Byte>, sch: Schema, ti: nat, t: nat, k: nat)
    requires SchemaOk(sch) && ti < |sch| && t < |buf| && k < |sch[ti]|
    decreases |buf| - t, 1
  {
    var id := sch[ti][k].id;
    assert TypeOk(sch, ti, k);
    match sch[ti][k].ty
    case TScalar(size, def) => FieldAligned(buf, t, id, size)
    case TUnion(typeField, members) =>
      FieldAligned(buf, t, id, 4) &&
      (match (GetField(buf, t, typeField, 1, 0), GetPointer(buf, t, id))
       case (Some(which), Some(To(p))) => which in members ==> AlignedTable(buf, sch, members[which], p)
       case _ => true)
    case ty =>
      FieldAligned(buf, t, id, 4) &&
      (match GetPointer(buf, t, id)
       case Some(To(p)) => AlignedObject(buf, sch, ty, p)
       case _ => true)
  }

  ghost predicate AlignedObject(buf: seq<Byte>, sch: Schema, ty: FieldType, p: nat)
    requires SchemaOk(sch)
    requires match ty { case TTable(j) => j < |sch| case TTableVector(j) => j < |sch| case _ => true }
    decreases |buf| - p, 4
  {
    match ty
    case TString => p % 4 == 0
    case TScalarVector(size) => p % 4 == 0 && (size == 1 || size == 2 || size == 4 ==> ElementsAligned(p, size))
    case TStringVector => p % 4 == 0 && p < |buf| && (VectorSize(buf, p).Some? ==> AlignedStrings(buf, p, VectorSize(buf, p).value))
    case TTable(j) => AlignedTable(buf, sch, j, p)
    case TTableVector(j) =>
      p % 4 == 0 && p < |buf| && (VectorSize(buf, p).Some? ==> AlignedTables(buf, sch, j, p, VectorSize(buf, p).value))
    case _ => true
  }

  predicate ElementsAligned(v: nat, size: nat)
    requires size > 0
  {
    (v + 4) % size == 0
  }

  ghost predicate AlignedStrings(buf: seq<Byte>, v: nat, n: nat) {
    forall i :: 0 <= i < n && GetIndirect(buf, v, i).Some? ==> GetIndirect(buf, v, i).value % 4 == 0
  }

  ghost predicate AlignedTables(buf: seq<Byte>, sch: Schema, ti: nat, v: nat, n: nat)
    requires SchemaOk(sch) && ti < |sch| && v < |buf|
    decreases |buf| - v, 3
  {
    forall i :: 0 <= i < n && GetIndirect(buf, v, i).Some? ==> AlignedTable(buf, sch, ti, GetIndirect(buf, v, i).value)
  }

  // ---- proof -----------------------------------------------------------------------------------

  lemma {:induction false} StringsChecked(buf: seq<Byte>, opts: Options, v: nat, i: nat, n: nat, j: nat)
    requires opts.checkAlignment && i <= j < n && v + 4 + 4 * n <= |buf| && VerifyStrings(buf, opts, v, i, n)
    ensures GetIndirect(buf, v, j).Some? && GetIndirect(buf, v, j).value % 4 == 0
    decreases j - i
  {
    if i < j { StringsChecked(buf, opts, v, i + 1, n, j); }
  }

  lemma StartChecked(buf: seq<Byte>, opts: Options, t: nat, c: Counters)
    requires opts.checkAlignment && SizeOk(buf, opts) && VerifyTableStart(buf, opts, t, c).0
    ensures t < |buf| && t % 4 == 0 && GetVTable(buf, t).Some? && GetVTable(buf, t).value % 2 == 0
  {
    hide FromLE, Pow256;
    Widths();
    Unwrapped(t, Signed32(Word(buf, t, 4)), |buf|);
  }

  lemma {:induction false} TableAligned(buf: seq<Byte>, sch: Schema, opts: Options, ti: nat, t: nat, c: Counters)
    requires SchemaOk(sch) && ti < |sch| && SizeOk(buf, opts) && opts.checkAlignment
    requires VerifyTable(buf, sch, opts, ti, t, c).0
    ensures AlignedTable(buf, sch, ti, t)
    decreases |buf| - t, 3
  {
    hide VerifyFields, AlignedField, VerifyTableStart;
    StartChecked(buf, opts, t, c);
    var c1 := VerifyTableStart(buf, opts, t, c).1;
    StartEstablishes(buf, opts, t, c);
    NoPrior(buf, sch, opts, ti, t);
    forall k | 0 <= k < |sch[ti]| ensures AlignedField(buf, sch, ti, t, k) {
      FieldsAligned(buf, sch, opts, ti, t, 0, k, c1);
    }
  }

  lemma StartEstablishes(buf: seq<Byte>, opts: Options, t: nat, c: Counters)
    requires VerifyTableStart(buf, opts, t, c).0
    ensures TableStartOk(buf, t)
  {
  }

  lemma NoPrior(buf: seq<Byte>, sch: Schema, opts: Options, ti: nat, t: nat)
    requires SchemaOk(sch) && ti < |sch| && SizeOk(buf, opts) && TableStartOk(buf, t)
    ensures PriorFieldOk(buf, sch, opts, ti, t, 0)
  {
  }

  lemma {:induction false} FieldsAligned(buf: seq<Byte>, sch: Schema, opts: Options, ti: nat, t: nat, k: nat, j: nat, c: Counters)
    requires SchemaOk(sch) && ti < |sch| && SizeOk(buf, opts) && opts.checkAlignment && TableStartOk(buf, t)
    requires k <= j < |sch[ti]| && PriorFieldOk(buf, sch, opts, ti, t, k)
    requires VerifyFields(buf, sch, opts, ti, t, k, c).0
    ensures t < |buf| && AlignedField(buf, sch, ti, t, j)
    decreases |buf| - t, 2, j - k
  {
    hide AlignedField;
    if k == j {
      FieldIsAligned(buf, sch, opts, ti, t, k, c);
    } else {
      FieldsAligned(buf, sch, opts, ti, t, k + 1, j, VerifyOneField(buf, sch, opts, ti, t, k, c).1);
    }
  }

  lemma ScalarChecked(buf: seq<Byte>, opts: Options, t: nat, id: nat, size: nat)
    requires |buf| < U64 / 2 && TableStartOk(buf, t) && IsFieldId(id) && size > 0 && opts.checkAlignment
    ensures VerifyField(buf, opts, t, id, size) ==> FieldAligned(buf, t, id, size)
    ensures VerifyOffsetField(buf, opts, t, id) ==> FieldAligned(buf, t, id, 4)
  {
    hide FromLE;
  }

  lemma {:induction false} FieldIsAligned(buf: seq<Byte>, sch: Schema, opts: Options, ti: nat, t: nat, k: nat, c: Counters)
    requires SchemaOk(sch) && ti < |sch| && SizeOk(buf, opts) && opts.checkAlignment && TableStartOk(buf, t) && k < |sch[ti]|
    requires PriorFieldOk(buf, sch, opts, ti, t, k)
    requires VerifyOneField(buf, sch, opts, ti, t, k, c).0
    ensures t < |buf| && AlignedField(buf, sch, ti, t, k)
    decreases |buf| - t, 1
  {
    hide VerifyTable, VerifyObject, AlignedTable, AlignedObject, VerifyField, VerifyOffsetField, FieldAligned;
    var id := sch[ti][k].id;
    assert TypeOk(sch, ti, k) && IsFieldId(id);
    match sch[ti][k].ty
    case TScalar(size, def) => ScalarChecked(buf, opts, t, id, size);
    case TUnion(typeField, members) =>
      ScalarChecked(buf, opts, t, id, 4);
      var p := GetPointer(buf, t, id);
      var which := GetField(buf, t, typeField, 1, 0);
      if p.Some? && p.value.To? && which.Some? && which.value in members {
        TableAligned(buf, sch, opts, members[which.value], p.value.pos, c);
      }
    case _ =>
      ScalarChecked(buf, opts, t, id, 4);
      var p := GetPointer(buf, t, id);
      if p.Some? && p.value.To? {
        ObjectAligned(buf, sch, opts, sch[ti][k].ty, p.value.pos, c);
      }
  }

  lemma {:induction false} ObjectAligned(buf: seq<Byte>, sch: Schema, opts: Options, ty: FieldType, p: nat, c: Counters)
    requires SchemaOk(sch) && SizeOk(buf, opts) && opts.checkAlignment
    requires match ty {
               case TTable(j) => j < |sch|
               case TTableVector(j) => j < |sch|
               case TScalarVector(size) => size > 0
               case _ => true }
    requires VerifyObject(buf, sch, opts, ty, p, c).0
    ensures AlignedObject(buf, sch, ty, p)
    decreases |buf| - p, 4
  {
    hide VerifyTable, AlignedTable, VerifyTables, VerifyStrings, VerifyVectorOrString, ElementsAligned, GetIndirect, Word;
    match ty
    case TString => LengthChecked(buf, opts, p, 1);
    case TScalarVector(size) => LengthChecked(buf, opts, p, size);
    case TStringVector =>
      LengthChecked(buf, opts, p, 4);
      VectorInside(buf, opts, p, 4);
      var n := Word(buf, p, 4);
      forall i | 0 <= i < n && GetIndirect(buf, p, i).Some? ensures GetIndirect(buf, p, i).value % 4 == 0 {
        StringsChecked(buf, opts, p, 0, n, i);
      }
    case TTable(j) => TableAligned(buf, sch, opts, j, p, c);
    case TTableVector(j) =>
      LengthChecked(buf, opts, p, 4);
      VectorInside(buf, opts, p, 4);
      var n := Word(buf, p, 4);
      forall i | 0 <= i < n && GetIndirect(buf, p, i).Some? ensures AlignedTable(buf, sch, j, GetIndirect(buf, p, i).value) {
        TablesAligned(buf, sch, opts, j, p, 0, n, i, c);
      }
    case _ =>
  }

  lemma LengthChecked(buf: seq<Byte>, opts: Options, v: nat, elemSize: nat)
    requires elemSize > 0 && opts.checkAlignment && VerifyVectorOrString(buf, opts, v, elemSize)
    ensures v % 4 == 0 && v < |buf| && (elemSize == 1 || elemSize == 2 || elemSize == 4 ==> ElementsAligned(v, elemSize))
  {
    hide FromLE, Word, ElementsAligned;
    AfterLength(v, elemSize);
  }

  lemma AfterLength(v: nat, size: nat)
    requires size > 0
    ensures v % 4 == 0 && (size == 1 || size == 2 || size == 4) ==> ElementsAligned(v, size)
  {
    if size == 1 { assert (v + 4) % 1 == 0; }
    else if size == 2 { assert v % 4 == 0 ==> v == 4 * (v / 4) && (v + 4) % 2 == 0; }
  }

  lemma {:induction false} TablesAligned(buf: seq<Byte>, sch: Schema, opts: Options, ti: nat, v: nat, i: nat, n: nat, j: nat, c: Counters)
    requires SchemaOk(sch) && ti < |sch| && SizeOk(buf, opts) && opts.checkAlignment && i <= j < n && v + 4 + 4 * n <= |buf|
    requires VerifyTables(buf, sch, opts, ti, v, i, n, c).0
    ensures GetIndirect(buf, v, j).Some? && AlignedTable(buf, sch, ti, GetIndirect(buf, v, j).value)
    decreases |buf| - v, 3, j - i
  {
    hide AlignedTable;
    var p := GetIndirect(buf, v, i).value;
    if i == j {
      TableAligned(buf, sch, opts, ti, p, c);
    } else {
      TablesAligned(buf, sch, opts, ti, v, i + 1, n, j, VerifyTable(buf, sch, opts, ti, p, c).1);
    }
  }

  /** With alignment checking on, everything loaded from an accepted buffer is aligned: the root offset,
      vtables, fields, offsets, lengths, and the elements of vectors up to four bytes wide. */
  lemma AcceptedIsAligned(buf: seq<Byte>, sch: Schema, opts: Options, ti: nat, identifier: Option<seq<Byte>>, start: nat)
    requires SchemaOk(sch) && ti < |sch| && SizeOk(buf, opts) && start <= 4 && opts.checkAlignment
    requires identifier.Some? ==> |identifier.value| == 4
    requires VerifyFromStart(buf, sch, opts, ti, identifier, start)
    ensures start % 4 == 0 && AlignedTable(buf, sch, ti, start + Word(buf, start, 4))
  {
    TableAligned(buf, sch, opts, ti, start + Word(buf, start, 4), Counters(0, 0));
  }

  /** An identifier without zero bytes is compared whole. */
  lemma {:induction false} IdentifierIsWhole(a: seq<Byte>, b: seq<Byte>)
    requires |a| == |b| && SameIdentifier(a, b) && forall i :: 0 <= i < |b| ==> b[i] != 0
    ensures a == b
  {
    if a != [] {
      IdentifierIsWhole(a[1..], b[1..]);
      assert a == [a[0]] + a[1..] && b == [b[0]] + b[1..];
    }
  }

  /** What is accepted under an identifier carries it behind the root offset. */
  lemma AcceptedIsIdentified(buf: seq<Byte>, sch: Schema, opts: Options, ti: nat, identifier: seq<Byte>, start: nat)
    requires SchemaOk(sch) && ti < |sch| && SizeOk(buf, opts) && start <= 4
    requires |identifier| == 4 && forall i :: 0 <= i < 4 ==> identifier[i] != 0
    requires VerifyFromStart(buf, sch, opts, ti, Some(identifier), start)
    ensures start + 8 <= |buf| && buf[start + 4..start + 8] == identifier
  {
    hide VerifyTable, SameIdentifier;
    IdentifierIsWhole(buf[start + 4..start + 8], identifier);
  }

  // ---- what it does not guarantee --------------------------------------------------------------

  /** Offset 12 to the table at 12, whose vtable lies at 4 and whose field at 16 refers to a vector of one
      eight-byte element: its length lies at 24, so the element lies at 28. */
  function Wide(): seq<Byte> {
    seq(36, i => WideByte(i))
  }

  function WideByte(i: int): Byte {
    if i == 0 then 12
    else if i == 4 then 6
    else if i == 6 || i == 12 || i == 16 then 8
    else if i == 8 then 4
    else if i == 24 then 1
    else 0
  }

  lemma Word4(buf: seq<Byte>, pos: nat, low: nat)
    requires pos + 4 <= |buf| && buf[pos] == low && buf[pos + 1] == buf[pos + 2] == buf[pos + 3] == 0
    ensures Word(buf, pos, 4) == low
  {
    var s := buf[pos..pos + 4];
    assert FromLE(s[1..][1..][1..]) == 0 && FromLE(s[1..][1..]) == 0 && FromLE(s[1..]) == 0;
  }

  lemma Word2(buf: seq<Byte>, pos: nat, low: nat)
    requires pos + 2 <= |buf| && buf[pos] == low && buf[pos + 1] == 0
    ensures Word(buf, pos, 2) == low
  {
    var s := buf[pos..pos + 2];
    assert FromLE(s[1..]) == 0;
  }

  lemma WideWords()
    ensures var b := Wide();
            && |b| == 36 && Word(b, 0, 4) == 12 && Word(b, 12, 4) == 8 && Word(b, 16, 4) == 8 && Word(b, 24, 4) == 1
            && Word(b, 4, 2) == 6 && Word(b, 8, 2) == 4
  {
    hide Word, FromLE, Pow256;
    var b := Wide();
    Word4(b, 0, 12);
    Word4(b, 12, 8);
    Word4(b, 16, 8);
    Word4(b, 24, 1);
    Word2(b, 4, 6);
    Word2(b, 8, 4);
  }

  /** Only the length of a vector is checked: a vector of eight-byte scalars whose elements are not
      aligned is accepted with alignment checking on. */
  lemma WideElementsUnchecked()
    ensures var sch: Schema := [[FieldDef(4, TScalarVector(8))]];
            var opts := Options(64, 1_000_000, true, 0x7FFF_FFFF);
            && SchemaOk(sch) && SizeOk(Wide(), opts) && VerifyBuffer(Wide(), sch, opts, 0, None)
            && GetPointer(Wide(), 12, 4) == Some(To(24)) && !ElementsAligned(24, 8)
  {
    hide Word, Wide;
    WideWords();
    var sch: Schema := [[FieldDef(4, TScalarVector(8))]];
    var opts := Options(64, 1_000_000, true, 0x7FFF_FFFF);
    var b := Wide();
    assert VerifyTableStart(b, opts, 12, Counters(0, 0)) == (true, Counters(1, 1));
    assert GetOptionalFieldOffset(b, 12, 4) == Some(4);
    assert VerifyOffset(b, opts, 16) && GetPointer(b, 12, 4) == Some(To(24));
    assert VerifyVectorOrString(b, opts, 24, 8);
    assert VerifyOneField(b, sch, opts, 0, 12, 0, Counters(1, 1)) == (true, Counters(1, 1));
    assert VerifyFields(b, sch, opts, 0, 12, 1, Counters(1, 1)) == (true, Counters(1, 1));
    assert VerifyFields(b, sch, opts, 0, 12, 0, Counters(1, 1)) == (true, Counters(1, 1));
  }
}
