/** What is accepted is readable: if the verifier accepts, no chain of accessors reads a byte outside
    the buffer, whatever the bytes are. */
module VerifierSoundness {
  import opened Bytes
  import opened Wrappers
  import opened Table
  import opened Schema
  import opened VerifierSpec

  lemma StringReadable(buf: seq<Byte>, opts: Options, s: nat)
    requires SizeOk(buf, opts) && VerifyString(buf, opts, s)
    ensures GetString(buf, s).Some?
  {
    VectorInside(buf, opts, s, 1);
  }

  lemma {:induction false} ScalarsReadable(buf: seq<Byte>, v: nat, size: nat, i: nat, n: nat)
    requires i <= n && v + 4 + size * n <= |buf|
    ensures GetScalars(buf, v, size, i, n).Some?
    decreases n - i
  {
    if i < n {
      assert i * size + size <= size * n by { Fits(i, n, size); }
      ScalarsReadable(buf, v, size, i + 1, n);
    }
  }

  lemma Fits(i: nat, n: nat, size: nat)
    requires i < n
    ensures i * size + size <= size * n
  {
    assert (i + 1) * size <= n * size;
  }

  lemma {:induction false} StringsReadable(buf: seq<Byte>, opts: Options, v: nat, i: nat, n: nat)
    requires SizeOk(buf, opts) && i <= n && v + 4 + 4 * n <= |buf|
    requires VerifyStrings(buf, opts, v, i, n)
    ensures DecodeStrings(buf, v, i, n).Some?
    decreases n - i
  {
    if i < n {
      StringReadable(buf, opts, GetIndirect(buf, v, i).value);
      StringsReadable(buf, opts, v, i + 1, n);
    }
  }

  lemma {:induction false} TableReadable(buf: seq<Byte>, sch: Schema, opts: Options, ti: nat, t: nat, c: Counters)
    requires SchemaOk(sch) && ti < |sch| && SizeOk(buf, opts)
    requires VerifyTable(buf, sch, opts, ti, t, c).0
    ensures DecodeTable(buf, sch, ti, t).Some?
    decreases |buf| - t, 3
  {
    var c1 := VerifyTableStart(buf, opts, t, c).1;
    FieldsReadable(buf, sch, opts, ti, t, 0, c1);
  }

  lemma {:induction false} FieldsReadable(buf: seq<Byte>, sch: Schema, opts: Options, ti: nat, t: nat, k: nat, c: Counters)
    requires SchemaOk(sch) && ti < |sch| && SizeOk(buf, opts) && TableStartOk(buf, t) && k <= |sch[ti]|
    requires PriorFieldOk(buf, sch, opts, ti, t, k)
    requires VerifyFields(buf, sch, opts, ti, t, k, c).0
    ensures DecodeFields(buf, sch, ti, t, k).Some?
    decreases |buf| - t, 2, |sch[ti]| - k
  {
    if k < |sch[ti]| {
      FieldReadable(buf, sch, opts, ti, t, k, c);
      FieldsReadable(buf, sch, opts, ti, t, k + 1, VerifyOneField(buf, sch, opts, ti, t, k, c).1);
    }
  }

  lemma {:induction false} FieldReadable(buf: seq<Byte>, sch: Schema, opts: Options, ti: nat, t: nat, k: nat, c: Counters)
    requires SchemaOk(sch) && ti < |sch| && SizeOk(buf, opts) && TableStartOk(buf, t) && k < |sch[ti]|
    requires PriorFieldOk(buf, sch, opts, ti, t, k)
    requires VerifyOneField(buf, sch, opts, ti, t, k, c).0
    ensures DecodeField(buf, sch, ti, t, k).Some?
    decreases |buf| - t, 1
  {
    var id := sch[ti][k].id;
    assert TypeOk(sch, ti, k);
    match sch[ti][k].ty
    case TScalar(size, def) =>
    case TUnion(typeField, members) =>
      var p := GetPointer(buf, t, id).value;
      var which := GetField(buf, t, typeField, 1, 0).value;
      if which in members && p.To? {
        TableReadable(buf, sch, opts, members[which], p.pos, c);
      }
    case _ =>
      var p := GetPointer(buf, t, id).value;
      if p.To? {
        ObjectReadable(buf, sch, opts, sch[ti][k].ty, p.pos, c);
      }
  }

  lemma {:induction false} ObjectReadable(buf: seq<Byte>, sch: Schema, opts: Options, ty: FieldType, p: nat, c: Counters)
    requires SchemaOk(sch) && SizeOk(buf, opts)
    requires match ty {
               case TTable(j) => j < |sch|
               case TTableVector(j) => j < |sch|
               case TScalarVector(size) => size > 0
               case _ => true }
    requires VerifyObject(buf, sch, opts, ty, p, c).0
    ensures DecodeObject(buf, sch, ty, p).Some?
    decreases |buf| - p, 4
  {
    match ty
    case TString => StringReadable(buf, opts, p);
    case TScalarVector(size) =>
      VectorInside(buf, opts, p, size);
      ScalarsReadable(buf, p, size, 0, Word(buf, p, 4));
    case TStringVector =>
      VectorInside(buf, opts, p, 4);
      StringsReadable(buf, opts, p, 0, Word(buf, p, 4));
    case TTable(j) => TableReadable(buf, sch, opts, j, p, c);
    case TTableVector(j) =>
      VectorInside(buf, opts, p, 4);
      TablesReadable(buf, sch, opts, j, p, 0, Word(buf, p, 4), c);
    case _ =>
  }

  lemma {:induction false} TablesReadable(buf: seq<Byte>, sch: Schema, opts: Options, ti: nat, v: nat, i: nat, n: nat, c: Counters)
    requires SchemaOk(sch) && ti < |sch| && SizeOk(buf, opts) && i <= n && v + 4 + 4 * n <= |buf|
    requires VerifyTables(buf, sch, opts, ti, v, i, n, c).0
    ensures DecodeTables(buf, sch, ti, v, i, n).Some?
    decreases |buf| - v, 3, n - i
  {
    if i < n {
      var p := GetIndirect(buf, v, i).value;
      TableReadable(buf, sch, opts, ti, p, c);
      TablesReadable(buf, sch, opts, ti, v, i + 1, n, VerifyTable(buf, sch, opts, ti, p, c).1);
    }
  }

  /** Soundness: a buffer the verifier accepts can be read completely, for every byte content, every
      schema and every setting of the options. */
  lemma VerifiedIsReadable(buf: seq<Byte>, sch: Schema, opts: Options, ti: nat, identifier: Option<seq<Byte>>, start: nat)
    requires SchemaOk(sch) && ti < |sch| && SizeOk(buf, opts) && start <= 4
    requires identifier.Some? ==> |identifier.value| == 4
    requires VerifyFromStart(buf, sch, opts, ti, identifier, start)
    ensures DecodeRoot(buf, sch, ti, start).Some?
  {
    TableReadable(buf, sch, opts, ti, start + Word(buf, start, 4), Counters(0, 0));
  }

  // ---- the counters ----------------------------------------------------------------------------

  /** Every accepted check gives the depth back; and tables are only counted up, within the limit,
      unless the limit is the largest 32-bit number, where the count may wrap. */
  ghost predicate Balanced(before: Counters, after: Counters, opts: Options) {
    && after.depth == before.depth
    && (before.tables <= opts.maxTables < U32 - 1 ==> before.tables <= after.tables <= opts.maxTables)
  }

  lemma {:induction false} TableBalanced(buf: seq<Byte>, sch: Schema, opts: Options, ti: nat, t: nat, c: Counters)
    requires SchemaOk(sch) && ti < |sch| && SizeOk(buf, opts)
    requires c.depth < U32
    requires VerifyTable(buf, sch, opts, ti, t, c).0
    ensures Balanced(c, VerifyTable(buf, sch, opts, ti, t, c).1, opts)
    ensures c.tables <= opts.maxTables < U32 - 1 ==> VerifyTable(buf, sch, opts, ti, t, c).1.tables > c.tables
    decreases |buf| - t, 3
  {
    var c1 := VerifyTableStart(buf, opts, t, c).1;
    FieldsBalanced(buf, sch, opts, ti, t, 0, c1);
  }

  lemma {:induction false} FieldsBalanced(buf: seq<Byte>, sch: Schema, opts: Options, ti: nat, t: nat, k: nat, c: Counters)
    requires SchemaOk(sch) && ti < |sch| && SizeOk(buf, opts) && TableStartOk(buf, t) && k <= |sch[ti]|
    requires PriorFieldOk(buf, sch, opts, ti, t, k)
    requires c.depth < U32
    requires VerifyFields(buf, sch, opts, ti, t, k, c).0
    ensures Balanced(c, VerifyFields(buf, sch, opts, ti, t, k, c).1, opts)
    decreases |buf| - t, 2, |sch[ti]| - k
  {
    if k < |sch[ti]| {
      FieldBalanced(buf, sch, opts, ti, t, k, c);
      FieldsBalanced(buf, sch, opts, ti, t, k + 1, VerifyOneField(buf, sch, opts, ti, t, k, c).1);
    }
  }

  lemma {:induction false} FieldBalanced(buf: seq<Byte>, sch: Schema, opts: Options, ti: nat, t: nat, k: nat, c: Counters)
    requires SchemaOk(sch) && ti < |sch| && SizeOk(buf, opts) && TableStartOk(buf, t) && k < |sch[ti]|
    requires PriorFieldOk(buf, sch, opts, ti, t, k)
    requires c.depth < U32
    requires VerifyOneField(buf, sch, opts, ti, t, k, c).0
    ensures Balanced(c, VerifyOneField(buf, sch, opts, ti, t, k, c).1, opts)
    decreases |buf| - t, 1
  {
    var id := sch[ti][k].id;
    assert TypeOk(sch, ti, k);
    match sch[ti][k].ty
    case TScalar(size, def) =>
    case TUnion(typeField, members) =>
      var p := GetPointer(buf, t, id).value;
      var which := GetField(buf, t, typeField, 1, 0).value;
      if which in members && p.To? {
        TableBalanced(buf, sch, opts, members[which], p.pos, c);
      }
    case _ =>
      var p := GetPointer(buf, t, id).value;
      if p.To? {
        ObjectBalanced(buf, sch, opts, sch[ti][k].ty, p.pos, c);
      }
  }

  lemma {:induction false} ObjectBalanced(buf: seq<Byte>, sch: Schema, opts: Options, ty: FieldType, p: nat, c: Counters)
    requires SchemaOk(sch) && SizeOk(buf, opts)
    requires match ty {
               case TTable(j) => j < |sch|
               case TTableVector(j) => j < |sch|
               case TScalarVector(size) => size > 0
               case _ => true }
    requires c.depth < U32
    requires VerifyObject(buf, sch, opts, ty, p, c).0
    ensures Balanced(c, VerifyObject(buf, sch, opts, ty, p, c).1, opts)
    decreases |buf| - p, 4
  {
    match ty
    case TTable(j) => TableBalanced(buf, sch, opts, j, p, c);
    case TTableVector(j) =>
      VectorInside(buf, opts, p, 4);
      TablesBalanced(buf, sch, opts, j, p, 0, Word(buf, p, 4), c);
    case _ =>
  }

  lemma {:induction false} TablesBalanced(buf: seq<Byte>, sch: Schema, opts: Options, ti: nat, v: nat, i: nat, n: nat, c: Counters)
    requires SchemaOk(sch) && ti < |sch| && SizeOk(buf, opts) && i <= n && v + 4 + 4 * n <= |buf|
    requires c.depth < U32
    requires VerifyTables(buf, sch, opts, ti, v, i, n, c).0
    ensures Balanced(c, VerifyTables(buf, sch, opts, ti, v, i, n, c).1, opts)
    decreases |buf| - v, 3, n - i
  {
    if i < n {
      var p := GetIndirect(buf, v, i).value;
      TableBalanced(buf, sch, opts, ti, p, c);
      TablesBalanced(buf, sch, opts, ti, v, i + 1, n, VerifyTable(buf, sch, opts, ti, p, c).1);
    }
  }
}
