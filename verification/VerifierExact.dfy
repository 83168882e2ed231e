/** What the verifier accepts, said of the bytes and the accessors alone: an independent predicate, with
    the limits stated of the value that is read, and acceptance is exactly this. */
module VerifierExact {
  import opened Bytes
  import opened Wrappers
  import opened Table
  import opened Schema
  import opened VerifierSpec
  import opened VerifierSoundness
  import opened LayoutVerifies

  /** A range inside a buffer that is longer than the range. */
  predicate Inside(buf: seq<Byte>, pos: int, len: nat) {
    0 <= pos && pos + len <= |buf| && len < |buf|
  }

  predicate Aligned(opts: Options, pos: int, size: nat)
    requires size > 0
  {
    opts.checkAlignment ==> pos % size == 0
  }

  /** A stored offset leads forward, by less than 2^31, to a byte of the buffer. */
  predicate GoodOffset(buf: seq<Byte>, opts: Options, pos: nat) {
    && Inside(buf, pos, 4) && Aligned(opts, pos, 4)
    && 1 <= Word(buf, pos, 4) <= 0x7FFF_FFFF && pos + Word(buf, pos, 4) < |buf|
  }

  predicate GoodStart(buf: seq<Byte>, opts: Options, t: nat) {
    && Inside(buf, t, 4) && Aligned(opts, t, 4)
    && match GetVTable(buf, t)
       case None => false
       case Some(vt) =>
         && Inside(buf, vt, 2) && Aligned(opts, vt, 2)
         && Word(buf, vt, 2) % 2 == 0 && Inside(buf, vt, Word(buf, vt, 2))
  }

  predicate GoodScalar(buf: seq<Byte>, opts: Options, t: nat, id: nat, size: nat)
    requires size > 0
  {
    match GetOptionalFieldOffset(buf, t, id)
    case None => false
    case Some(e) => e == 0 || (Inside(buf, t + e, size) && Aligned(opts, t + e, size))
  }

  predicate GoodRef(buf: seq<Byte>, opts: Options, t: nat, id: nat) {
    match GetOptionalFieldOffset(buf, t, id)
    case None => false
    case Some(e) => e == 0 || GoodOffset(buf, opts, t + e)
  }

  predicate GoodVector(buf: seq<Byte>, opts: Options, v: nat, size: nat)
    requires size > 0
  {
    && Inside(buf, v, 4) && Aligned(opts, v, 4)
    && Word(buf, v, 4) < opts.maxSize / size && Inside(buf, v, 4 + size * Word(buf, v, 4))
  }

  predicate GoodString(buf: seq<Byte>, opts: Options, s: nat) {
    GoodVector(buf, opts, s, 1) && GetString(buf, s).Some?
  }

  ghost predicate GoodStrings(buf: seq<Byte>, opts: Options, v: nat, i: nat, n: nat) {
    forall j :: i <= j < n ==> GetIndirect(buf, v, j).Some? && GoodString(buf, opts, GetIndirect(buf, v, j).value)
  }

  ghost predicate GoodTable(buf: seq<Byte>, sch: Schema, opts: Options, ti: nat, t: nat)
    requires SchemaOk(sch) && ti < |sch|
    decreases |buf| - t, 3
  {
    GoodStart(buf, opts, t) && GoodFields(buf, sch, opts, ti, t, 0)
  }

  ghost predicate GoodFields(buf: seq<Byte>, sch: Schema, opts: Options, ti: nat, t: nat, k: nat)
    requires SchemaOk(sch) && ti < |sch| && t < |buf|
    decreases |buf| - t, 2
  {
    forall j :: k <= j < |sch[ti]| ==> GoodField(buf, sch, opts, ti, t, j)
  }

  ghost predicate GoodField(buf: seq<Byte>, sch: Schema, opts: Options, ti: nat, t: nat, k: nat)
    requires SchemaOk(sch) && ti < |sch| && t < |buf| && k < |sch[ti]|
    decreases |buf| - t, 1
  {
    var id := sch[ti][k].id;
    assert TypeOk(sch, ti, k);
    match sch[ti][k].ty
    case TScalar(size, def) => GoodScalar(buf, opts, t, id, size)
    case TUnion(typeField, members) =>
      GoodRef(buf, opts, t, id) &&
      (match (GetField(buf, t, typeField, 1, 0), GetPointer(buf, t, id))
       case (Some(which), Some(To(p))) => which in members ==> GoodTable(buf, sch, opts, members[which], p)
       case _ => true)
    case ty =>
      GoodRef(buf, opts, t, id) &&
      (match GetPointer(buf, t, id)
       case Some(To(p)) => GoodObject(buf, sch, opts, ty, p)
       case _ => true)
  }

  /** Element offsets of vectors lead to good objects; of their own value nothing is asked. */
  ghost predicate GoodObject(buf: seq<Byte>, sch: Schema, opts: Options, ty: FieldType, p: nat)
    requires SchemaOk(sch)
    requires match ty {
               case TTable(j) => j < |sch|
               case TTableVector(j) => j < |sch|
               case TScalarVector(size) => size > 0
               case _ => true }
    decreases |buf| - p, 4
  {
    match ty
    case TString => GoodString(buf, opts, p)
    case TScalarVector(size) => GoodVector(buf, opts, p, size)
    case TStringVector => GoodVector(buf, opts, p, 4) && GoodStrings(buf, opts, p, 0, Word(buf, p, 4))
    case TTable(j) => GoodTable(buf, sch, opts, j, p)
    case TTableVector(j) => GoodVector(buf, opts, p, 4) && GoodTables(buf, sch, opts, j, p, 0, Word(buf, p, 4))
    case _ => true
  }

  ghost predicate GoodTables(buf: seq<Byte>, sch: Schema, opts: Options, ti: nat, v: nat, i: nat, n: nat)
    requires SchemaOk(sch) && ti < |sch| && v < |buf|
    decreases |buf| - v, 3
  {
    forall j :: i <= j < n ==>
      GetIndirect(buf, v, j).Some? && GoodTable(buf, sch, opts, ti, GetIndirect(buf, v, j).value)
  }

  // ---- the limits ------------------------------------------------------------------------------

  /** Counting up to n is within the limit; a limit of 2^32 - 1 is none, as the counters wrap around. */
  predicate Room(limit: nat, n: nat) {
    n <= limit || limit == U32 - 1
  }

  predicate RoomFor(c: Counters, opts: Options, depth: nat, tables: nat) {
    Room(opts.maxDepth, c.depth + depth) && Room(opts.maxTables, c.tables + tables)
  }

  predicate Within(c: Counters, opts: Options) {
    c.depth <= opts.maxDepth < U32 && c.tables <= opts.maxTables < U32
  }

  /** The outcome of checking something good of that depth and number of tables. */
  ghost predicate Decided(c: Counters, r: (bool, Counters), opts: Options, depth: nat, tables: nat) {
    && (r.0 <==> RoomFor(c, opts, depth, tables))
    && (r.0 ==> r.1 == Counters(c.depth, (c.tables + tables) % U32))
  }

  /** One after the other. */
  lemma DecidedInTurn(c: Counters, r: (bool, Counters), s: (bool, Counters), opts: Options, d1: nat, t1: nat, d2: nat, t2: nat)
    requires Within(c, opts) && Decided(c, r, opts, d1, t1)
    requires r.0 ==> Within(r.1, opts) && Decided(r.1, s, opts, d2, t2)
    ensures Decided(c, if r.0 then s else (false, r.1), opts, Max(d1, d2), t1 + t2)
  {
    if r.0 {
      if opts.maxTables == U32 - 1 { ModAdd(c.tables + t1, t2); } else { assert (c.tables + t1) % U32 == c.tables + t1; }
    }
  }

  lemma ModAdd(a: nat, b: nat)
    ensures (a % U32 + b) % U32 == (a + b) % U32
  {
    var q := a / U32;
    assert a % U32 + b == a + b - q * U32;
    RemoveMultiple(a + b, q);
  }

  lemma RemoveMultiple(n: int, q: nat)
    ensures (n - q * U32) % U32 == n % U32
    decreases q
  {
    if q > 0 { RemoveMultiple(n - U32, q - 1); assert n - U32 - (q - 1) * U32 == n - q * U32; }
  }

  lemma StillWithin(c: Counters, r: (bool, Counters), opts: Options, d: nat, t: nat)
    requires Within(c, opts) && Decided(c, r, opts, d, t) && r.0
    ensures Within(r.1, opts)
  {
  }

  // ---- the measures ----------------------------------------------------------------------------

  lemma {:induction false} StringsAreFlat(buf: seq<Byte>, v: nat, i: nat, n: nat)
    requires i <= n && DecodeStrings(buf, v, i, n).Some?
    ensures DepthFrom(DecodeStrings(buf, v, i, n).value, 0) == 0 && TablesFrom(DecodeStrings(buf, v, i, n).value, 0) == 0
    decreases n - i
  {
    if i < n {
      var rest := DecodeStrings(buf, v, i + 1, n).value;
      StringsAreFlat(buf, v, i + 1, n);
      OneInFront(DecodeStrings(buf, v, i, n).value[0], rest);
    }
  }

  /** The measures of a sequence with one more value in front. */
  lemma OneInFront(v: Value, rest: seq<Value>)
    ensures DepthFrom([v] + rest, 0) == Max(Depth(v), DepthFrom(rest, 0))
    ensures TablesFrom([v] + rest, 0) == Tables(v) + TablesFrom(rest, 0)
  {
    Shift(v, rest, 0);
  }

  lemma {:induction false} Shift(v: Value, rest: seq<Value>, k: nat)
    requires k <= |rest|
    ensures DepthFrom([v] + rest, k + 1) == DepthFrom(rest, k) && TablesFrom([v] + rest, k + 1) == TablesFrom(rest, k)
    decreases |rest| - k
  {
    hide Depth, Tables;
    if k < |rest| { Shift(v, rest, k + 1); }
  }

  // ---- the single checks -----------------------------------------------------------------------

  lemma StartExact(buf: seq<Byte>, opts: Options, t: nat, c: Counters)
    requires SizeOk(buf, opts) && Within(c, opts)
    ensures VerifyTableStart(buf, opts, t, c).0 <==> GoodStart(buf, opts, t) && RoomFor(c, opts, 1, 1)
    ensures GoodStart(buf, opts, t) ==> TableStartOk(buf, t)
    ensures VerifyTableStart(buf, opts, t, c).0 ==> TableStartOk(buf, t) && VerifyTableStart(buf, opts, t, c).1 == VerifyComplexity(c)
  {
    hide FromLE, Pow256;
    Widths();
    if t + 4 <= |buf| {
      var delta := Signed32(Word(buf, t, 4));
      if t - delta < 0 { Negative(t - delta); } else { Small(t - delta); }
    }
  }

  lemma Negative(n: int)
    requires -U32 <= n < 0
    ensures n % U64 == n + U64
  {
  }

  lemma Small(n: nat)
    requires n < U64
    ensures n % U64 == n
  {
  }

  lemma FieldsExact(buf: seq<Byte>, opts: Options, t: nat, id: nat, size: nat)
    requires SizeOk(buf, opts) && TableStartOk(buf, t) && IsFieldId(id) && size > 0
    ensures VerifyField(buf, opts, t, id, size) <==> GoodScalar(buf, opts, t, id, size)
    ensures VerifyOffsetField(buf, opts, t, id) <==> GoodRef(buf, opts, t, id)
    ensures VerifyOffsetField(buf, opts, t, id) ==> GetPointer(buf, t, id).Some?
  {
    hide FromLE, GetOptionalFieldOffset, Word;
    TableStartReadable(buf, t, id);
  }

  lemma VectorExact(buf: seq<Byte>, opts: Options, v: nat, size: nat)
    requires SizeOk(buf, opts) && size > 0
    ensures VerifyVectorOrString(buf, opts, v, size) <==> GoodVector(buf, opts, v, size)
  {
    hide FromLE, Word;
    if v + 4 <= |buf| && Word(buf, v, 4) < opts.maxSize / size {
      ProductBound(Word(buf, v, 4), opts.maxSize, size);
      Small(4 + size * Word(buf, v, 4));
    }
  }

  lemma StringExact(buf: seq<Byte>, opts: Options, s: nat)
    requires SizeOk(buf, opts)
    ensures VerifyString(buf, opts, s) <==> GoodString(buf, opts, s)
  {
    hide FromLE, VerifyVectorOrString;
    VectorExact(buf, opts, s, 1);
  }

  lemma {:induction false} StringsExact(buf: seq<Byte>, opts: Options, v: nat, i: nat, n: nat)
    requires SizeOk(buf, opts) && i <= n && v + 4 + 4 * n <= |buf|
    ensures VerifyStrings(buf, opts, v, i, n) <==> GoodStrings(buf, opts, v, i, n)
    ensures GoodStrings(buf, opts, v, i, n) ==> DecodeStrings(buf, v, i, n).Some?
    decreases n - i
  {
    hide VerifyString, GoodString, Word;
    if i < n {
      StringExact(buf, opts, GetIndirect(buf, v, i).value);
      GoodIsString(buf, opts, GetIndirect(buf, v, i).value);
      StringsExact(buf, opts, v, i + 1, n);
    }
  }

  lemma GoodIsString(buf: seq<Byte>, opts: Options, s: nat)
    ensures GoodString(buf, opts, s) ==> GetString(buf, s).Some?
  {
  }

  // ---- what is accepted is good ----------------------------------------------------------------

  lemma {:induction false} TableSound(buf: seq<Byte>, sch: Schema, opts: Options, ti: nat, t: nat, c: Counters)
    requires SchemaOk(sch) && ti < |sch| && SizeOk(buf, opts) && Within(c, opts)
    requires VerifyTable(buf, sch, opts, ti, t, c).0
    ensures GoodTable(buf, sch, opts, ti, t)
    decreases |buf| - t, 3
  {
    hide VerifyFields, VerifyTableStart, GoodStart, GoodFields, TableStartOk, PriorFieldOk;
    StartExact(buf, opts, t, c);
    NoPrior(buf, sch, opts, ti, t);
    TableStartBound(buf, t);
    FieldsSound(buf, sch, opts, ti, t, 0, VerifyComplexity(c));
  }

  lemma TableStartBound(buf: seq<Byte>, t: nat)
    requires TableStartOk(buf, t)
    ensures t < |buf|
  {
  }

  lemma NoPrior(buf: seq<Byte>, sch: Schema, opts: Options, ti: nat, t: nat)
    requires SchemaOk(sch) && ti < |sch| && SizeOk(buf, opts) && TableStartOk(buf, t)
    ensures PriorFieldOk(buf, sch, opts, ti, t, 0)
  {
  }

  lemma {:induction false} FieldsSound(buf: seq<Byte>, sch: Schema, opts: Options, ti: nat, t: nat, k: nat, c: Counters)
    requires SchemaOk(sch) && ti < |sch| && SizeOk(buf, opts) && TableStartOk(buf, t) && k <= |sch[ti]| && Within(c, opts)
    requires PriorFieldOk(buf, sch, opts, ti, t, k)
    requires VerifyFields(buf, sch, opts, ti, t, k, c).0
    ensures t < |buf| && GoodFields(buf, sch, opts, ti, t, k)
    decreases |buf| - t, 2, |sch[ti]| - k
  {
    hide GoodField, VerifyOneField, TableStartOk, PriorFieldOk, SchemaOk;
    TableStartBound(buf, t);
    if k < |sch[ti]| {
      var r := VerifyOneField(buf, sch, opts, ti, t, k, c);
      FieldSound(buf, sch, opts, ti, t, k, c);
      FieldComplete(buf, sch, opts, ti, t, k, c);
      PriorIsOk(buf, sch, opts, ti, t, k);
      FieldsSound(buf, sch, opts, ti, t, k + 1, r.1);
    }
  }

  lemma {:induction false} FieldSound(buf: seq<Byte>, sch: Schema, opts: Options, ti: nat, t: nat, k: nat, c: Counters)
    requires SchemaOk(sch) && ti < |sch| && SizeOk(buf, opts) && TableStartOk(buf, t) && k < |sch[ti]| && Within(c, opts)
    requires PriorFieldOk(buf, sch, opts, ti, t, k)
    requires VerifyOneField(buf, sch, opts, ti, t, k, c).0
    ensures t < |buf| && GoodField(buf, sch, opts, ti, t, k)
    decreases |buf| - t, 1
  {
    hide VerifyTable, VerifyObject, GoodTable, GoodObject, GoodScalar, GoodRef;
    TableStartBound(buf, t);
    var id := sch[ti][k].id;
    FieldIsOk(sch, ti, k);
    FieldsExact(buf, opts, t, id, if sch[ti][k].ty.TScalar? then sch[ti][k].ty.size else 4);
    match sch[ti][k].ty
    case TScalar(size, def) =>
    case TUnion(typeField, members) =>
      var p := GetPointer(buf, t, id).value;
      var which := GetField(buf, t, typeField, 1, 0).value;
      if which in members && p.To? { TableSound(buf, sch, opts, members[which], p.pos, c); }
    case _ =>
      var p := GetPointer(buf, t, id).value;
      if p.To? { ObjectSound(buf, sch, opts, sch[ti][k].ty, p.pos, c); }
  }

  lemma {:induction false} ObjectSound(buf: seq<Byte>, sch: Schema, opts: Options, ty: FieldType, p: nat, c: Counters)
    requires SchemaOk(sch) && SizeOk(buf, opts) && Within(c, opts)
    requires match ty {
               case TTable(j) => j < |sch|
               case TTableVector(j) => j < |sch|
               case TScalarVector(size) => size > 0
               case _ => true }
    requires VerifyObject(buf, sch, opts, ty, p, c).0
    ensures GoodObject(buf, sch, opts, ty, p)
    decreases |buf| - p, 4
  {
    hide VerifyTable, VerifyTables, VerifyStrings, VerifyString, VerifyVectorOrString, GoodTable, GoodTables, GoodStrings, GoodString, Word;
    match ty
    case TString => StringExact(buf, opts, p);
    case TScalarVector(size) => VectorExact(buf, opts, p, size);
    case TStringVector =>
      VectorExact(buf, opts, p, 4);
      VectorInside(buf, opts, p, 4);
      StringsExact(buf, opts, p, 0, Word(buf, p, 4));
    case TTable(j) => TableSound(buf, sch, opts, j, p, c);
    case TTableVector(j) =>
      VectorExact(buf, opts, p, 4);
      VectorInside(buf, opts, p, 4);
      TablesSound(buf, sch, opts, j, p, 0, Word(buf, p, 4), c);
    case _ =>
  }

  lemma {:induction false} TablesSound(buf: seq<Byte>, sch: Schema, opts: Options, ti: nat, v: nat, i: nat, n: nat, c: Counters)
    requires SchemaOk(sch) && ti < |sch| && SizeOk(buf, opts) && i <= n && v + 4 + 4 * n <= |buf| && Within(c, opts)
    requires VerifyTables(buf, sch, opts, ti, v, i, n, c).0
    ensures GoodTables(buf, sch, opts, ti, v, i, n)
    decreases |buf| - v, 3, n - i
  {
    hide VerifyTable, GoodTable;
    if i < n {
      var p := GetIndirect(buf, v, i).value;
      TableSound(buf, sch, opts, ti, p, c);
      TableComplete(buf, sch, opts, ti, p, c);
      TablesSound(buf, sch, opts, ti, v, i + 1, n, VerifyTable(buf, sch, opts, ti, p, c).1);
    }
  }

  // ---- what is good is accepted if there is room -----------------------------------------------

  lemma {:induction false} TableComplete(buf: seq<Byte>, sch: Schema, opts: Options, ti: nat, t: nat, c: Counters)
    requires SchemaOk(sch) && ti < |sch| && SizeOk(buf, opts) && Within(c, opts)
    requires GoodTable(buf, sch, opts, ti, t)
    ensures DecodeTable(buf, sch, ti, t).Some?
    ensures var v := DecodeTable(buf, sch, ti, t).value;
            Decided(c, VerifyTable(buf, sch, opts, ti, t, c), opts, Depth(v), Tables(v))
    decreases |buf| - t, 3
  {
    hide VerifyFields, VerifyTableStart, GoodStart, GoodFields, TableStartOk, PriorFieldOk, DecodeFields, DepthFrom, TablesFrom;
    StartExact(buf, opts, t, c);
    NoPrior(buf, sch, opts, ti, t);
    TableStartBound(buf, t);
    var c1 := VerifyComplexity(c);
    if RoomFor(c, opts, 1, 1) {
      FieldsComplete(buf, sch, opts, ti, t, 0, c1);
      var fields := DecodeFields(buf, sch, ti, t, 0).value;
      OneMore(c, VerifyFields(buf, sch, opts, ti, t, 0, c1), opts, DepthFrom(fields, 0), TablesFrom(fields, 0));
    } else {
      FieldsComplete(buf, sch, opts, ti, t, 0, c);
    }
  }

  /** The table itself, counted before its fields and left after them. */
  lemma OneMore(c: Counters, r: (bool, Counters), opts: Options, d: nat, t: nat)
    requires Within(c, opts) && RoomFor(c, opts, 1, 1) && Decided(VerifyComplexity(c), r, opts, d, t)
    ensures r.0 <==> RoomFor(c, opts, 1 + d, 1 + t)
    ensures r.0 ==> (r.1.depth - 1) % U32 == c.depth && r.1.tables == (c.tables + (1 + t)) % U32
  {
    if opts.maxTables == U32 - 1 { ModAdd(c.tables + 1, t); }
  }

  lemma {:induction false} FieldsComplete(buf: seq<Byte>, sch: Schema, opts: Options, ti: nat, t: nat, k: nat, c: Counters)
    requires SchemaOk(sch) && ti < |sch| && SizeOk(buf, opts) && TableStartOk(buf, t) && k <= |sch[ti]| && Within(c, opts)
    requires t < |buf| && PriorFieldOk(buf, sch, opts, ti, t, k)
    requires GoodFields(buf, sch, opts, ti, t, k)
    ensures DecodeFields(buf, sch, ti, t, k).Some?
    ensures var vs := DecodeFields(buf, sch, ti, t, k).value;
            Decided(c, VerifyFields(buf, sch, opts, ti, t, k, c), opts, DepthFrom(vs, 0), TablesFrom(vs, 0))
    decreases |buf| - t, 2, |sch[ti]| - k
  {
    hide DecodeField, Depth, Tables, GoodField, TableStartOk, VerifyOneField, PriorFieldOk, GoodFields, SchemaOk;
    if k == |sch[ti]| {
      NoneLeft(c, opts);
    } else {
      GoodRest(buf, sch, opts, ti, t, k);
      var r := VerifyOneField(buf, sch, opts, ti, t, k, c);
      FieldComplete(buf, sch, opts, ti, t, k, c);
      PriorIsOk(buf, sch, opts, ti, t, k);
      FieldsComplete(buf, sch, opts, ti, t, k + 1, if r.0 then r.1 else c);
      var v, rest := DecodeField(buf, sch, ti, t, k).value, DecodeFields(buf, sch, ti, t, k + 1).value;
      OneInFront(v, rest);
      DecidedInTurn(c, r, VerifyFields(buf, sch, opts, ti, t, k + 1, if r.0 then r.1 else c), opts,
                    Depth(v), Tables(v), DepthFrom(rest, 0), TablesFrom(rest, 0));
    }
  }

  lemma NoneLeft(c: Counters, opts: Options)
    requires Within(c, opts)
    ensures Decided(c, (true, c), opts, 0, 0)
  {
  }

  lemma GoodRest(buf: seq<Byte>, sch: Schema, opts: Options, ti: nat, t: nat, k: nat)
    requires SchemaOk(sch) && ti < |sch| && t < |buf| && k < |sch[ti]|
    ensures GoodFields(buf, sch, opts, ti, t, k) <==> GoodField(buf, sch, opts, ti, t, k) && GoodFields(buf, sch, opts, ti, t, k + 1)
  {
    hide GoodField;
  }

  lemma PriorIsOk(buf: seq<Byte>, sch: Schema, opts: Options, ti: nat, t: nat, k: nat)
    requires SchemaOk(sch) && ti < |sch| && SizeOk(buf, opts) && TableStartOk(buf, t) && t < |buf| && k < |sch[ti]|
    requires GoodField(buf, sch, opts, ti, t, k)
    ensures PriorFieldOk(buf, sch, opts, ti, t, k + 1)
  {
    hide GoodScalar, GoodRef, GoodTable, GoodObject, VerifyField, TableStartOk;
    FieldIsOk(sch, ti, k);
    if sch[ti][k].ty.TScalar? { FieldsExact(buf, opts, t, sch[ti][k].id, sch[ti][k].ty.size); }
  }

  lemma {:induction false} FieldComplete(buf: seq<Byte>, sch: Schema, opts: Options, ti: nat, t: nat, k: nat, c: Counters)
    requires SchemaOk(sch) && ti < |sch| && SizeOk(buf, opts) && TableStartOk(buf, t) && k < |sch[ti]| && Within(c, opts)
    requires t < |buf| && PriorFieldOk(buf, sch, opts, ti, t, k)
    requires GoodField(buf, sch, opts, ti, t, k)
    ensures DecodeField(buf, sch, ti, t, k).Some?
    ensures var v := DecodeField(buf, sch, ti, t, k).value;
            Decided(c, VerifyOneField(buf, sch, opts, ti, t, k, c), opts, Depth(v), Tables(v))
    decreases |buf| - t, 1
  {
    hide VerifyTable, VerifyObject, GoodTable, GoodObject, GoodRef, DecodeTable, DecodeObject, TableStartOk;
    var id := sch[ti][k].id;
    FieldIsOk(sch, ti, k);
    FieldsExact(buf, opts, t, id, if sch[ti][k].ty.TScalar? then sch[ti][k].ty.size else 4);
    match sch[ti][k].ty
    case TScalar(size, def) => assert Depth(VScalar(0)) == 0;
    case TUnion(typeField, members) =>
      var p := GetPointer(buf, t, id).value;
      var which := GetField(buf, t, typeField, 1, 0).value;
      if which in members && p.To? { TableComplete(buf, sch, opts, members[which], p.pos, c); }
    case _ =>
      var p := GetPointer(buf, t, id).value;
      if p.To? { ObjectComplete(buf, sch, opts, sch[ti][k].ty, p.pos, c); }
  }

  lemma {:induction false} ObjectComplete(buf: seq<Byte>, sch: Schema, opts: Options, ty: FieldType, p: nat, c: Counters)
    requires SchemaOk(sch) && SizeOk(buf, opts) && Within(c, opts)
    requires match ty {
               case TTable(j) => j < |sch|
               case TTableVector(j) => j < |sch|
               case TScalarVector(size) => size > 0
               case _ => true }
    requires GoodObject(buf, sch, opts, ty, p)
    ensures DecodeObject(buf, sch, ty, p).Some?
    ensures var v := DecodeObject(buf, sch, ty, p).value;
            Decided(c, VerifyObject(buf, sch, opts, ty, p, c), opts, Depth(v), Tables(v))
    decreases |buf| - p, 4
  {
    hide VerifyTable, VerifyTables, VerifyStrings, VerifyString, VerifyVectorOrString, GoodTable, GoodTables, GoodStrings,
         DecodeTable, DecodeTables, DecodeStrings, Word;
    match ty
    case TString => StringExact(buf, opts, p);
    case TScalarVector(size) =>
      VectorExact(buf, opts, p, size);
      ScalarsReadable(buf, p, size, 0, Word(buf, p, 4));
    case TStringVector =>
      VectorExact(buf, opts, p, 4);
      VectorInside(buf, opts, p, 4);
      StringsExact(buf, opts, p, 0, Word(buf, p, 4));
      StringsAreFlat(buf, p, 0, Word(buf, p, 4));
    case TTable(j) => TableComplete(buf, sch, opts, j, p, c);
    case TTableVector(j) =>
      VectorExact(buf, opts, p, 4);
      VectorInside(buf, opts, p, 4);
      TablesComplete(buf, sch, opts, j, p, 0, Word(buf, p, 4), c);
    case _ =>
  }

  lemma {:induction false} TablesComplete(buf: seq<Byte>, sch: Schema, opts: Options, ti: nat, v: nat, i: nat, n: nat, c: Counters)
    requires SchemaOk(sch) && ti < |sch| && SizeOk(buf, opts) && i <= n && v + 4 + 4 * n <= |buf| && Within(c, opts)
    requires GoodTables(buf, sch, opts, ti, v, i, n)
    ensures DecodeTables(buf, sch, ti, v, i, n).Some?
    ensures var vs := DecodeTables(buf, sch, ti, v, i, n).value;
            Decided(c, VerifyTables(buf, sch, opts, ti, v, i, n, c), opts, DepthFrom(vs, 0), TablesFrom(vs, 0))
    decreases |buf| - v, 3, n - i
  {
    hide DecodeTable, VerifyTable, GoodTable, Depth, Tables;
    if i < n {
      var p := GetIndirect(buf, v, i).value;
      var r := VerifyTable(buf, sch, opts, ti, p, c);
      TableComplete(buf, sch, opts, ti, p, c);
      TablesComplete(buf, sch, opts, ti, v, i + 1, n, if r.0 then r.1 else c);
      var item, rest := DecodeTable(buf, sch, ti, p).value, DecodeTables(buf, sch, ti, v, i + 1, n).value;
      OneInFront(item, rest);
      DecidedInTurn(c, r, VerifyTables(buf, sch, opts, ti, v, i + 1, n, if r.0 then r.1 else c), opts,
                    Depth(item), Tables(item), DepthFrom(rest, 0), TablesFrom(rest, 0));
    }
  }

  // ---- whole buffers ---------------------------------------------------------------------------

  /** The identifier's characters up to and with its first zero byte stand behind the root offset. */
  predicate Carries(buf: seq<Byte>, start: nat, identifier: seq<Byte>) {
    && start + 4 + |identifier| <= |buf|
    && forall k :: 0 <= k < |identifier| && (forall j :: 0 <= j < k ==> identifier[j] != 0) ==>
         buf[start + 4 + k] == identifier[k]
  }

  lemma {:induction false} SameExactly(a: seq<Byte>, b: seq<Byte>)
    requires |a| == |b|
    ensures SameIdentifier(a, b) <==>
            forall k :: 0 <= k < |b| && (forall j :: 0 <= j < k ==> b[j] != 0) ==> a[k] == b[k]
  {
    if a != [] {
      var a1, b1 := a[1..], b[1..];
      SameExactly(a1, b1);
      if SameIdentifier(a, b) {
        forall k | 0 <= k < |b| && forall j :: 0 <= j < k ==> b[j] != 0 ensures a[k] == b[k] {
          if k > 0 {
            assert b[0] != 0;
            forall j | 0 <= j < k - 1 ensures b1[j] != 0 { assert b1[j] == b[j + 1]; }
            assert a1[k - 1] == b1[k - 1];
          }
        }
      } else if a[0] == b[0] {
        var k :| 0 <= k < |b1| && (forall j :: 0 <= j < k ==> b1[j] != 0) && a1[k] != b1[k];
        forall j | 0 <= j < k + 1 ensures b[j] != 0 {
          if j > 0 { assert b[j] == b1[j - 1]; }
        }
        assert a[k + 1] != b[k + 1];
      } else {
        assert a[0] != b[0];
      }
    }
  }

  lemma CarriesExactly(buf: seq<Byte>, start: nat, identifier: Option<seq<Byte>>)
    requires start + 8 <= |buf| && (identifier.Some? ==> |identifier.value| == 4)
    ensures IdentifierOk(buf, start, identifier) <==> (identifier.Some? ==> Carries(buf, start, identifier.value))
  {
    hide SameIdentifier;
    if identifier.Some? {
      var a := buf[start + 4..start + 8];
      SameExactly(a, identifier.value);
      assert forall k :: 0 <= k < 4 ==> a[k] == buf[start + 4 + k];
    }
  }

  /** What the verifier is to accept. */
  ghost predicate Acceptable(buf: seq<Byte>, sch: Schema, opts: Options, ti: nat, identifier: Option<seq<Byte>>, start: nat)
    requires SchemaOk(sch) && ti < |sch|
  {
    && 12 <= |buf| && (identifier.Some? ==> Carries(buf, start, identifier.value))
    && GoodOffset(buf, opts, start)
    && GoodTable(buf, sch, opts, ti, start + Word(buf, start, 4))
    && match DecodeRoot(buf, sch, ti, start)
       case None => false
       case Some(v) => Room(opts.maxDepth, Depth(v)) && Room(opts.maxTables, Tables(v))
  }

  /** Whatever the bytes, the schema and the options: acceptance is exactly that. */
  lemma AcceptsExactly(buf: seq<Byte>, sch: Schema, opts: Options, ti: nat, identifier: Option<seq<Byte>>, start: nat)
    requires SchemaOk(sch) && ti < |sch| && SizeOk(buf, opts) && start <= 4
    requires identifier.Some? ==> |identifier.value| == 4
    ensures VerifyFromStart(buf, sch, opts, ti, identifier, start) <==> Acceptable(buf, sch, opts, ti, identifier, start)
  {
    hide VerifyTable, GoodTable, DecodeTable, IdentifierOk, Carries;
    if 12 <= |buf| {
      CarriesExactly(buf, start, identifier);
      if GoodOffset(buf, opts, start) {
        var root, c := start + Word(buf, start, 4), Counters(0, 0);
        if VerifyTable(buf, sch, opts, ti, root, c).0 { TableSound(buf, sch, opts, ti, root, c); }
        if GoodTable(buf, sch, opts, ti, root) { TableComplete(buf, sch, opts, ti, root, c); }
      }
    }
  }

  /** A buffer whose root offset is zero is refused, so a zeroed one is, under any schema and options. */
  lemma ZeroRefused(n: nat, sch: Schema, opts: Options, ti: nat, identifier: Option<seq<Byte>>, start: nat)
    requires SchemaOk(sch) && ti < |sch| && SizeOk(Zeros(n), opts) && start <= 4
    requires identifier.Some? ==> |identifier.value| == 4
    ensures !VerifyFromStart(Zeros(n), sch, opts, ti, identifier, start)
  {
    hide VerifyTable, VerifyOffset, GoodTable, FromLE;
    AcceptsExactly(Zeros(n), sch, opts, ti, identifier, start);
    if start + 4 <= n { ZeroWord(Zeros(n), start); }
  }

  lemma ZeroWord(buf: seq<Byte>, pos: nat)
    requires pos + 4 <= |buf| && forall i :: pos <= i < pos + 4 ==> buf[i] == 0
    ensures Word(buf, pos, 4) == 0
  {
    var s := buf[pos..pos + 4];
    assert FromLE(s[1..][1..][1..]) == 0 && FromLE(s[1..][1..]) == 0 && FromLE(s[1..]) == 0;
  }
}
