/** The verifier's checks as functions of the bytes, the schema and the two counters, interpreted the
    way the generated Verify methods chain them. */
module VerifierSpec {
  import opened Bytes
  import opened Wrappers
  import opened Table
  import opened Schema

  datatype Options = Options(maxDepth: nat, maxTables: nat, checkAlignment: bool, maxSize: nat)

  /** What the constructor asserts of the size; no allocation exceeds half the address space. */
  predicate SizeOk(buf: seq<Byte>, opts: Options) {
    |buf| < opts.maxSize <= U64 / 2 && opts.maxDepth < U32 && opts.maxTables < U32
  }

  datatype Counters = Counters(depth: nat, tables: nat)

  /** Verify(elem, elem_len): a range lies inside, stated without overflow. */
  predicate Range(buf: seq<Byte>, elem: nat, len: nat) {
    len < |buf| && elem <= |buf| - len
  }

  predicate AlignmentOk(opts: Options, elem: nat, align: nat)
    requires align > 0
  {
    elem % align == 0 || !opts.checkAlignment
  }

  predicate ScalarOk(buf: seq<Byte>, opts: Options, elem: nat, size: nat)
    requires size > 0
  {
    AlignmentOk(opts, elem, size) && Range(buf, elem, size)
  }

  /** The vtable's position as the unsigned subtraction gives it. */
  function VtablePosition(buf: seq<Byte>, t: nat): nat
    requires t + 4 <= |buf|
  {
    (t - Signed32(Word(buf, t, 4))) % U64
  }

  function VerifyComplexity(c: Counters): Counters {
    Counters((c.depth + 1) % U32, (c.tables + 1) % U32)
  }

  function VerifyTableStart(buf: seq<Byte>, opts: Options, t: nat, c: Counters): (bool, Counters) {
    if !ScalarOk(buf, opts, t, 4) then (false, c)
    else
      var vtable := VtablePosition(buf, t);
      var c := VerifyComplexity(c);
      if !(c.depth <= opts.maxDepth && c.tables <= opts.maxTables
           && ScalarOk(buf, opts, vtable, 2) && AlignmentOk(opts, Word(buf, vtable, 2), 2))
      then (false, c)
      else (Word(buf, vtable, 2) % 2 == 0 && Range(buf, vtable, Word(buf, vtable, 2)), c)
  }

  /** What VerifyTableStart establishes of the bytes. */
  predicate TableStartOk(buf: seq<Byte>, t: nat) {
    && t + 4 <= |buf|
    && var vtable := VtablePosition(buf, t);
    && vtable + 2 <= |buf|
    && Word(buf, vtable, 2) % 2 == 0
    && vtable + Word(buf, vtable, 2) <= |buf|
  }

  /** After VerifyTableStart the vtable can be read: the unsigned wrap-around cannot have hidden a
      position outside, and an even size leaves room for a whole entry. */
  lemma TableStartReadable(buf: seq<Byte>, t: nat, field: nat)
    requires |buf| < U64 / 2 && TableStartOk(buf, t) && field % 2 == 0
    ensures GetOptionalFieldOffset(buf, t, field).Some?
  {
    hide FromLE, Pow256;
    Widths();
    Unwrapped(t, Signed32(Word(buf, t, 4)), |buf|);
  }

  lemma Unwrapped(t: nat, delta: int, size: nat)
    requires t <= size < U64 / 2 && -U31 <= delta < U31 && (t - delta) % U64 <= size
    ensures (t - delta) % U64 == t - delta
  {
  }

  function FieldOffset(buf: seq<Byte>, t: nat, field: nat): (r: nat)
    requires |buf| < U64 / 2 && TableStartOk(buf, t) && IsFieldId(field)
    ensures GetOptionalFieldOffset(buf, t, field) == Some(r)
  {
    TableStartReadable(buf, t, field);
    GetOptionalFieldOffset(buf, t, field).value
  }

  predicate VerifyField(buf: seq<Byte>, opts: Options, t: nat, field: nat, size: nat)
    requires |buf| < U64 / 2 && TableStartOk(buf, t) && IsFieldId(field) && size > 0
  {
    var offset := FieldOffset(buf, t, field);
    offset == 0 || ScalarOk(buf, opts, t + offset, size)
  }

  /** An offset is not zero, not negative as a signed number, and points inside. */
  predicate VerifyOffset(buf: seq<Byte>, opts: Options, start: nat) {
    && ScalarOk(buf, opts, start, 4)
    && var o := Word(buf, start, 4);
    && o != 0 && o < U31 && Range(buf, start + o, 1)
  }

  predicate VerifyOffsetField(buf: seq<Byte>, opts: Options, t: nat, field: nat)
    requires |buf| < U64 / 2 && TableStartOk(buf, t) && IsFieldId(field)
  {
    var offset := FieldOffset(buf, t, field);
    offset == 0 || VerifyOffset(buf, opts, t + offset)
  }

  /** A length field and the elements after it; the bound on the length keeps the product in range. */
  predicate VerifyVectorOrString(buf: seq<Byte>, opts: Options, v: nat, elemSize: nat)
    requires elemSize > 0
  {
    && ScalarOk(buf, opts, v, 4)
    && var n := Word(buf, v, 4);
    && n < opts.maxSize / elemSize
    && Range(buf, v, (4 + elemSize * n) % U64)
  }

  predicate VerifyString(buf: seq<Byte>, opts: Options, s: nat) {
    && VerifyVectorOrString(buf, opts, s, 1)
    && var end := s + 4 + Word(buf, s, 4);
    && Range(buf, end, 1) && buf[end] == 0
  }

  predicate VerifyStrings(buf: seq<Byte>, opts: Options, v: nat, i: nat, n: nat)
    requires i <= n && v + 4 + 4 * n <= |buf|
    decreases n - i
  {
    i == n ||
    (VerifyString(buf, opts, GetIndirect(buf, v, i).value) && VerifyStrings(buf, opts, v, i + 1, n))
  }

  /** Before a union is looked at, its one-byte type field has been checked. */
  predicate PriorFieldOk(buf: seq<Byte>, sch: Schema, opts: Options, ti: nat, t: nat, k: nat)
    requires SchemaOk(sch) && ti < |sch| && SizeOk(buf, opts) && TableStartOk(buf, t) && k <= |sch[ti]|
  {
    k > 0 && sch[ti][k - 1].ty.TScalar? ==>
      assert TypeOk(sch, ti, k - 1);
      VerifyField(buf, opts, t, sch[ti][k - 1].id, sch[ti][k - 1].ty.size)
  }

  // ---- whole tables ----------------------------------------------------------------------------

  function VerifyTable(buf: seq<Byte>, sch: Schema, opts: Options, ti: nat, t: nat, c: Counters): (bool, Counters)
    requires SchemaOk(sch) && ti < |sch| && SizeOk(buf, opts)
    decreases |buf| - t, 3
  {
    var (ok, c) := VerifyTableStart(buf, opts, t, c);
    if !ok then (false, c)
    else
      var (ok, c) := VerifyFields(buf, sch, opts, ti, t, 0, c);
      if ok then (true, Counters((c.depth - 1) % U32, c.tables)) else (false, c)
  }

  function VerifyFields(buf: seq<Byte>, sch: Schema, opts: Options, ti: nat, t: nat, k: nat, c: Counters): (bool, Counters)
    requires SchemaOk(sch) && ti < |sch| && SizeOk(buf, opts) && TableStartOk(buf, t) && k <= |sch[ti]|
    requires PriorFieldOk(buf, sch, opts, ti, t, k)
    decreases |buf| - t, 2, |sch[ti]| - k
  {
    if k == |sch[ti]| then (true, c)
    else
      var (ok, c) := VerifyOneField(buf, sch, opts, ti, t, k, c);
      if ok then VerifyFields(buf, sch, opts, ti, t, k + 1, c) else (false, c)
  }

  function VerifyOneField(buf: seq<Byte>, sch: Schema, opts: Options, ti: nat, t: nat, k: nat, c: Counters): (bool, Counters)
    requires SchemaOk(sch) && ti < |sch| && SizeOk(buf, opts) && TableStartOk(buf, t) && k < |sch[ti]|
    requires PriorFieldOk(buf, sch, opts, ti, t, k)
    decreases |buf| - t, 1
  {
    var id := sch[ti][k].id;
    assert TypeOk(sch, ti, k);
    match sch[ti][k].ty
    case TScalar(size, def) => (VerifyField(buf, opts, t, id, size), c)
    case TUnion(typeField, members) =>
      if !VerifyOffsetField(buf, opts, t, id) then (false, c)
      else
        var p := GetPointer(buf, t, id).value;
        var which := GetField(buf, t, typeField, 1, 0).value;
        if which in members && p.To? then VerifyTable(buf, sch, opts, members[which], p.pos, c) else (true, c)
    case _ =>
      if !VerifyOffsetField(buf, opts, t, id) then (false, c)
      else
        var p := GetPointer(buf, t, id).value;
        if p.Null? then (true, c) else VerifyObject(buf, sch, opts, sch[ti][k].ty, p.pos, c)
  }

  function VerifyObject(buf: seq<Byte>, sch: Schema, opts: Options, ty: FieldType, p: nat, c: Counters): (bool, Counters)
    requires SchemaOk(sch) && SizeOk(buf, opts)
    requires match ty {
               case TTable(j) => j < |sch|
               case TTableVector(j) => j < |sch|
               case TScalarVector(size) => size > 0
               case _ => true }
    decreases |buf| - p, 4
  {
    match ty
    case TString => (VerifyString(buf, opts, p), c)
    case TScalarVector(size) => (VerifyVectorOrString(buf, opts, p, size), c)
    case TStringVector =>
      if !VerifyVectorOrString(buf, opts, p, 4) then (false, c)
      else
        VectorInside(buf, opts, p, 4);
        (VerifyStrings(buf, opts, p, 0, Word(buf, p, 4)), c)
    case TTable(j) => VerifyTable(buf, sch, opts, j, p, c)
    case TTableVector(j) =>
      if !VerifyVectorOrString(buf, opts, p, 4) then (false, c)
      else
        VectorInside(buf, opts, p, 4);
        VerifyTables(buf, sch, opts, j, p, 0, Word(buf, p, 4), c)
    case _ => (true, c)
  }

  function VerifyTables(buf: seq<Byte>, sch: Schema, opts: Options, ti: nat, v: nat, i: nat, n: nat, c: Counters): (bool, Counters)
    requires SchemaOk(sch) && ti < |sch| && SizeOk(buf, opts) && i <= n && v + 4 + 4 * n <= |buf|
    decreases |buf| - v, 3, n - i
  {
    if i == n then (true, c)
    else
      var (ok, c) := VerifyTable(buf, sch, opts, ti, GetIndirect(buf, v, i).value, c);
      if ok then VerifyTables(buf, sch, opts, ti, v, i + 1, n, c) else (false, c)
  }

  /** The wrap-free bound: an accepted vector lies inside with all its elements. */
  lemma VectorInside(buf: seq<Byte>, opts: Options, v: nat, elemSize: nat)
    requires SizeOk(buf, opts) && elemSize > 0 && VerifyVectorOrString(buf, opts, v, elemSize)
    ensures v + 4 + elemSize * Word(buf, v, 4) <= |buf|
  {
    var n := Word(buf, v, 4);
    assert elemSize * n <= opts.maxSize by { ProductBound(n, opts.maxSize, elemSize); }
  }

  lemma ProductBound(n: nat, limit: nat, size: nat)
    requires size > 0 && n < limit / size
    ensures size * n <= limit
  {
    var q := limit / size;
    assert size * n <= size * q;
    assert size * q <= limit;
  }

  // ---- whole buffers ---------------------------------------------------------------------------

  /** `strncmp(a, b, 4) == 0`: equal up to the first zero byte. */
  predicate SameIdentifier(a: seq<Byte>, b: seq<Byte>)
    requires |a| == |b|
  {
    |a| == 0 || (a[0] == b[0] && (a[0] == 0 || SameIdentifier(a[1..], b[1..])))
  }

  predicate IdentifierOk(buf: seq<Byte>, start: nat, identifier: Option<seq<Byte>>)
    requires start + 8 <= |buf| && (identifier.Some? ==> |identifier.value| == 4)
  {
    identifier.None? || SameIdentifier(buf[start + 4..start + 8], identifier.value)
  }

  const MIN_BUFFER_SIZE: nat := 12

  /** VerifyBufferFromStart with fresh counters. */
  predicate VerifyFromStart(buf: seq<Byte>, sch: Schema, opts: Options, ti: nat,
                            identifier: Option<seq<Byte>>, start: nat)
    requires SchemaOk(sch) && ti < |sch| && SizeOk(buf, opts) && start <= 4
    requires identifier.Some? ==> |identifier.value| == 4
  {
    && |buf| >= MIN_BUFFER_SIZE
    && IdentifierOk(buf, start, identifier)
    && VerifyOffset(buf, opts, start)
    && VerifyTable(buf, sch, opts, ti, start + Word(buf, start, 4), Counters(0, 0)).0
  }

  predicate VerifyBuffer(buf: seq<Byte>, sch: Schema, opts: Options, ti: nat, identifier: Option<seq<Byte>>)
    requires SchemaOk(sch) && ti < |sch| && SizeOk(buf, opts)
    requires identifier.Some? ==> |identifier.value| == 4
  {
    VerifyFromStart(buf, sch, opts, ti, identifier, 0)
  }

  predicate VerifySizePrefixedBuffer(buf: seq<Byte>, sch: Schema, opts: Options, ti: nat, identifier: Option<seq<Byte>>)
    requires SchemaOk(sch) && ti < |sch| && SizeOk(buf, opts)
    requires identifier.Some? ==> |identifier.value| == 4
  {
    && ScalarOk(buf, opts, 0, 4)
    && Word(buf, 0, 4) + 4 <= |buf|
    && VerifyFromStart(buf, sch, opts, ti, identifier, 4)
  }
}
