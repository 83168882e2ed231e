/** Whole runs of the builder: after any sequence of operations every object built so far lies in the
    buffer as the value it denotes. */
module BuildRuns {
  import opened Bytes
  import opened Wrappers
  import opened BuilderSpec
  import opened Table
  import opened Schema
  import opened TableLayout
  import opened Layout
  import opened BuildLaid
  import opened Building
  import opened TableBuild

  // ---- a table closed over its fields ----------------------------------------------------------

  /** A table being closed: `a` is the builder just before EndTable, `r` just after. */
  ghost predicate Closing(cfg: Config, a: State, start: nat, offs: seq<nat>, inits: seq<Init>, r: State, loc: nat) {
    && InitsOk(inits, offs)
    && FieldsOk(a, start)
    && (forall id: nat :: Holds(cfg, a, start, offs, inits, id))
    && Extends(r.data, a.data) && |a.data| < loc && a.minalign <= r.minalign
    && ClosedTable(r.data, loc, a.fields)
  }

  /** The vtable entry of field `id` leads to where the field was stored. */
  lemma EntryOfField(cfg: Config, a: State, start: nat, offs: seq<nat>, inits: seq<Init>, r: State, loc: nat, id: nat)
    requires Closing(cfg, a, start, offs, inits, r, loc) && IsFieldId(id)
    ensures EntryAt(r.data, VtableOf(r.data, loc), id)
         == match Lookup(a.fields, id) { case Some(off) => loc - off case None => 0 }
    ensures Lookup(a.fields, id).Some? ==> start < Lookup(a.fields, id).value <= |a.data|
  {
    LookupFinds(a.fields, id);
    assert EntryAt(r.data, VtableOf(r.data, loc), id) == Entry(a.fields, id, loc);
  }

  /** The entry e leads to the scalar v, or is 0 and v is the default. */
  ghost predicate ScalarAtEntry(r: State, loc: nat, e: nat, size: nat, def: nat, v: nat) {
    if e == 0 then v == def
    else
      && 0 < size <= r.minalign && e + size <= loc <= |r.data|
      && (loc - e) % size == 0 && At(r.data, loc - e, size) == v
  }

  /** A scalar field of the closed table reads as the operations say. */
  lemma ScalarHeld(cfg: Config, a: State, start: nat, offs: seq<nat>, inits: seq<Init>, r: State, loc: nat,
                   id: nat, size: nat, def: nat)
    requires Closing(cfg, a, start, offs, inits, r, loc) && IsFieldId(id)
    requires match FindInit(inits, id) {
               case Some(SetScalar(_, v, d, s)) => s == size && d == def
               case Some(SetRef(_, _)) => false
               case None => true }
    ensures ScalarAtEntry(r, loc, EntryAt(r.data, VtableOf(r.data, loc), id), size, def, ScalarOf(inits, id, def))
  {
    hide At, EntryAt, VtableOf, VtableOk, FieldsOk, Pow256, Extends, Lookup, FindInit, HasRef, InitsOk;
    ExtendsLength(r.data, a.data);
    EntryOfField(cfg, a, start, offs, inits, r, loc, id);
    assert Holds(cfg, a, start, offs, inits, id);
    FindInitOk(inits, offs, id);
    match Lookup(a.fields, id)
    case Some(off) => AtStable(r.data, a.data, off, size);
    case None =>
  }

  /** An offset field of the closed table refers to what the operations say. */
  lemma RefHeld(cfg: Config, a: State, start: nat, offs: seq<nat>, inits: seq<Init>, r: State, loc: nat, id: nat)
    requires Closing(cfg, a, start, offs, inits, r, loc) && IsFieldId(id)
    requires match FindInit(inits, id) { case Some(SetScalar(_, _, _, _)) => false case _ => true }
    ensures var e := EntryAt(r.data, VtableOf(r.data, loc), id);
            match RefOf(inits, id)
            case Some(ref) => 0 < e <= loc && LaidOffset(r.data, |r.data|, loc - e)
                              && ref < |offs| && Target(r.data, loc - e) == offs[ref]
            case None => e == 0
  {
    hide At, EntryAt, VtableOf, VtableOk, FieldsOk, Extends, Lookup, FindInit, HasScalar, ClosedTable, InitsOk, Target, LaidOffset;
    ExtendsLength(r.data, a.data);
    EntryOfField(cfg, a, start, offs, inits, r, loc, id);
    assert Holds(cfg, a, start, offs, inits, id);
    FindInitOk(inits, offs, id);
    match Lookup(a.fields, id)
    case Some(off) => OffsetStable(r.data, a.data, |a.data|, |r.data|, off);
    case None =>
  }

  lemma ExtendsLength(newer: seq<Byte>, older: seq<Byte>)
    requires Extends(newer, older)
    ensures |older| <= |newer|
  {
  }

  // ---- the invariant of a run ------------------------------------------------------------------

  ghost predicate LaidOp(sch: Schema, ops: seq<Op>, n: nat, st: State, off: nat)
    requires SchemaOk(sch) && WellTyped(sch, ops) && n < |ops|
  {
    && Laid(st.data, |st.data|, st.minalign, sch, OpType(ops[n]), off, Denote(sch, ops, n))
    && (ops[n].MakeTable? ==> 8 <= |st.data|)
  }

  ghost predicate PoolOk(st: State) {
    forall k :: 0 <= k < |st.pool| ==> PooledOk(st, st.pool[k])
  }

  ghost predicate PooledOk(st: State, p: nat) {
    StringInBounds(st.data, p) && LaidString(st.data, |st.data|, p, StringBytes(st.data, p))
  }

  /** After the first m operations: every result is laid out, every vtable in order, no table open. */
  ghost predicate Built(sch: Schema, ops: seq<Op>, m: nat, st: State, offs: seq<nat>)
    requires SchemaOk(sch) && WellTyped(sch, ops)
  {
    && m <= |ops| && |offs| == m
    && IsAlignment(st.minalign) && (0 < m ==> 4 <= st.minalign)
    && VtablesOk(st.data, st.vtables)
    && PoolOk(st)
    && st.fields == [] && st.maxVoffset == 0 && !st.nested && !st.finished
    && Within(offs, |st.data|) && Positive(offs)
    && forall n :: 0 <= n < m ==> LaidOp(sch, ops, n, st, offs[n])
  }

  lemma LaidOpStable(sch: Schema, ops: seq<Op>, n: nat, r: State, st: State, off: nat)
    requires SchemaOk(sch) && WellTyped(sch, ops) && n < |ops| && Grew(r, st) && LaidOp(sch, ops, n, st, off)
    ensures LaidOp(sch, ops, n, r, off)
  {
    LaidStable(r.data, st.data, |st.data|, |r.data|, st.minalign, r.minalign, sch, OpType(ops[n]), off, Denote(sch, ops, n));
  }

  lemma PoolStable(r: State, st: State)
    requires Grew(r, st) && PoolOk(st) && r.pool == st.pool
    ensures PoolOk(r)
  {
    forall k | 0 <= k < |r.pool|
      ensures PooledOk(r, r.pool[k])
    {
      var p := r.pool[k];
      assert PooledOk(st, p);
      AtStable(r.data, st.data, p, 4);
      ExtendsTail(r.data, st.data, p);
      StringStable(r.data, st.data, |st.data|, |r.data|, p, StringBytes(st.data, p));
    }
  }

  /** A step that grew the buffer and laid out its result keeps the invariant. */
  lemma BuiltStep(sch: Schema, ops: seq<Op>, m: nat, st: State, offs: seq<nat>, r: State, o: nat)
    requires SchemaOk(sch) && WellTyped(sch, ops) && Built(sch, ops, m, st, offs) && m < |ops|
    requires Grew(r, st) && 4 <= r.minalign && VtablesOk(r.data, r.vtables) && PoolOk(r)
    requires r.fields == [] && r.maxVoffset == 0 && !r.nested && !r.finished
    requires 0 < o <= |r.data| && LaidOp(sch, ops, m, r, o)
    ensures Built(sch, ops, m + 1, r, offs + [o])
  {
    hide LaidOp, VtablesOk, PoolOk;
    GrewExtends(r, st);
    forall n | 0 <= n < m + 1
      ensures LaidOp(sch, ops, n, r, (offs + [o])[n])
    {
      if n < m { LaidOpStable(sch, ops, n, r, st, offs[n]); }
    }
  }

  // ---- one operation ---------------------------------------------------------------------------

  lemma StringStep(cfg: Config, sch: Schema, ops: seq<Op>, m: nat, st: State, offs: seq<nat>)
    requires SchemaOk(sch) && WellTyped(sch, ops) && Built(sch, ops, m, st, offs) && m < |ops|
    requires ops[m].MakeString?
    ensures var (r, o) := CreateString(st, ops[m].str); Built(sch, ops, m + 1, r, offs + [o])
  {
    hide Grew, LaidString, VtablesOk, PoolOk;
    assert OpTyped(sch, ops, m);
    var (r, o) := CreateString(st, ops[m].str);
    CreateStringLays(st, ops[m].str);
    GrewExtends(r, st);
    VtablesStable(r.data, st.data, st.vtables);
    PoolStable(r, st);
    assert LaidOp(sch, ops, m, r, o);
    LaidStringIsPositive(r.data, o, ops[m].str);
    BuiltStep(sch, ops, m, st, offs, r, o);
  }

  lemma LaidStringIsPositive(buf: seq<Byte>, o: nat, str: seq<Byte>)
    requires LaidString(buf, |buf|, o, str)
    ensures 0 < o <= |buf|
  {
  }

  lemma ScalarsStep(cfg: Config, sch: Schema, ops: seq<Op>, m: nat, st: State, offs: seq<nat>)
    requires SchemaOk(sch) && WellTyped(sch, ops) && Built(sch, ops, m, st, offs) && m < |ops|
    requires ops[m].MakeScalars? && ops[m].size > 0
    ensures var (r, o) := CreateScalarVector(st, ops[m].ns, ops[m].size); Built(sch, ops, m + 1, r, offs + [o])
  {
    hide Grew, VtablesOk, PoolOk, CreateScalarVector, LaidScalars, LaidOp;
    assert OpTyped(sch, ops, m);
    var MakeScalars(size, ns) := ops[m];
    var (r, o) := CreateScalarVector(st, ns, size);
    CreateScalarVectorLays(st, ns, size);
    GrewExtends(r, st);
    VtablesStable(r.data, st.data, st.vtables);
    PoolStable(r, st);
    ScalarsAreLaid(sch, ops, m, r, o);
    BuiltStep(sch, ops, m, st, offs, r, o);
  }

  lemma ScalarsAreLaid(sch: Schema, ops: seq<Op>, m: nat, r: State, o: nat)
    requires SchemaOk(sch) && WellTyped(sch, ops) && m < |ops| && ops[m].MakeScalars? && o == |r.data|
    requires LaidScalars(r.data, o, r.minalign, o, ops[m].size, ops[m].ns)
    ensures LaidOp(sch, ops, m, r, o) && 0 < o
  {
    hide At, ScalarIs, SchemaOk, WellTyped;
  }

  // ---- shared strings --------------------------------------------------------------------------

  /** The ordering of the pool tells two strings apart exactly when they differ. */
  lemma OrderSeparates(a: seq<Byte>, b: seq<Byte>)
    ensures !StringLess(a, b) && !StringLess(b, a) <==> a == b
  {
    var n := if |a| < |b| then |a| else |b|;
    var m := if |b| < |a| then |b| else |a|;
    assert n == m;
    MemCmpSigns(a[..n], b[..n]);
    if |a| == |b| {
      assert a[..n] == a && b[..n] == b;
    }
  }

  lemma {:induction false} MemCmpSigns(a: seq<Byte>, b: seq<Byte>)
    requires |a| == |b|
    ensures MemCmp(a, b) == 0 - MemCmp(b, a)
    ensures MemCmp(a, b) == 0 <==> a == b
  {
    if a != [] && a[0] == b[0] {
      MemCmpSigns(a[1..], b[1..]);
      assert a == [a[0]] + a[1..] && b == [b[0]] + b[1..];
    }
  }

  lemma {:induction false} FindStringMatches(data: seq<Byte>, pool: seq<nat>, str: seq<Byte>)
    requires PoolInBounds(data, pool)
    ensures match FindString(data, pool, str)
            case Some(p) => (exists k :: 0 <= k < |pool| && pool[k] == p && StringBytes(data, pool[k]) == str)
            case None => forall k :: 0 <= k < |pool| ==> StringBytes(data, pool[k]) != str
  {
    if pool != [] {
      OrderSeparates(StringBytes(data, pool[0]), str);
      if StringBytes(data, pool[0]) != str {
        FindStringMatches(data, pool[1..], str);
        assert forall k :: 0 < k < |pool| ==> pool[k] == pool[1..][k - 1];
      }
    }
  }

  lemma PoolIsInBounds(st: State)
    requires PoolOk(st)
    ensures PoolInBounds(st.data, st.pool)
  {
    forall k | 0 <= k < |st.pool| ensures StringInBounds(st.data, st.pool[k]) { assert PooledOk(st, st.pool[k]); }
  }

  lemma LaidIsPooled(st: State, o: nat, str: seq<Byte>)
    requires LaidString(st.data, |st.data|, o, str)
    ensures PooledOk(st, o) && StringBytes(st.data, o) == str
  {
  }

  /** Taking an equal string from the pool leaves the buffer as it was, at most better aligned. */
  lemma SharedStringStep(cfg: Config, sch: Schema, ops: seq<Op>, m: nat, st: State, offs: seq<nat>)
    requires SchemaOk(sch) && WellTyped(sch, ops) && Built(sch, ops, m, st, offs) && m < |ops|
    requires ops[m].MakeSharedString? && PoolInBounds(st.data, st.pool)
    ensures var (r, o) := CreateSharedString(st, ops[m].str); Built(sch, ops, m + 1, r, offs + [o])
  {
    hide Grew, LaidString, VtablesOk, CreateString, PooledOk, StringBytes, StringInBounds;
    assert OpTyped(sch, ops, m);
    var str := ops[m].str;
    var (a, o') := CreateString(st, str);
    CreateStringLays(st, str);
    FindStringMatches(st.data, st.pool, str);
    var (r, o) := CreateSharedString(st, str);
    if FindString(st.data, st.pool, str).Some? {
      var k :| 0 <= k < |st.pool| && st.pool[k] == o && StringBytes(st.data, st.pool[k]) == str;
      TakenBack(a, r, st);
      PooledIsLaid(st, o);
      PoolStable(r, st);
    } else {
      SameGrowth(r, a, st);
      PoolStable(a, st);
      LaidIsPooled(a, o, str);
      PooledSame(r, a);
    }
    GrewExtends(r, st);
    VtablesStable(r.data, st.data, st.vtables);
    assert LaidOp(sch, ops, m, r, o);
    LaidStringIsPositive(r.data, o, str);
    BuiltStep(sch, ops, m, st, offs, r, o);
  }

  lemma TakenBack(a: State, r: State, st: State)
    requires Grew(a, st) && r.data == st.data && r.minalign == a.minalign
    ensures Grew(r, st)
  {
  }

  lemma PooledIsLaid(st: State, p: nat)
    requires PooledOk(st, p)
    ensures LaidString(st.data, |st.data|, p, StringBytes(st.data, p))
  {
  }

  lemma PooledSame(r: State, a: State)
    requires PoolOk(a) && r.data == a.data && |r.pool| == |a.pool| + 1 && r.pool[..|a.pool|] == a.pool
    requires PooledOk(a, r.pool[|a.pool|])
    ensures PoolOk(r)
  {
    forall k | 0 <= k < |r.pool|
      ensures PooledOk(r, r.pool[k])
    {
      if k < |a.pool| {
        assert r.pool[k] == r.pool[..|a.pool|][k];
        assert PooledOk(a, a.pool[k]);
      }
    }
  }

  // ---- vectors of offsets ----------------------------------------------------------------------

  lemma StringsStep(cfg: Config, sch: Schema, ops: seq<Op>, m: nat, st: State, offs: seq<nat>)
    requires SchemaOk(sch) && WellTyped(sch, ops) && Built(sch, ops, m, st, offs) && m < |ops|
    requires ops[m].MakeStrings? && RefsWithin(ops[m].refs, |offs|)
    requires |CreateOffsetVector(st, Resolve(ops[m].refs, offs)).0.data| <= MAX_BUFFER_SIZE
    ensures var (r, o) := CreateOffsetVector(st, Resolve(ops[m].refs, offs)); Built(sch, ops, m + 1, r, offs + [o])
  {
    hide Grew, VtablesOk, PoolOk, CreateOffsetVector, At, LaidString, LaidOffset, Target;
    assert OpTyped(sch, ops, m);
    var refs := ops[m].refs;
    var (r, o) := CreateOffsetVector(st, Resolve(refs, offs));
    CreateOffsetVectorLays(st, Resolve(refs, offs));
    GrewExtends(r, st);
    VtablesStable(r.data, st.data, st.vtables);
    PoolStable(r, st);
    forall i | 0 <= i < |refs|
      ensures Denote(sch, ops, refs[i]).VString?
      ensures LaidString(r.data, |r.data|, offs[refs[i]], Denote(sch, ops, refs[i]).str)
    {
      LaidOpStable(sch, ops, refs[i], r, st, offs[refs[i]]);
    }
    assert LaidOp(sch, ops, m, r, o);
    BuiltStep(sch, ops, m, st, offs, r, o);
  }

  lemma TablesStep(cfg: Config, sch: Schema, ops: seq<Op>, m: nat, st: State, offs: seq<nat>)
    requires SchemaOk(sch) && WellTyped(sch, ops) && Built(sch, ops, m, st, offs) && m < |ops|
    requires ops[m].MakeTables? && RefsWithin(ops[m].refs, |offs|)
    requires |CreateOffsetVector(st, Resolve(ops[m].refs, offs)).0.data| <= MAX_BUFFER_SIZE
    ensures var (r, o) := CreateOffsetVector(st, Resolve(ops[m].refs, offs)); Built(sch, ops, m + 1, r, offs + [o])
  {
    hide Grew, VtablesOk, PoolOk, CreateOffsetVector, At, LaidTable, LaidOffset, Target;
    assert OpTyped(sch, ops, m);
    var MakeTables(t, refs) := ops[m];
    var (r, o) := CreateOffsetVector(st, Resolve(refs, offs));
    CreateOffsetVectorLays(st, Resolve(refs, offs));
    GrewExtends(r, st);
    VtablesStable(r.data, st.data, st.vtables);
    PoolStable(r, st);
    forall i | 0 <= i < |refs|
      ensures LaidTable(r.data, |r.data|, r.minalign, sch, t, offs[refs[i]], Denote(sch, ops, refs[i]))
    {
      LaidOpStable(sch, ops, refs[i], r, st, offs[refs[i]]);
    }
    assert LaidOp(sch, ops, m, r, o);
    BuiltStep(sch, ops, m, st, offs, r, o);
  }

  // ---- tables ----------------------------------------------------------------------------------

  /** The closed table's field k is laid out as the value it denotes. */
  lemma FieldIsLaid(cfg: Config, sch: Schema, ops: seq<Op>, m: nat, st: State, offs: seq<nat>,
                    a: State, r: State, loc: nat, k: nat)
    requires SchemaOk(sch) && WellTyped(sch, ops) && m < |ops| && ops[m].MakeTable?
    requires Built(sch, ops, m, st, offs) && Grew(r, st)
    requires Closing(cfg, a, |st.data|, offs, ops[m].inits, r, loc)
    requires ops[m].table < |sch| && k < |sch[ops[m].table]|
    ensures LaidField(r.data, |r.data|, r.minalign, sch, ops[m].table, loc, k, DenoteField(sch, ops, m, k))
  {
    hide Built, Grew, Closing, LaidField, DenoteField, WellTyped, SchemaOk;
    match sch[ops[m].table][k].ty
    case TScalar(_, _) => ScalarIsLaid(cfg, sch, ops, m, st, offs, a, r, loc, k);
    case TUnion(_, _) => UnionIsLaid(cfg, sch, ops, m, st, offs, a, r, loc, k);
    case _ => ObjectIsLaid(cfg, sch, ops, m, st, offs, a, r, loc, k);
  }

  lemma ScalarIsLaid(cfg: Config, sch: Schema, ops: seq<Op>, m: nat, st: State, offs: seq<nat>,
                     a: State, r: State, loc: nat, k: nat)
    requires SchemaOk(sch) && WellTyped(sch, ops) && m < |ops| && ops[m].MakeTable?
    requires Built(sch, ops, m, st, offs) && Grew(r, st)
    requires Closing(cfg, a, |st.data|, offs, ops[m].inits, r, loc)
    requires ops[m].table < |sch| && k < |sch[ops[m].table]| && sch[ops[m].table][k].ty.TScalar?
    ensures LaidField(r.data, |r.data|, r.minalign, sch, ops[m].table, loc, k, DenoteField(sch, ops, m, k))
  {
    hide Built, Grew, At, EntryAt, VtableOf, VtableOk, FieldsOk, Extends, ClosedTable, SchemaOk, Holds, FindInit, ScalarOf;
    FieldIsOk(sch, ops[m].table, k);
    assert OpTyped(sch, ops, m);
    assert FieldTyped(sch, ops, m, ops[m].table, ops[m].inits, k);
    var FieldDef(id, TScalar(size, def)) := sch[ops[m].table][k];
    ScalarHeld(cfg, a, |st.data|, offs, ops[m].inits, r, loc, id, size, def);
  }

  lemma UnionIsLaid(cfg: Config, sch: Schema, ops: seq<Op>, m: nat, st: State, offs: seq<nat>,
                    a: State, r: State, loc: nat, k: nat)
    requires SchemaOk(sch) && WellTyped(sch, ops) && m < |ops| && ops[m].MakeTable?
    requires Built(sch, ops, m, st, offs) && Grew(r, st)
    requires Closing(cfg, a, |st.data|, offs, ops[m].inits, r, loc)
    requires ops[m].table < |sch| && k < |sch[ops[m].table]| && sch[ops[m].table][k].ty.TUnion?
    ensures LaidField(r.data, |r.data|, r.minalign, sch, ops[m].table, loc, k, DenoteField(sch, ops, m, k))
  {
    hide Grew, At, EntryAt, VtableOf, VtableOk, FieldsOk, Extends, SchemaOk, TypeOk, Holds, FindInit, Laid,
         LaidTable, Target, LaidOffset, VtablesOk, PoolOk, Denote, LaidOp, ScalarAtEntry;
    var t := ops[m].table;
    var inits := ops[m].inits;
    UnionIsOk(sch, t, k);
    assert OpTyped(sch, ops, m);
    assert FieldTyped(sch, ops, m, t, inits, k);
    assert FieldTyped(sch, ops, m, t, inits, k - 1);
    var FieldDef(id, TUnion(typeField, members)) := sch[t][k];
    ScalarHeld(cfg, a, |st.data|, offs, inits, r, loc, typeField, 1, 0);
    UnionTypeHeld(r, loc, typeField, ScalarOf(inits, typeField, 0));
    RefHeld(cfg, a, |st.data|, offs, inits, r, loc, id);
    var w := ScalarOf(inits, typeField, 0);
    match RefOf(inits, id)
    case Some(ref) =>
      if w in members { TableOpLaid(sch, ops, ref, r, st, offs[ref], members[w]); }
    case None =>
  }

  lemma UnionTypeHeld(r: State, loc: nat, typeField: nat, w: nat)
    requires 4 <= loc <= |r.data| && VtableOf(r.data, loc) >= 0 && VtableOk(r.data, VtableOf(r.data, loc)) && typeField % 2 == 0
    requires ScalarAtEntry(r, loc, EntryAt(r.data, VtableOf(r.data, loc), typeField), 1, 0, w)
    ensures UnionType(r.data, loc, typeField) == Some(w)
  {
  }

  /** An earlier table is still laid out. */
  lemma TableOpLaid(sch: Schema, ops: seq<Op>, n: nat, r: State, st: State, off: nat, t: nat)
    requires SchemaOk(sch) && WellTyped(sch, ops) && n < |ops| && Grew(r, st) && LaidOp(sch, ops, n, st, off)
    requires OpType(ops[n]) == TTable(t) && t < |sch|
    ensures LaidTable(r.data, |r.data|, r.minalign, sch, t, off, Denote(sch, ops, n))
  {
    hide Grew, LaidTable, Denote;
    LaidOpStable(sch, ops, n, r, st, off);
  }

  lemma ObjectIsLaid(cfg: Config, sch: Schema, ops: seq<Op>, m: nat, st: State, offs: seq<nat>,
                     a: State, r: State, loc: nat, k: nat)
    requires SchemaOk(sch) && WellTyped(sch, ops) && m < |ops| && ops[m].MakeTable?
    requires Built(sch, ops, m, st, offs) && Grew(r, st)
    requires Closing(cfg, a, |st.data|, offs, ops[m].inits, r, loc)
    requires ops[m].table < |sch| && k < |sch[ops[m].table]|
    requires !sch[ops[m].table][k].ty.TScalar? && !sch[ops[m].table][k].ty.TUnion?
    ensures LaidField(r.data, |r.data|, r.minalign, sch, ops[m].table, loc, k, DenoteField(sch, ops, m, k))
  {
    hide Grew, At, EntryAt, VtableOf, VtableOk, FieldsOk, Extends, ClosedTable, SchemaOk, TypeOk, Holds, FindInit, Laid,
         Target, LaidOffset, VtablesOk, PoolOk, Denote;
    var t := ops[m].table;
    FieldIsOk(sch, t, k);
    assert OpTyped(sch, ops, m);
    assert FieldTyped(sch, ops, m, t, ops[m].inits, k);
    var id := sch[t][k].id;
    RefHeld(cfg, a, |st.data|, offs, ops[m].inits, r, loc, id);
    match RefOf(ops[m].inits, id)
    case Some(ref) => LaidOpStable(sch, ops, ref, r, st, offs[ref]);
    case None =>
  }

  lemma TableStep(cfg: Config, sch: Schema, ops: seq<Op>, m: nat, st: State, offs: seq<nat>, r: State, loc: nat)
    requires SchemaOk(sch) && WellTyped(sch, ops) && Built(sch, ops, m, st, offs) && m < |ops|
    requires ops[m].MakeTable? && InitsOk(ops[m].inits, offs)
    requires BuildTable(cfg, st, offs, ops[m].inits) == Some((r, loc))
    ensures Built(sch, ops, m + 1, r, offs + [loc])
  {
    hide Grew, AddInits, VtablesInBounds, InitsOk, Holds, FieldsOk, SchemaOk, WellTyped, LaidOp, EndTable, PaddingBytes, TableEnd;
    var inits := ops[m].inits;
    var s := StartTable(st);
    Unchanged(st);
    SameGrowth(s, st, st);
    var a := AddInits(cfg, s, offs, inits);
    TableEndBound(a.data);
    AddInitsStore(cfg, s, offs, inits);
    GrewTransitive(a, s, st);
    GrewExtends(a, st);
    VtablesStable(a.data, st.data, st.vtables);
    EndTableLayout(cfg, a, |st.data|, r, loc);
    EndTableKeeps(cfg, a, |st.data|, r, loc);
    GrewTransitive(r, a, st);
    PoolStable(a, st);
    PoolStable(r, a);
    TableIsLaid(cfg, sch, ops, m, st, offs, a, r, loc);
    BuiltStep(sch, ops, m, st, offs, r, loc);
  }

  lemma TableEndBound(data: seq<Byte>)
    ensures |data| < TableEnd(data)
  {
  }

  /** What EndTable does to everything but the data and the vtables. */
  lemma EndTableKeeps(cfg: Config, a: State, start: nat, r: State, loc: nat)
    requires start <= |a.data| && VtablesInBounds(a.data, a.vtables) && EndTable(cfg, a, start) == (r, loc)
    requires IsAlignment(a.minalign) && Extends(r.data, a.data)
    ensures Grew(r, a) && 4 <= r.minalign && r.pool == a.pool
    ensures r.fields == [] && r.maxVoffset == 0 && !r.nested && r.finished == a.finished
  {
  }

  lemma TableIsLaid(cfg: Config, sch: Schema, ops: seq<Op>, m: nat, st: State, offs: seq<nat>, a: State, r: State, loc: nat)
    requires SchemaOk(sch) && WellTyped(sch, ops) && m < |ops| && ops[m].MakeTable?
    requires Built(sch, ops, m, st, offs) && Grew(r, st)
    requires InitsOk(ops[m].inits, offs) && FieldsOk(a, |st.data|)
    requires forall id: nat :: Holds(cfg, a, |st.data|, offs, ops[m].inits, id)
    requires Extends(r.data, a.data) && |a.data| < loc && a.minalign <= r.minalign && ClosedTable(r.data, loc, a.fields)
    requires 8 <= |r.data|
    ensures LaidOp(sch, ops, m, r, loc)
  {
    hide Grew, Built, LaidField, DenoteField, SchemaOk, FieldsOk, Extends, Holds;
    assert OpTyped(sch, ops, m);
    var t := ops[m].table;
    var v := Denote(sch, ops, m);
    assert ClosedTable(r.data, loc, a.fields);
    forall k | 0 <= k < |v.fields|
      ensures LaidField(r.data, |r.data|, r.minalign, sch, t, loc, k, v.fields[k])
    {
      FieldIsLaid(cfg, sch, ops, m, st, offs, a, r, loc, k);
      assert v.fields[k] == DenoteField(sch, ops, m, k);
    }
    assert 0 <= VtableOf(r.data, loc) <= |r.data|;
    assert LaidTable(r.data, |r.data|, r.minalign, sch, t, loc, v);
  }

  // ---- whole runs ------------------------------------------------------------------------------

  lemma OneStep(cfg: Config, sch: Schema, ops: seq<Op>, m: nat, st: State, offs: seq<nat>, r: State, o: nat)
    requires SchemaOk(sch) && WellTyped(sch, ops) && Built(sch, ops, m, st, offs) && m < |ops|
    requires Step(cfg, st, offs, ops[m]) == Some((r, o))
    ensures Built(sch, ops, m + 1, r, offs + [o])
  {
    hide Built, WellTyped, SchemaOk, CreateString, CreateSharedString, CreateScalarVector, CreateOffsetVector, BuildTable;
    match ops[m]
    case MakeString(_) => StringStep(cfg, sch, ops, m, st, offs);
    case MakeSharedString(_) => SharedStringStep(cfg, sch, ops, m, st, offs);
    case MakeScalars(_, _) => ScalarsStep(cfg, sch, ops, m, st, offs);
    case MakeStrings(_) => StringsStep(cfg, sch, ops, m, st, offs);
    case MakeTables(_, _) => TablesStep(cfg, sch, ops, m, st, offs);
    case MakeTable(_, _) => TableStep(cfg, sch, ops, m, st, offs, r, o);
  }

  /** After every run, of any length and under any settings, all results are in place. */
  lemma {:induction false} RunBuilds(cfg: Config, sch: Schema, ops: seq<Op>, m: nat)
    requires SchemaOk(sch) && WellTyped(sch, ops) && m <= |ops| && Run(cfg, ops[..m]).Some?
    ensures var (st, offs) := Run(cfg, ops[..m]).value; Built(sch, ops, m, st, offs)
  {
    if m > 0 {
      assert ops[..m][..m - 1] == ops[..m - 1];
      RunBuilds(cfg, sch, ops, m - 1);
      var (st, offs) := Run(cfg, ops[..m - 1]).value;
      var (r, o) := Step(cfg, st, offs, ops[m - 1]).value;
      OneStep(cfg, sch, ops, m - 1, st, offs, r, o);
    }
  }
}
