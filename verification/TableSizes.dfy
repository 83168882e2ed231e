/** The two sizes a vtable starts with: how far its table reaches, and its own length.  Every field a
    table stores lies with its whole size inside the reach, and the vtable ends with a field that is
    there. */
module TableSizes {
  import opened Bytes
  import opened Wrappers
  import opened BuilderSpec
  import opened Table
  import opened Schema
  import opened TableLayout
  import opened BuildLaid
  import opened Building
  import opened TableBuild
  import opened BuildRuns
  import opened FinishedBuffers
  import opened LayoutReads
  import opened VtableWriting
  import opened Layout
  import Sharing

  /** The vtable of the table at distance loc says that the table reaches `span` bytes from its start, and
      has no entry of zero behind its last field. */
  ghost predicate Sized(data: seq<Byte>, loc: nat, span: nat) {
    && 4 <= loc <= |data| && 0 <= VtableOf(data, loc) && VtableOk(data, VtableOf(data, loc))
    && var v := VtableOf(data, loc);
    && EntryAt(data, v, 2) == span
    && (At(data, v, 2) == 4 || EntryAt(data, v, At(data, v, 2) - 2) != 0)
  }

  lemma SizedVtable(data: seq<Byte>, loc: nat, span: nat)
    requires Sized(data, loc, span)
    ensures 4 <= loc <= |data| && 0 <= VtableOf(data, loc) && VtableOk(data, VtableOf(data, loc))
  {
  }

  /** The second word of whatever vtable EndTable settles on. */
  lemma SpanFromBytes(st: State, start: nat, loc: nat, data: seq<Byte>, v: nat)
    requires FieldsOk(st, start) && |st.data| < loc && loc - start < U16
    requires VtableOk(data, v)
    requires VtableBytes(data, v) == Vtable(st.fields, VtableSize(st.maxVoffset), loc - start, loc)
    ensures EntryAt(data, v, 2) == loc - start && At(data, v, 2) == VtableSize(st.maxVoffset)
  {
    var size := VtableSize(st.maxVoffset);
    EntriesAreSmall(st, start, loc, 2);
    EntryInBytes(data, v, 2);
    VtableWords(st.fields, size, loc - start, loc, 2);
  }

  /** The largest id tracked is that of a field. */
  ghost predicate MaxIsStored(st: State) {
    st.maxVoffset == 0 || Lookup(st.fields, st.maxVoffset).Some?
  }

  lemma FieldEntry(st: State, start: nat, loc: nat)
    requires FieldsOk(st, start) && |st.data| < loc && MaxIsStored(st) && 0 < st.maxVoffset
    ensures Entry(st.fields, st.maxVoffset, loc) != 0
  {
    LookupFinds(st.fields, st.maxVoffset);
  }

  /** EndTable, over a new or a shared vtable. */
  lemma EndTableSizes(cfg: Config, st: State, start: nat, r: State, loc: nat)
    requires FieldsOk(st, start) && VtablesOk(st.data, st.vtables) && MaxIsStored(st)
    requires TableEnd(st.data) - start < U16 && TableEnd(st.data) <= MAX_BUFFER_SIZE
    requires EndTable(cfg, st, start) == (r, loc)
    ensures |st.data| + 4 <= loc && Sized(r.data, loc, loc - start)
  {
    hide EndTable, FieldsOk, VtableOk, VtableBytes, At, TableEnd, EntryAt, Entry, Extends, Vtable, MaxIsStored;
    var v := EndTableChoice(cfg, st, start, r, loc);
    assert start <= |st.data| by { FieldsStart(st, start); }
    LocAbove(st.data);
    ClosedFromBytes(st, start, loc, r.data, v);
    SpanFromBytes(st, start, loc, r.data, v);
    LastEntry(st, start, loc, r.data, v);
  }

  lemma LocAbove(data: seq<Byte>)
    ensures |data| + 4 <= TableEnd(data)
  {
  }

  lemma LastEntry(st: State, start: nat, loc: nat, data: seq<Byte>, v: nat)
    requires FieldsOk(st, start) && |st.data| < loc && loc - start < U16 && MaxIsStored(st) && VtableOk(data, v)
    requires VtableBytes(data, v) == Vtable(st.fields, VtableSize(st.maxVoffset), loc - start, loc)
    requires At(data, v, 2) == VtableSize(st.maxVoffset)
    ensures At(data, v, 2) == 4 || EntryAt(data, v, At(data, v, 2) - 2) != 0
  {
    hide EntryAt, Entry, Vtable, VtableBytes, VtableOk, At, MaxIsStored;
    if 0 < st.maxVoffset {
      EntriesFromBytes(st, start, loc, data, v, st.maxVoffset);
      FieldEntry(st, start, loc);
      assert VtableSize(st.maxVoffset) == st.maxVoffset + 2;
    }
  }

  lemma {:induction false} AddInitsMax(cfg: Config, st: State, offs: seq<nat>, inits: seq<Init>)
    requires st.fields == [] && st.maxVoffset == 0 && InitsOk(inits, offs) && Within(offs, |st.data|)
    ensures MaxIsStored(AddInits(cfg, st, offs, inits))
    decreases |inits|
  {
    hide AddInit;
    if inits != [] {
      var front, last := inits[..|inits| - 1], inits[|inits| - 1];
      InitsPrefix(inits, offs);
      AddInitsMax(cfg, st, offs, front);
      AddInitMax(cfg, AddInits(cfg, st, offs, front), offs, last);
    }
  }

  lemma AddInitMax(cfg: Config, st: State, offs: seq<nat>, init: Init)
    requires InitOk(init, offs) && Within(offs, |st.data|) && MaxIsStored(st)
    ensures MaxIsStored(AddInit(cfg, st, offs, init))
  {
    hide Lookup, PaddingBytes, LE;
    var r := AddInit(cfg, st, offs, init);
    if r.fields != st.fields {
      assert r.fields == st.fields + [FieldLoc(|r.data|, init.id)];
      forall id: nat ensures Lookup(r.fields, id) == if id == init.id then Some(|r.data|) else Lookup(st.fields, id) {
        LookupAppended(st.fields, FieldLoc(|r.data|, init.id), id);
      }
    }
  }

  // ---- whole tables ----------------------------------------------------------------------------

  function InitSize(init: Init): nat {
    match init case SetScalar(_, _, _, size) => size case SetRef(_, _) => 4
  }

  /** What needs no entry: a default that is not forced, a null. */
  predicate Skipped(cfg: Config, init: Init) {
    match init case SetScalar(_, v, def, _) => v == def && !cfg.forceDefaults case SetRef(_, ref) => ref.None?
  }

  /** Absent exactly if it is to be skipped, and otherwise inside the reach behind the offset to the vtable. */
  predicate FieldSpans(cfg: Config, init: Init, e: nat, span: nat) {
    (e == 0 <==> Skipped(cfg, init)) && (e != 0 ==> 4 <= e && e + InitSize(init) <= span)
  }

  /** The table was opened at size `start`, and each field given to it is where it has to be. */
  ghost predicate Spans(cfg: Config, data: seq<Byte>, loc: nat, start: nat, inits: seq<Init>) {
    && start <= loc && Sized(data, loc, loc - start)
    && forall j :: 0 <= j < |inits| && IsFieldId(inits[j].id) ==>
         FieldSpans(cfg, inits[j], EntryAt(data, VtableOf(data, loc), inits[j].id), loc - start)
  }

  lemma TableSpans(cfg: Config, sch: Schema, ops: seq<Op>, m: nat, st: State, offs: seq<nat>, r: State, loc: nat)
    requires SchemaOk(sch) && WellTyped(sch, ops) && Built(sch, ops, m, st, offs) && m < |ops|
    requires ops[m].MakeTable? && InitsOk(ops[m].inits, offs)
    requires BuildTable(cfg, st, offs, ops[m].inits) == Some((r, loc))
    ensures Spans(cfg, r.data, loc, |st.data|, ops[m].inits)
  {
    hide AddInits, InitsOk, Holds, FieldsOk, SchemaOk, WellTyped, LaidOp, EndTable, PaddingBytes, TableEnd, PoolOk, Sized,
         VtablesOk, ClosedTable, EntryAt, MaxIsStored;
    var inits := ops[m].inits;
    var s := StartTable(st);
    var a := AddInits(cfg, s, offs, inits);
    TableEndBound(a.data);
    AddInitsStore(cfg, s, offs, inits);
    AddInitsMax(cfg, s, offs, inits);
    GrewExtends(a, s);
    VtablesStable(a.data, s.data, s.vtables);
    FieldsStart(a, |st.data|);
    EndTableLayout(cfg, a, |st.data|, r, loc);
    EndTableSizes(cfg, a, |st.data|, r, loc);
    SizedVtable(r.data, loc, loc - |st.data|);
    forall j | 0 <= j < |inits| && IsFieldId(inits[j].id)
      ensures FieldSpans(cfg, inits[j], FieldOffsetAt(r.data, loc, inits[j].id), loc - |st.data|)
    {
      FieldInside(cfg, a, |st.data|, offs, inits, r, loc, j);
    }
  }

  ghost function FieldOffsetAt(data: seq<Byte>, loc: nat, id: nat): nat
    requires 4 <= loc <= |data| && 0 <= VtableOf(data, loc) && VtableOk(data, VtableOf(data, loc)) && id % 2 == 0
  {
    EntryAt(data, VtableOf(data, loc), id)
  }

  lemma FieldInside(cfg: Config, a: State, start: nat, offs: seq<nat>, inits: seq<Init>, r: State, loc: nat, j: nat)
    requires InitsOk(inits, offs) && FieldsOk(a, start) && |a.data| + 4 <= loc && ClosedTable(r.data, loc, a.fields)
    requires forall id: nat :: Holds(cfg, a, start, offs, inits, id)
    requires j < |inits| && IsFieldId(inits[j].id)
    ensures FieldSpans(cfg, inits[j], FieldOffsetAt(r.data, loc, inits[j].id), loc - start)
  {
    hide At, FieldsOk, Target, LaidOffset;
    var id := inits[j].id;
    assert Holds(cfg, a, start, offs, inits, id);
    FindsIt(inits, offs, j);
    assert Stored(cfg, a, start, offs, inits[j]);
    assert FieldOffsetAt(r.data, loc, id) == Entry(a.fields, id, loc);
  }

  lemma {:induction false} FindsIt(inits: seq<Init>, offs: seq<nat>, j: nat)
    requires InitsOk(inits, offs) && j < |inits|
    ensures FindInit(inits, inits[j].id) == Some(inits[j])
  {
    if j < |inits| - 1 {
      InitsPrefix(inits, offs);
      FindsIt(inits[..|inits| - 1], offs, j);
    }
  }

  lemma SpansStable(cfg: Config, newer: seq<Byte>, older: seq<Byte>, loc: nat, start: nat, inits: seq<Init>)
    requires Extends(newer, older) && Spans(cfg, older, loc, start, inits)
    ensures Spans(cfg, newer, loc, start, inits)
  {
    hide Extends, At, VtableOk, EntryAt;
    assert |older| <= |newer| by { ExtendsLength(newer, older); }
    AtStable(newer, older, loc, 4);
    var v := VtableOf(older, loc);
    SizeStable(newer, older, v);
    EntryStable(newer, older, v, 2);
    forall id: nat | id % 2 == 0 ensures EntryAt(newer, v, id) == EntryAt(older, v, id) {
      EntryStable(newer, older, v, id);
    }
  }

  lemma SizeStable(newer: seq<Byte>, older: seq<Byte>, v: nat)
    requires Extends(newer, older) && VtableOk(older, v)
    ensures VtableOk(newer, v) && At(newer, v, 2) == At(older, v, 2) && At(older, v, 2) % 2 == 0 && At(older, v, 2) >= 4
  {
    hide Extends, At;
    VtableStable(newer, older, v);
    AtStable(newer, older, v, 2);
  }

  /** Where the buffer ended when operation i began. */
  ghost function StartOf(cfg: Config, ops: seq<Op>, i: nat): nat
    requires i <= |ops|
  {
    match Run(cfg, ops[..i]) case Some((st, _)) => |st.data| case None => 0
  }

  ghost predicate TablesSpan(cfg: Config, ops: seq<Op>, m: nat, data: seq<Byte>, offs: seq<nat>)
    requires m <= |ops| && m <= |offs|
  {
    forall i :: 0 <= i < m && ops[i].MakeTable? ==> Spans(cfg, data, offs[i], StartOf(cfg, ops, i), ops[i].inits)
  }

  lemma {:induction false} RunSpans(cfg: Config, sch: Schema, ops: seq<Op>, m: nat)
    requires SchemaOk(sch) && WellTyped(sch, ops) && m <= |ops| && Run(cfg, ops[..m]).Some?
    ensures var (st, offs) := Run(cfg, ops[..m]).value; TablesSpan(cfg, ops, m, st.data, offs)
  {
    hide Step, SchemaOk, WellTyped, Built, Spans;
    if m > 0 {
      assert ops[..m][..m - 1] == ops[..m - 1];
      RunSpans(cfg, sch, ops, m - 1);
      RunBuilds(cfg, sch, ops, m - 1);
      RunBuilds(cfg, sch, ops, m);
      var (st, offs) := Run(cfg, ops[..m - 1]).value;
      var (r, o) := Step(cfg, st, offs, ops[m - 1]).value;
      StepSpans(cfg, sch, ops, m - 1, st, offs, r, o);
      forall i | 0 <= i < m && ops[i].MakeTable? ensures Spans(cfg, r.data, (offs + [o])[i], StartOf(cfg, ops, i), ops[i].inits) {
        if i < m - 1 { SpansStable(cfg, r.data, st.data, offs[i], StartOf(cfg, ops, i), ops[i].inits); }
      }
    }
  }

  lemma StepSpans(cfg: Config, sch: Schema, ops: seq<Op>, m: nat, st: State, offs: seq<nat>, r: State, o: nat)
    requires SchemaOk(sch) && WellTyped(sch, ops) && m < |ops| && Built(sch, ops, m, st, offs)
    requires Step(cfg, st, offs, ops[m]) == Some((r, o))
    ensures Extends(r.data, st.data)
    ensures ops[m].MakeTable? ==> Spans(cfg, r.data, o, |st.data|, ops[m].inits)
  {
    hide Built, SchemaOk, WellTyped, Spans, CreateString, CreateSharedString, CreateScalarVector, CreateOffsetVector, BuildTable,
         InitsOk, Resolve, PoolInBounds, Extends;
    Sharing.StepExtends(cfg, sch, ops, m, st, offs, r, o);
    if ops[m].MakeTable? { TableSpans(cfg, sch, ops, m, st, offs, r, o); }
  }

  /** The sizes as they are read: the vtable's second word is the distance from the table's start to where
      the buffer ended when the table was opened; each field is absent exactly if skipped, or inside it. */
  ghost predicate ReadsSpan(cfg: Config, buf: seq<Byte>, t: nat, span: nat, inits: seq<Init>) {
    match GetVTable(buf, t)
    case None => false
    case Some(vt) =>
      && 0 <= vt && vt + 4 <= |buf| && Word(buf, vt + 2, 2) == span
      && forall j :: 0 <= j < |inits| && IsFieldId(inits[j].id) ==>
           match GetOptionalFieldOffset(buf, t, inits[j].id)
           case Some(e) => FieldSpans(cfg, inits[j], e, span)
           case None => false
  }

  lemma SpanReads(cfg: Config, buf: seq<Byte>, loc: nat, start: nat, inits: seq<Init>)
    requires Spans(cfg, buf, loc, start, inits)
    ensures ReadsSpan(cfg, buf, |buf| - loc, loc - start, inits)
  {
    hide FromLE, Pow256;
    var v := VtableOf(buf, loc);
    assert GetVTable(buf, |buf| - loc) == Some(|buf| - v);
    assert Word(buf, |buf| - v + 2, 2) == EntryAt(buf, v, 2);
    forall j | 0 <= j < |inits| && IsFieldId(inits[j].id)
      ensures GetOptionalFieldOffset(buf, |buf| - loc, inits[j].id) == Some(EntryAt(buf, v, inits[j].id))
    {
      EntryReads(buf, loc, inits[j].id);
    }
  }

  /** Every table of a finished run, whatever was shared. */
  lemma FinishedSpans(cfg: Config, sch: Schema, ops: seq<Op>, n: nat, identifier: Option<seq<Byte>>, sizePrefix: bool,
                      st: State, offs: seq<nat>, f: State, i: nat)
    requires SchemaOk(sch) && WellTyped(sch, ops) && i < |ops| && ops[i].MakeTable?
    requires FinishedRun(cfg, ops, n, identifier, sizePrefix, st, offs, f)
    ensures StartOf(cfg, ops, i) <= offs[i] <= |f.data|
    ensures ReadsSpan(cfg, f.data, |f.data| - offs[i], offs[i] - StartOf(cfg, ops, i), ops[i].inits)
  {
    hide Run, Finish, SchemaOk, WellTyped, Spans, ReadsSpan, StartOf, Laid, IsAlignment;
    assert ops[..|ops|] == ops;
    RunSpans(cfg, sch, ops, |ops|);
    FinishedLays(cfg, sch, ops, n, identifier, sizePrefix, st, offs, f, i);
    SpansStable(cfg, f.data, st.data, offs[i], StartOf(cfg, ops, i), ops[i].inits);
    SpanBounds(cfg, f.data, offs[i], StartOf(cfg, ops, i), ops[i].inits);
    SpanReads(cfg, f.data, offs[i], StartOf(cfg, ops, i), ops[i].inits);
  }

  lemma SpanBounds(cfg: Config, data: seq<Byte>, loc: nat, start: nat, inits: seq<Init>)
    requires Spans(cfg, data, loc, start, inits)
    ensures start <= loc <= |data|
  {
  }
}
