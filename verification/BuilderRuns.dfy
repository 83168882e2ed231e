/** Whole builds on the class: any sequence of operations, run in place on the growing buffer and
    finished, gives bytes that read back as the values they were built from and that the verifier
    accepts. */
module BuilderRuns {
  import opened Bytes
  import opened Wrappers
  import opened BuilderSpec
  import opened Table
  import opened Schema
  import opened TableLayout
  import opened Layout
  import opened BuildLaid
  import opened Building
  import opened TableBuild
  import opened BuildRuns
  import opened FinishedBuffers
  import opened VerifierSpec
  import opened LayoutVerifies
  import opened Builder
  import opened VtableWriting

  /** What the operations may need of the scratch area, 8 bytes a field and 4 bytes a vtable. */
  function ScratchNeed(ops: seq<Op>): nat {
    if ops == [] then 0
    else ScratchNeed(ops[..|ops| - 1]) + (match ops[|ops| - 1] case MakeTable(_, inits) => 4 + 8 * |inits| case _ => 0)
  }

  method AddField(b: FlatBufferBuilder, offs: seq<nat>, init: Init)
    requires b.Valid() && InitOk(init, offs) && Within(offs, |b.st.data|)
    requires |AddInit(b.cfg, b.st, offs, init).data| < MAX_BUFFER_SIZE && b.buf.scratch + 8 < U32
    modifies b`st, b`minalign, b`numFieldLoc, b`maxVoffset, b.buf, b.buf.buf
    ensures b.Valid() && (b.buf.buf == old(b.buf.buf) || fresh(b.buf.buf)) && b.buf.scratch <= old(b.buf.scratch) + 8
    ensures b.st == AddInit(b.cfg, old(b.st), offs, init)
  {
    match init
    case SetScalar(id, v, def, size) =>
      b.AddElement(id, v, def, size);
    case SetRef(id, ref) =>
      b.AddOffset(id, RefOffset(ref, offs));
  }

  /** The fields of a table, in the order given. */
  method AddFields(b: FlatBufferBuilder, offs: seq<nat>, inits: seq<Init>)
    requires b.Valid() && InitsOk(inits, offs) && Within(offs, |b.st.data|)
    requires |AddInits(b.cfg, b.st, offs, inits).data| < MAX_BUFFER_SIZE && b.buf.scratch + 8 * |inits| < U32
    modifies b`st, b`minalign, b`numFieldLoc, b`maxVoffset, b.buf, b.buf.buf
    ensures b.Valid() && (b.buf.buf == old(b.buf.buf) || fresh(b.buf.buf))
    ensures b.buf.scratch <= old(b.buf.scratch) + 8 * |inits|
    ensures b.st == AddInits(b.cfg, old(b.st), offs, inits)
  {
    hide AddInit, AddInits, InitOk, InitsOk, FlatBufferBuilder.Valid;
    ghost var st0 := b.st;
    var i := 0;
    assert inits[..|inits|] == inits;
    NoFields(b.cfg, st0, offs, inits);
    while i < |inits|
      invariant 0 <= i <= |inits|
      invariant b.Valid() && (b.buf.buf == old(b.buf.buf) || fresh(b.buf.buf))
      invariant b.buf.scratch <= old(b.buf.scratch) + 8 * i
      invariant InitsOk(inits[..i], offs) && b.st == AddInits(b.cfg, st0, offs, inits[..i])
      invariant Within(offs, |st0.data|)
    {
      NextField(b.cfg, st0, offs, inits, i);
      AddField(b, offs, inits[i]);
      i := i + 1;
    }
  }

  lemma NoFields(cfg: Config, st: State, offs: seq<nat>, inits: seq<Init>)
    requires InitsOk(inits, offs) && Within(offs, |st.data|)
    ensures InitsOk(inits[..0], offs) && AddInits(cfg, st, offs, inits[..0]) == st
  {
  }

  /** The first i + 1 fields are the first i and one more, and all stages fit when the last does. */
  lemma NextField(cfg: Config, st: State, offs: seq<nat>, inits: seq<Init>, i: nat)
    requires InitsOk(inits, offs) && Within(offs, |st.data|) && i < |inits|
    ensures InitsOk(inits[..i], offs) && InitsOk(inits[..i + 1], offs) && InitOk(inits[i], offs)
    ensures var a := AddInits(cfg, st, offs, inits[..i]);
            && |st.data| <= |a.data|
            && AddInits(cfg, st, offs, inits[..i + 1]) == AddInit(cfg, a, offs, inits[i])
    ensures |AddInits(cfg, st, offs, inits[..i + 1]).data| <= |AddInits(cfg, st, offs, inits).data|
  {
    hide AddInit;
    assert inits[..i + 1][..i] == inits[..i];
    FirstFields(cfg, st, offs, inits, i + 1);
  }

  lemma {:induction false} FirstFields(cfg: Config, st: State, offs: seq<nat>, inits: seq<Init>, i: nat)
    requires InitsOk(inits, offs) && Within(offs, |st.data|) && i <= |inits|
    ensures InitsOk(inits[..i], offs)
    ensures |AddInits(cfg, st, offs, inits[..i]).data| <= |AddInits(cfg, st, offs, inits).data|
    decreases |inits|
  {
    hide AddInit;
    if i == |inits| {
      assert inits[..i] == inits;
    } else {
      var n := |inits| - 1;
      FirstFields(cfg, st, offs, inits[..n], i);
      assert inits[..n][..i] == inits[..i];
    }
  }

  /** A builder between two operations. */
  ghost predicate Idle(b: FlatBufferBuilder, offs: seq<nat>)
    reads b, b.buf, b.buf.buf
  {
    && b.Valid() && b.st.fields == [] && b.st.maxVoffset == 0 && !b.st.nested && !b.st.finished
    && IsAlignment(b.st.minalign) && Within(offs, |b.st.data|) && Positive(offs)
    && VtablesOk(b.st.data, b.st.vtables) && PoolInBounds(b.st.data, b.st.pool)
  }

  lemma TableFields(cfg: Config, st: State, offs: seq<nat>, inits: seq<Init>)
    requires st.fields == [] && st.maxVoffset == 0 && IsAlignment(st.minalign) && Within(offs, |st.data|) && Positive(offs)
    requires InitsOk(inits, offs) && VtablesOk(st.data, st.vtables) && BuildTable(cfg, st, offs, inits).Some?
    ensures var a := AddInits(cfg, StartTable(st), offs, inits);
            && FieldsOk(a, |st.data|) && VtablesOk(a.data, a.vtables) && a.nested && a.vtables == st.vtables
            && TableEnd(a.data) - |st.data| < U16 && TableEnd(a.data) + VtableSize(a.maxVoffset) < MAX_BUFFER_SIZE
            && |a.data| < MAX_BUFFER_SIZE
  {
    hide AddInits, VtablesOk, FieldsOk, PaddingBytes, Holds, InitsOk, EndTable, TableEnd, VtableSize;
    var s := StartTable(st);
    var a := AddInits(cfg, s, offs, inits);
    TableEndBound(a.data);
    AddInitsStore(cfg, s, offs, inits);
    GrewExtends(a, s);
    VtablesStable(a.data, s.data, s.vtables);
  }

  lemma OneMoreVtable(cfg: Config, st: State, start: nat)
    requires start <= |st.data| && VtablesInBounds(st.data, st.vtables)
    ensures var (r, loc) := EndTable(cfg, st, start); |r.vtables| <= |st.vtables| + 1 && r.fields == []
  {
    hide FindVtable, WantedVtable, TableBody;
  }

  /** The generated Create functions: StartTable, the fields, EndTable. */
  method CreateTable(b: FlatBufferBuilder, offs: seq<nat>, inits: seq<Init>) returns (loc: nat)
    requires Idle(b, offs) && InitsOk(inits, offs) && BuildTable(b.cfg, b.st, offs, inits).Some?
    requires b.buf.scratch + 8 * |inits| + 4 < U32
    modifies b, b.buf, b.buf.buf
    ensures b.Valid() && (b.buf.buf == old(b.buf.buf) || fresh(b.buf.buf)) && b.cfg == old(b.cfg)
    ensures Some((b.st, loc)) == BuildTable(b.cfg, old(b.st), offs, inits)
    ensures b.buf.scratch <= old(b.buf.scratch) + 4
  {
    hide AddInits, VtablesOk, FieldsOk, PaddingBytes, InitsOk, BuilderSpec.EndTable, TableEnd, VtableSize;
    ghost var st0 := b.st;
    TableFields(b.cfg, st0, offs, inits);
    var start := b.StartTable();
    AddFields(b, offs, inits);
    ghost var a := b.st;
    FieldsStart(a, start);
    loc := b.EndTable(start);
    OneMoreVtable(b.cfg, a, start);
  }

  lemma VectorKeepsScratch(st: State, len: nat, elemSize: nat, alignment: nat)
    requires 0 < alignment
    ensures var r := StartVector(st, len, elemSize, alignment); r.vtables == st.vtables && r.fields == st.fields
  {
    hide PaddingBytes;
  }

  lemma {:induction false} OffsetsKeepScratch(st: State, offs: seq<nat>)
    requires Within(offs, |st.data|)
    ensures var r := PushOffsets(st, offs); r.vtables == st.vtables && r.fields == st.fields
    decreases |offs|
  {
    hide PaddingBytes;
    if offs != [] {
      OffsetsKeepScratch(PushOffset(st, offs[|offs| - 1]), offs[..|offs| - 1]);
    }
  }

  /** Only tables leave anything in the scratch area. */
  lemma KeepsScratch(cfg: Config, st: State, offs: seq<nat>, op: Op)
    requires Step(cfg, st, offs, op).Some? && !op.MakeTable?
    ensures var r := Step(cfg, st, offs, op).value.0; r.vtables == st.vtables && r.fields == st.fields
  {
    hide PaddingBytes, PushOffsets, StartVector, FindString;
    match op
    case MakeScalars(size, ns) => VectorKeepsScratch(st, |ns|, size, size);
    case MakeStrings(refs) => ListKeepsScratch(st, Resolve(refs, offs));
    case MakeTables(_, refs) => ListKeepsScratch(st, Resolve(refs, offs));
    case _ =>
  }

  lemma ListKeepsScratch(st: State, offs: seq<nat>)
    requires Within(offs, |st.data|)
    ensures var r := BuilderSpec.CreateOffsetVector(st, offs).0; r.vtables == st.vtables && r.fields == st.fields
  {
    hide PaddingBytes, PushOffsets, StartVector;
    VectorKeepsScratch(st, |offs|, 4, 4);
    OffsetVectorRoom(st, offs);
    OffsetsKeepScratch(StartVector(st, |offs|, 4, 4), offs);
  }

  /** One operation; the result is where its object lies. */
  method DoOp(b: FlatBufferBuilder, offs: seq<nat>, op: Op) returns (off: nat)
    requires Idle(b, offs) && Step(b.cfg, b.st, offs, op).Some?
    requires b.buf.scratch + ScratchNeed([op]) < U32
    modifies b, b.buf, b.buf.buf
    ensures b.Valid() && (b.buf.buf == old(b.buf.buf) || fresh(b.buf.buf)) && b.cfg == old(b.cfg)
    ensures Some((b.st, off)) == Step(b.cfg, old(b.st), offs, op)
    ensures b.buf.scratch <= old(b.buf.scratch) + (if op.MakeTable? then 4 else 0)
  {
    hide CreateString, CreateSharedString, CreateScalarVector, CreateOffsetVector, BuildTable, VtablesOk, PoolInBounds;
    if !op.MakeTable? { KeepsScratch(b.cfg, b.st, offs, op); }
    match op
    case MakeString(str) => off := b.CreateString(str);
    case MakeSharedString(str) => off := b.CreateSharedString(str);
    case MakeScalars(size, ns) => off := b.CreateScalarVector(ns, size);
    case MakeStrings(refs) => off := b.CreateOffsetVector(Resolve(refs, offs));
    case MakeTables(_, refs) => off := b.CreateOffsetVector(Resolve(refs, offs));
    case MakeTable(_, inits) => off := CreateTable(b, offs, inits);
  }

  lemma {:induction false} RunPrefix(cfg: Config, ops: seq<Op>, n: nat)
    requires n <= |ops| && Run(cfg, ops).Some?
    ensures Run(cfg, ops[..n]).Some? && ScratchNeed(ops[..n]) <= ScratchNeed(ops)
    decreases |ops|
  {
    hide Step;
    if n == |ops| {
      assert ops[..n] == ops;
    } else {
      RunPrefix(cfg, ops[..|ops| - 1], n);
      assert ops[..|ops| - 1][..n] == ops[..n];
    }
  }

  /** What the next operation of a run finds. */
  lemma NextOp(cfg: Config, sch: Schema, ops: seq<Op>, n: nat, st: State, offs: seq<nat>)
    requires SchemaOk(sch) && WellTyped(sch, ops) && n < |ops| && Run(cfg, ops).Some?
    requires Run(cfg, ops[..n]) == Some((st, offs))
    ensures st.fields == [] && st.maxVoffset == 0 && !st.nested && !st.finished
    ensures IsAlignment(st.minalign) && Within(offs, |st.data|) && Positive(offs)
    ensures VtablesOk(st.data, st.vtables) && PoolInBounds(st.data, st.pool)
    ensures Step(cfg, st, offs, ops[n]).Some?
    ensures var (r, o) := Step(cfg, st, offs, ops[n]).value; Run(cfg, ops[..n + 1]) == Some((r, offs + [o]))
    ensures ScratchNeed(ops[..n]) + ScratchNeed([ops[n]]) <= ScratchNeed(ops)
    ensures ScratchNeed(ops[..n + 1]) == ScratchNeed(ops[..n]) + ScratchNeed([ops[n]])
  {
    hide Step, VtablesOk, PoolOk, LaidOp, PoolInBounds;
    RunBuilds(cfg, sch, ops, n);
    PoolIsInBounds(st);
    RunPrefix(cfg, ops, n + 1);
    assert ops[..n + 1][..n] == ops[..n];
    assert [ops[n]][..0] == [];
  }

  /** A whole sequence of operations, in place. */
  method Execute(b: FlatBufferBuilder, ghost sch: Schema, ops: seq<Op>) returns (offs: seq<nat>)
    requires b.Valid() && b.st == Empty && SchemaOk(sch) && WellTyped(sch, ops)
    requires Run(b.cfg, ops).Some? && ScratchNeed(ops) < U32
    modifies b, b.buf, b.buf.buf
    ensures b.Valid() && (b.buf.buf == old(b.buf.buf) || fresh(b.buf.buf)) && b.cfg == old(b.cfg)
    ensures Run(b.cfg, ops) == Some((b.st, offs))
  {
    hide Step, SchemaOk, WellTyped, VtablesOk, PoolInBounds;
    var n := 0;
    offs := [];
    while n < |ops|
      invariant 0 <= n <= |ops|
      invariant b.Valid() && (b.buf.buf == old(b.buf.buf) || fresh(b.buf.buf)) && b.cfg == old(b.cfg)
      invariant Run(b.cfg, ops[..n]) == Some((b.st, offs)) && b.buf.scratch <= ScratchNeed(ops[..n])
    {
      NextOp(b.cfg, sch, ops, n, b.st, offs);
      var off := DoOp(b, offs, ops[n]);
      offs := offs + [off];
      n := n + 1;
    }
    assert ops[..n] == ops;
  }

  /** A run and its finished buffer; None when an assertion of the builder fails on the way. */
  function FinishRun(cfg: Config, ops: seq<Op>, n: nat, identifier: Option<seq<Byte>>, sizePrefix: bool): Option<(State, seq<nat>, State)>
    requires n < |ops|
  {
    var (st, offs) :- Run(cfg, ops);
    if 0 < offs[n] <= |st.data| && 0 < st.minalign && |Finish(st, offs[n], identifier, sizePrefix).data| <= MAX_BUFFER_SIZE
    then Some((st, offs, Finish(st, offs[n], identifier, sizePrefix))) else None
  }

  lemma FinishIsFinished(st: State, root: nat, identifier: Option<seq<Byte>>, sizePrefix: bool)
    requires root <= |st.data| && 0 < st.minalign
    ensures Finish(st, root, identifier, sizePrefix).finished
  {
  }

  method BuildBytes(ghost sch: Schema, cfg: Config, ops: seq<Op>, n: nat, identifier: Option<seq<Byte>>, sizePrefix: bool)
    returns (bytes: seq<Byte>)
    requires SchemaOk(sch) && WellTyped(sch, ops) && n < |ops| && IsIdentifier(identifier) && ScratchNeed(ops) < U32
    requires FinishRun(cfg, ops, n, identifier, sizePrefix).Some?
    ensures bytes == FinishRun(cfg, ops, n, identifier, sizePrefix).value.2.data
  {
    hide Run, SchemaOk, WellTyped, Finish, VtablesOk, PoolOk, LaidOp;
    var b := new FlatBufferBuilder(1024, 8);
    b.Configure(cfg.forceDefaults, cfg.dedupVtables);
    var offs := Execute(b, sch, ops);
    assert ops[..|ops|] == ops;
    RunBuilds(cfg, sch, ops, |ops|);
    FinishIsFinished(b.st, offs[n], identifier, sizePrefix);
    b.Finish(offs[n], identifier, sizePrefix);
    bytes := b.GetBuffer();
  }

  /** Accepted by the verifier under every options that allow the buffer's size, depth and tables. */
  ghost predicate Accepted(bytes: seq<Byte>, sch: Schema, t: nat, v: Value, identifier: Option<seq<Byte>>, sizePrefix: bool)
    requires SchemaOk(sch) && t < |sch| && IsIdentifier(identifier)
  {
    forall opts: Options :: SizeOk(bytes, opts) && Depth(v) <= opts.maxDepth && Tables(v) <= opts.maxTables ==>
      if sizePrefix then VerifySizePrefixedBuffer(bytes, sch, opts, t, identifier)
      else VerifyBuffer(bytes, sch, opts, t, identifier)
  }

  lemma FinishedAccepted(cfg: Config, sch: Schema, ops: seq<Op>, n: nat, identifier: Option<seq<Byte>>, sizePrefix: bool,
                         st: State, offs: seq<nat>, f: State)
    requires SchemaOk(sch) && WellTyped(sch, ops) && n < |ops| && ops[n].MakeTable? && ops[n].table < |sch|
    requires IsIdentifier(identifier) && FinishedRun(cfg, ops, n, identifier, sizePrefix, st, offs, f)
    ensures Accepted(f.data, sch, ops[n].table, Denote(sch, ops, n), identifier, sizePrefix)
  {
    hide FinishedRun, SchemaOk, WellTyped, Denote, VerifyBuffer, VerifySizePrefixedBuffer, Depth, Tables, SizeOk;
    var v := Denote(sch, ops, n);
    forall opts: Options | SizeOk(f.data, opts) && Depth(v) <= opts.maxDepth && Tables(v) <= opts.maxTables
      ensures if sizePrefix then VerifySizePrefixedBuffer(f.data, sch, opts, ops[n].table, identifier)
              else VerifyBuffer(f.data, sch, opts, ops[n].table, identifier)
    {
      BuiltIsVerified(cfg, sch, ops, n, identifier, sizePrefix, st, offs, f, opts);
    }
  }

  /** The whole way: the finished bytes read back as the values described by the operations, object by
      object and from the root, and pass the verifier within its limits. */
  method Serialize(ghost sch: Schema, cfg: Config, ops: seq<Op>, n: nat, identifier: Option<seq<Byte>>, sizePrefix: bool)
    returns (bytes: seq<Byte>)
    requires SchemaOk(sch) && WellTyped(sch, ops) && n < |ops| && ops[n].MakeTable? && ops[n].table < |sch|
    requires IsIdentifier(identifier) && ScratchNeed(ops) < U32
    requires FinishRun(cfg, ops, n, identifier, sizePrefix).Some?
    ensures bytes == FinishRun(cfg, ops, n, identifier, sizePrefix).value.2.data
    ensures DecodeRoot(bytes, sch, ops[n].table, Start(sizePrefix)) == Some(Denote(sch, ops, n))
    ensures forall i :: 0 <= i < |ops| ==>
              ReadsBack(bytes, sch, ops, i, FinishRun(cfg, ops, n, identifier, sizePrefix).value.1[i])
    ensures Accepted(bytes, sch, ops[n].table, Denote(sch, ops, n), identifier, sizePrefix)
  {
    hide Run, SchemaOk, WellTyped, Finish, Denote, DecodeRoot, ReadsBack, Accepted;
    bytes := BuildBytes(sch, cfg, ops, n, identifier, sizePrefix);
    ghost var (st, offs, f) := FinishRun(cfg, ops, n, identifier, sizePrefix).value;
    RootRoundTrip(cfg, sch, ops, n, identifier, sizePrefix, st, offs, f);
    FinishedAccepted(cfg, sch, ops, n, identifier, sizePrefix, st, offs, f);
    forall i | 0 <= i < |ops| ensures ReadsBack(bytes, sch, ops, i, offs[i]) {
      RoundTrip(cfg, sch, ops, n, identifier, sizePrefix, st, offs, f, i);
    }
  }
}
