/** When a build succeeds: a bound on the size of every operation, known before it is run, and that no
    assertion of the builder fails if the bounds add up to less than the maximal buffer. */
module BuildSizes {
  import opened Bytes
  import opened Wrappers
  import opened BuilderSpec
  import opened Table
  import opened Schema
  import opened TableLayout
  import opened BuildLaid
  import opened Building
  import opened TableBuild
  import opened BuildRuns
  import opened FinishedBuffers
  import opened VtableWriting
  import opened BuilderRuns

  // ---- bounds ----------------------------------------------------------------------------------

  /** The value with its padding; two more, which also bounds what the scratch area takes. */
  function InitRoom(init: Init): nat {
    match init
    case SetScalar(_, _, _, size) => 2 * size + 2
    case SetRef(_, _) => 12
  }

  function InitsRoom(inits: seq<Init>): nat {
    if inits == [] then 0 else InitsRoom(inits[..|inits| - 1]) + InitRoom(inits[|inits| - 1])
  }

  function MaxId(inits: seq<Init>): nat {
    if inits == [] then 0 else Max(MaxId(inits[..|inits| - 1]), inits[|inits| - 1].id)
  }

  /** At most this many bytes are added, padding and vtable included. */
  function Room(op: Op): nat {
    match op
    case MakeString(str) => |str| + 12
    case MakeSharedString(str) => |str| + 12
    case MakeScalars(size, ns) => |ns| * size + size + 10
    case MakeStrings(refs) => 4 * |refs| + 10
    case MakeTables(_, refs) => 4 * |refs| + 10
    case MakeTable(_, inits) => InitsRoom(inits) + MaxId(inits) + 12
  }

  function RoomOf(ops: seq<Op>): nat {
    if ops == [] then 0 else RoomOf(ops[..|ops| - 1]) + Room(ops[|ops| - 1])
  }

  /** What the generated code guarantees of a table's fields; a table stays below 64K. */
  predicate Legal(op: Op, n: nat) {
    op.MakeTable? ==>
      && InitsRoom(op.inits) + 8 < U16
      && (forall k :: 0 <= k < |op.inits| ==> InitLegal(op.inits[k], n))
      && forall j, k :: 0 <= j < k < |op.inits| ==> op.inits[j].id != op.inits[k].id
  }

  predicate InitLegal(init: Init, n: nat) {
    IsFieldId(init.id) &&
    match init
    case SetScalar(_, v, _, size) => IsScalarSize(size) && v < Pow256(size)
    case SetRef(_, ref) => ref.Some? ==> ref.value < n
  }

  // ---- proof -----------------------------------------------------------------------------------

  lemma PadBound(n: nat, size: nat)
    requires size > 0
    ensures PaddingBytes(n, size) < size
  {
  }

  lemma PushRoom(st: State, v: nat, size: nat)
    requires size > 0
    ensures |st.data| + size <= |PushScalar(st, v, size).data| <= |st.data| + 2 * size - 1
  {
    hide PaddingBytes;
    PadBound(|st.data|, size);
  }

  lemma AlignRoom(st: State, size: nat)
    requires size > 0
    ensures |st.data| <= |Align(st, size).data| <= |st.data| + size - 1
  {
    hide PaddingBytes;
    PadBound(|st.data|, size);
  }

  lemma PreAlignRoom(st: State, len: nat, alignment: nat)
    requires alignment > 0
    ensures |st.data| <= |PreAlign(st, len, alignment).data| <= |st.data| + alignment - 1
  {
    hide PaddingBytes;
    PadBound(|st.data| + len, alignment);
  }

  lemma AddInitRoom(cfg: Config, st: State, offs: seq<nat>, init: Init)
    requires InitOk(init, offs) && Within(offs, |st.data|)
    ensures var r := AddInit(cfg, st, offs, init);
            |r.data| <= |st.data| + InitRoom(init) && r.maxVoffset <= Max(st.maxVoffset, init.id)
  {
    hide Align, PushScalar;
    match init
    case SetScalar(id, v, def, size) =>
      PushRoom(st, v, size);
      PushKeeps(st, v, size);
    case SetRef(id, ref) =>
      var off := RefOffset(ref, offs);
      AlignRoom(st, 4);
      var a := Align(st, 4);
      assert off <= |st.data| <= |a.data|;
      PushRoom(a, ReferTo(off, |a.data|), 4);
      AlignKeeps(st, 4);
      PushKeeps(a, ReferTo(off, |a.data|), 4);
  }

  lemma AlignKeeps(st: State, size: nat)
    requires size > 0
    ensures Align(st, size).maxVoffset == st.maxVoffset
  {
  }

  lemma PushKeeps(st: State, v: nat, size: nat)
    requires size > 0
    ensures PushScalar(st, v, size).maxVoffset == st.maxVoffset
  {
  }

  lemma {:induction false} AddInitsRoom(cfg: Config, st: State, offs: seq<nat>, inits: seq<Init>)
    requires InitsOk(inits, offs) && Within(offs, |st.data|)
    ensures var r := AddInits(cfg, st, offs, inits);
            |r.data| <= |st.data| + InitsRoom(inits) && r.maxVoffset <= Max(st.maxVoffset, MaxId(inits))
    decreases |inits|
  {
    hide AddInit, InitOk;
    if inits != [] {
      var front, last := inits[..|inits| - 1], inits[|inits| - 1];
      InitsPrefix(inits, offs);
      AddInitsRoom(cfg, st, offs, front);
      AddInitRoom(cfg, AddInits(cfg, st, offs, front), offs, last);
    }
  }

  lemma {:induction false} MaxIdSmall(inits: seq<Init>, n: nat)
    requires forall k :: 0 <= k < |inits| ==> InitLegal(inits[k], n)
    ensures MaxId(inits) <= 65532
  {
    if inits != [] {
      MaxIdSmall(inits[..|inits| - 1], n);
      assert InitLegal(inits[|inits| - 1], n);
    }
  }

  lemma LegalIsOk(inits: seq<Init>, offs: seq<nat>, t: nat)
    requires Legal(MakeTable(t, inits), |offs|)
    ensures InitsOk(inits, offs)
  {
    forall k | 0 <= k < |inits| ensures InitOk(inits[k], offs) {
      assert InitLegal(inits[k], |offs|);
    }
  }

  lemma VtableSmall(m: nat)
    requires m <= 65532
    ensures VtableSize(m) <= m + 4
  {
  }

  lemma TableEndRoom(data: seq<Byte>)
    ensures |data| < TableEnd(data) <= |data| + 7
  {
    hide PaddingBytes;
    PadBound(|data|, 4);
  }

  lemma ClosedRoom(cfg: Config, a: State, start: nat)
    requires start <= |a.data| && VtablesInBounds(a.data, a.vtables)
    ensures |EndTable(cfg, a, start).0.data| <= TableEnd(a.data) + VtableSize(a.maxVoffset)
  {
    hide FindVtable, VtableSize, TableEnd;
  }

  lemma TableRoom(cfg: Config, st: State, offs: seq<nat>, t: nat, inits: seq<Init>)
    requires st.fields == [] && st.maxVoffset == 0 && IsAlignment(st.minalign) && Within(offs, |st.data|) && Positive(offs)
    requires VtablesOk(st.data, st.vtables) && Legal(MakeTable(t, inits), |offs|)
    requires |st.data| + Room(MakeTable(t, inits)) <= MAX_BUFFER_SIZE
    ensures InitsOk(inits, offs) && BuildTable(cfg, st, offs, inits).Some?
    ensures |BuildTable(cfg, st, offs, inits).value.0.data| <= |st.data| + Room(MakeTable(t, inits))
  {
    hide AddInits, VtablesOk, FieldsOk, PaddingBytes, Holds, InitsOk, InitLegal, EndTable, TableEnd, VtableSize;
    LegalIsOk(inits, offs, t);
    MaxIdSmall(inits, |offs|);
    var s := StartTable(st);
    var a := AddInits(cfg, s, offs, inits);
    AddInitsRoom(cfg, s, offs, inits);
    AddInitsStore(cfg, s, offs, inits);
    GrewExtends(a, s);
    VtablesStable(a.data, s.data, s.vtables);
    AllInBounds(a.data, a.vtables);
    TableEndRoom(a.data);
    VtableSmall(a.maxVoffset);
    ClosedRoom(cfg, a, |st.data|);
  }

  lemma StringRoom(st: State, str: seq<Byte>)
    ensures |CreateString(st, str).0.data| <= |st.data| + |str| + 12
  {
    hide PreAlign, PushScalar;
    PreAlignRoom(st, |str| + 1, 4);
    var a := Push(PreAlign(st, |str| + 1, 4), [0]);
    PushRoom(Push(a, str), |str|, 4);
  }

  lemma SharedRoom(st: State, str: seq<Byte>)
    requires PoolInBounds(st.data, st.pool)
    ensures |CreateSharedString(st, str).0.data| <= |st.data| + |str| + 12
  {
    hide CreateString, FindString;
    StringRoom(st, str);
  }

  lemma ScalarsRoom(st: State, ns: seq<nat>, size: nat)
    requires size > 0
    ensures |CreateScalarVector(st, ns, size).0.data| <= |st.data| + |ns| * size + size + 10
  {
    hide PreAlign, PushScalar, Scalars;
    var n := |ns| * size;
    var b := st.(nested := true);
    PreAlignRoom(b, n, 4);
    PreAlignRoom(PreAlign(b, n, 4), n, size);
    var c := Push(StartVector(st, |ns|, size, size), Scalars(ns, size));
    PushRoom(c.(nested := false), |ns|, 4);
  }

  lemma OffsetsRoom(st: State, offs: seq<nat>)
    requires IsAlignment(st.minalign) && Within(offs, |st.data|) && Positive(offs)
    requires |st.data| + 4 * |offs| + 10 <= MAX_BUFFER_SIZE
    ensures |CreateOffsetVector(st, offs).0.data| <= |st.data| + 4 * |offs| + 10
  {
    hide PreAlign, PushScalar, StartVector, PushOffsets;
    StartVectorShort(st, |offs|);
    StartVectorGrows(st, |offs|, 4);
    var a := StartVector(st, |offs|, 4, 4);
    if offs != [] {
      PushOffsetsLay(a, offs);
    } else {
      PushNoOffsets(a, offs);
    }
    PushRoom(PushOffsets(a, offs).(nested := false), |offs|, 4);
  }

  lemma ResolvedOk(refs: seq<nat>, offs: seq<nat>, size: nat)
    requires RefsWithin(refs, |offs|) && Within(offs, size) && Positive(offs)
    ensures Within(Resolve(refs, offs), size) && Positive(Resolve(refs, offs))
  {
  }

  lemma TypedRefs(sch: Schema, ops: seq<Op>, m: nat)
    requires m < |ops| && OpTyped(sch, ops, m)
    ensures ops[m].MakeScalars? ==> ops[m].size > 0
    ensures ops[m].MakeStrings? || ops[m].MakeTables? ==> RefsWithin(ops[m].refs, m)
  {
    hide OpType;
  }

  /** An operation for which there is room succeeds and takes no more than its room. */
  lemma StepRoom(cfg: Config, sch: Schema, ops: seq<Op>, m: nat, st: State, offs: seq<nat>)
    requires SchemaOk(sch) && WellTyped(sch, ops) && m < |ops| && Built(sch, ops, m, st, offs) && Legal(ops[m], m)
    requires |st.data| + Room(ops[m]) <= MAX_BUFFER_SIZE
    ensures Step(cfg, st, offs, ops[m]).Some?
    ensures |Step(cfg, st, offs, ops[m]).value.0.data| <= |st.data| + Room(ops[m])
  {
    hide OpTyped, LaidOp, VtablesOk, PoolOk, CreateString, CreateSharedString, CreateScalarVector, CreateOffsetVector,
         BuildTable, Legal, Resolve, PoolInBounds, InitsOk, IsAlignment;
    assert OpTyped(sch, ops, m);
    TypedRefs(sch, ops, m);
    match ops[m]
    case MakeString(str) => StringRoom(st, str);
    case MakeSharedString(str) =>
      PoolIsInBounds(st);
      StringRoom(st, str);
      SharedRoom(st, str);
    case MakeScalars(size, ns) => ScalarsRoom(st, ns, size);
    case MakeStrings(refs) =>
      ResolvedOk(refs, offs, |st.data|);
      OffsetsRoom(st, Resolve(refs, offs));
    case MakeTables(_, refs) =>
      ResolvedOk(refs, offs, |st.data|);
      OffsetsRoom(st, Resolve(refs, offs));
    case MakeTable(t, inits) => TableRoom(cfg, st, offs, t, inits);
  }

  predicate AllLegal(ops: seq<Op>) {
    forall n :: 0 <= n < |ops| ==> Legal(ops[n], n)
  }

  lemma {:induction false} RunSucceeds(cfg: Config, sch: Schema, ops: seq<Op>, m: nat)
    requires SchemaOk(sch) && WellTyped(sch, ops) && AllLegal(ops) && m <= |ops| && RoomOf(ops[..m]) <= MAX_BUFFER_SIZE
    ensures Run(cfg, ops[..m]).Some? && |Run(cfg, ops[..m]).value.0.data| <= RoomOf(ops[..m])
  {
    hide Step, Room, Legal, Built, WellTyped, SchemaOk;
    if m > 0 {
      assert ops[..m][..m - 1] == ops[..m - 1];
      RunSucceeds(cfg, sch, ops, m - 1);
      RunBuilds(cfg, sch, ops, m - 1);
      var (st, offs) := Run(cfg, ops[..m - 1]).value;
      StepRoom(cfg, sch, ops, m - 1, st, offs);
    }
  }

  /** Padding up to the largest alignment, and the header. */
  const HEADER_ROOM: nat := 52

  lemma FinishRoom(st: State, root: nat, identifier: Option<seq<Byte>>, sizePrefix: bool)
    requires IsAlignment(st.minalign) && root <= |st.data| && IsIdentifier(identifier)
    ensures |Finish(st, root, identifier, sizePrefix).data| <= |st.data| + HEADER_ROOM
  {
    hide PreAlign, PushScalar, Align, ReferTo;
    var header := FinishHeader(identifier, sizePrefix);
    var t := TrackMinAlign(st.(vtables := []), if sizePrefix then 4 else 0);
    PreAlignRoom(t, header, t.minalign);
    var a := PreAlign(t, header, t.minalign);
    var b := match identifier { case Some(id) => Push(a, id) case None => a };
    AlignRoom(b, 4);
    var c := Align(b, 4);
    PushRoom(c, ReferTo(root, |c.data|), 4);
    var d := PushScalar(c, ReferTo(root, |c.data|), 4);
    PushRoom(d, |d.data|, 4);
  }

  /** No assertion of the builder fails on the way if, before the build, the bounds add up to less than
      the maximal buffer. */
  lemma BuildSucceeds(cfg: Config, sch: Schema, ops: seq<Op>, n: nat, identifier: Option<seq<Byte>>, sizePrefix: bool)
    requires SchemaOk(sch) && WellTyped(sch, ops) && AllLegal(ops) && n < |ops| && IsIdentifier(identifier)
    requires RoomOf(ops) + HEADER_ROOM <= MAX_BUFFER_SIZE
    ensures FinishRun(cfg, ops, n, identifier, sizePrefix).Some?
    ensures |FinishRun(cfg, ops, n, identifier, sizePrefix).value.2.data| <= RoomOf(ops) + HEADER_ROOM
  {
    hide Run, WellTyped, SchemaOk, AllLegal, Finish, LaidOp, VtablesOk, PoolOk;
    assert ops[..|ops|] == ops;
    RunSucceeds(cfg, sch, ops, |ops|);
    RunBuilds(cfg, sch, ops, |ops|);
    var (st, offs) := Run(cfg, ops).value;
    FinishRoom(st, offs[n], identifier, sizePrefix);
  }

  lemma {:induction false} ScratchIsSmall(ops: seq<Op>)
    requires AllLegal(ops)
    ensures ScratchNeed(ops) <= 2 * RoomOf(ops)
  {
    if ops != [] {
      var front, last := ops[..|ops| - 1], ops[|ops| - 1];
      assert Legal(last, |front|);
      ScratchIsSmall(front);
      if last.MakeTable? { InitsNeedRoom(last.inits, |front|); }
    }
  }

  lemma {:induction false} InitsNeedRoom(inits: seq<Init>, n: nat)
    requires forall k :: 0 <= k < |inits| ==> InitLegal(inits[k], n)
    ensures 4 * |inits| <= InitsRoom(inits)
  {
    if inits != [] {
      InitsNeedRoom(inits[..|inits| - 1], n);
      assert InitLegal(inits[|inits| - 1], n);
    }
  }

  /** The end-to-end round trip under conditions a caller can check before building: operations of the
      right kinds, and bounds that add up to less than the maximal buffer. */
  method SerializeSized(ghost sch: Schema, cfg: Config, ops: seq<Op>, n: nat, identifier: Option<seq<Byte>>, sizePrefix: bool)
    returns (bytes: seq<Byte>)
    requires SchemaOk(sch) && WellTyped(sch, ops) && n < |ops| && ops[n].MakeTable? && ops[n].table < |sch|
    requires AllLegal(ops) && IsIdentifier(identifier) && RoomOf(ops) + HEADER_ROOM <= MAX_BUFFER_SIZE
    ensures |bytes| <= RoomOf(ops) + HEADER_ROOM
    ensures DecodeRoot(bytes, sch, ops[n].table, Start(sizePrefix)) == Some(Denote(sch, ops, n))
    ensures Accepted(bytes, sch, ops[n].table, Denote(sch, ops, n), identifier, sizePrefix)
  {
    hide SchemaOk, WellTyped, AllLegal, FinishRun, Denote, DecodeRoot, Accepted, ReadsBack;
    BuildSucceeds(cfg, sch, ops, n, identifier, sizePrefix);
    ScratchIsSmall(ops);
    bytes := Serialize(sch, cfg, ops, n, identifier, sizePrefix);
  }
}
