/** Whole builds: sequences of builder operations that refer to earlier results, what they mean, and
    when they respect the builder's assertions and the schema. */
module Building {
  import opened Bytes
  import opened Wrappers
  import opened BuilderSpec
  import opened Table
  import opened Schema
  import opened TableLayout

  datatype Init =
    | SetScalar(id: nat, v: nat, def: nat, size: nat)     // AddElement
    | SetRef(id: nat, ref: Option<nat>)                   // AddOffset of an earlier result, or of null

  /** Operations; references are indices of earlier operations. */
  datatype Op =
    | MakeString(str: seq<Byte>)
    | MakeSharedString(str: seq<Byte>)
    | MakeScalars(size: nat, ns: seq<nat>)
    | MakeStrings(refs: seq<nat>)
    | MakeTables(table: nat, refs: seq<nat>)
    | MakeTable(table: nat, inits: seq<Init>)

  // ---- running ---------------------------------------------------------------------------------

  predicate RefsWithin(refs: seq<nat>, n: nat) {
    forall k :: 0 <= k < |refs| ==> refs[k] < n
  }

  function Resolve(refs: seq<nat>, offs: seq<nat>): (r: seq<nat>)
    requires RefsWithin(refs, |offs|)
    ensures |r| == |refs| && forall k :: 0 <= k < |r| ==> r[k] == offs[refs[k]]
  {
    seq(|refs|, k requires 0 <= k < |refs| => offs[refs[k]])
  }

  function RefOffset(ref: Option<nat>, offs: seq<nat>): nat
    requires ref.Some? ==> ref.value < |offs|
  {
    match ref case Some(r) => offs[r] case None => 0
  }

  predicate InitOk(init: Init, offs: seq<nat>) {
    match init
    case SetScalar(id, v, def, size) => IsScalarSize(size) && IsFieldId(id) && v < Pow256(size)
    case SetRef(id, ref) => IsFieldId(id) && (ref.Some? ==> ref.value < |offs|)
  }

  function AddInit(cfg: Config, st: State, offs: seq<nat>, init: Init): (r: State)
    requires InitOk(init, offs) && Within(offs, |st.data|)
    ensures |st.data| <= |r.data|
  {
    match init
    case SetScalar(id, v, def, size) => AddElement(cfg, st, id, v, def, size)
    case SetRef(id, ref) => AddOffset(cfg, st, id, RefOffset(ref, offs))
  }

  predicate InitsOk(inits: seq<Init>, offs: seq<nat>) {
    && (forall k :: 0 <= k < |inits| ==> InitOk(inits[k], offs))
    && forall j, k :: 0 <= j < k < |inits| ==> inits[j].id != inits[k].id
  }

  lemma InitsPrefix(inits: seq<Init>, offs: seq<nat>)
    requires InitsOk(inits, offs) && inits != []
    ensures InitsOk(inits[..|inits| - 1], offs) && InitOk(inits[|inits| - 1], offs)
  {
  }

  function AddInits(cfg: Config, st: State, offs: seq<nat>, inits: seq<Init>): (r: State)
    requires InitsOk(inits, offs) && Within(offs, |st.data|)
    ensures |st.data| <= |r.data|
  {
    if inits == [] then st
    else
      InitsPrefix(inits, offs);
      AddInit(cfg, AddInits(cfg, st, offs, inits[..|inits| - 1]), offs, inits[|inits| - 1])
  }

  /** The generated Create functions: StartTable, one add per field, EndTable.  None when an assertion
      of the builder fails: a table of 64K or more, or a buffer past its maximal size. */
  function BuildTable(cfg: Config, st: State, offs: seq<nat>, inits: seq<Init>): Option<(State, nat)>
    requires InitsOk(inits, offs) && Within(offs, |st.data|)
  {
    var a := AddInits(cfg, StartTable(st), offs, inits);
    if TableEnd(a.data) - |st.data| < U16 && TableEnd(a.data) + VtableSize(a.maxVoffset) < MAX_BUFFER_SIZE
       && VtablesInBounds(a.data, a.vtables)
    then Some(EndTable(cfg, a, |st.data|))
    else None
  }

  function Sized(r: (State, nat)): Option<(State, nat)> {
    if |r.0.data| <= MAX_BUFFER_SIZE then Some(r) else None
  }

  function Step(cfg: Config, st: State, offs: seq<nat>, op: Op): Option<(State, nat)> {
    if !Within(offs, |st.data|) then None
    else
      match op
      case MakeString(str) => Sized(CreateString(st, str))
      case MakeSharedString(str) =>
        if PoolInBounds(st.data, st.pool) && Sized(CreateString(st, str)).Some? then Some(CreateSharedString(st, str)) else None
      case MakeScalars(size, ns) => if size > 0 then Sized(CreateScalarVector(st, ns, size)) else None
      case MakeStrings(refs) => if RefsWithin(refs, |offs|) then Sized(CreateOffsetVector(st, Resolve(refs, offs))) else None
      case MakeTables(t, refs) => if RefsWithin(refs, |offs|) then Sized(CreateOffsetVector(st, Resolve(refs, offs))) else None
      case MakeTable(t, inits) => if InitsOk(inits, offs) then BuildTable(cfg, st, offs, inits) else None
  }

  /** Runs the operations in order and collects where each result lies. */
  function Run(cfg: Config, ops: seq<Op>): (r: Option<(State, seq<nat>)>)
    ensures r.Some? ==> |r.value.1| == |ops|
  {
    if ops == [] then Some((Empty, []))
    else
      var (st, offs) :- Run(cfg, ops[..|ops| - 1]);
      var (st', o) :- Step(cfg, st, offs, ops[|ops| - 1]);
      Some((st', offs + [o]))
  }

  // ---- meaning ---------------------------------------------------------------------------------

  function OpType(op: Op): FieldType {
    match op
    case MakeString(_) => TString
    case MakeSharedString(_) => TString
    case MakeScalars(size, _) => TScalarVector(size)
    case MakeStrings(_) => TStringVector
    case MakeTables(t, _) => TTableVector(t)
    case MakeTable(t, _) => TTable(t)
  }

  function FindInit(inits: seq<Init>, id: nat): Option<Init> {
    if inits == [] then None
    else if inits[|inits| - 1].id == id then Some(inits[|inits| - 1])
    else FindInit(inits[..|inits| - 1], id)
  }

  /** The scalar a table's operations give a field. */
  function ScalarOf(inits: seq<Init>, id: nat, def: nat): nat {
    match FindInit(inits, id)
    case Some(SetScalar(_, v, _, _)) => v
    case _ => def
  }

  function RefOf(inits: seq<Init>, id: nat): Option<nat> {
    match FindInit(inits, id)
    case Some(SetRef(_, ref)) => ref
    case _ => None
  }

  predicate FieldTyped(sch: Schema, ops: seq<Op>, n: nat, t: nat, inits: seq<Init>, k: nat)
    requires n <= |ops| && t < |sch| && k < |sch[t]|
  {
    var id := sch[t][k].id;
    match sch[t][k].ty
    case TScalar(size, def) =>
      (match FindInit(inits, id)
       case Some(SetScalar(_, v, d, s)) => s == size && d == def && v < Pow256(size)
       case Some(SetRef(_, _)) => false
       case None => true)
    case TUnion(typeField, members) =>
      var w := ScalarOf(inits, typeField, 0);
      (match FindInit(inits, id)
       case Some(SetScalar(_, _, _, _)) => false
       case Some(SetRef(_, Some(r))) => r < n && (w in members ==> OpType(ops[r]) == TTable(members[w]))
       case _ => true)
    case ty =>
      (match FindInit(inits, id)
       case Some(SetScalar(_, _, _, _)) => false
       case Some(SetRef(_, Some(r))) => r < n && OpType(ops[r]) == ty
       case _ => true)
  }

  /** Operation n uses earlier results of the right kinds. */
  predicate OpTyped(sch: Schema, ops: seq<Op>, n: nat)
    requires n < |ops|
  {
    match ops[n]
    case MakeString(str) => |str| < U31
    case MakeSharedString(str) => |str| < U31
    case MakeScalars(size, ns) =>
      IsScalarSize(size) && |ns| < U31 && forall i :: 0 <= i < |ns| ==> ns[i] < Pow256(size)
    case MakeStrings(refs) =>
      |refs| < U31 && forall i :: 0 <= i < |refs| ==> refs[i] < n && OpType(ops[refs[i]]) == TString
    case MakeTables(t, refs) =>
      t < |sch| && |refs| < U31 && forall i :: 0 <= i < |refs| ==> refs[i] < n && OpType(ops[refs[i]]) == TTable(t)
    case MakeTable(t, inits) =>
      && t < |sch|
      && (forall k :: 0 <= k < |sch[t]| ==> FieldTyped(sch, ops, n, t, inits, k))
  }

  predicate WellTyped(sch: Schema, ops: seq<Op>) {
    forall n :: 0 <= n < |ops| ==> OpTyped(sch, ops, n)
  }

  /** The value operation n describes, with no reference to bytes, offsets or sharing. */
  ghost function Denote(sch: Schema, ops: seq<Op>, n: nat): (v: Value)
    requires n < |ops| && WellTyped(sch, ops)
    decreases n, 2
  {
    assert OpTyped(sch, ops, n);
    match ops[n]
    case MakeString(str) => VString(str)
    case MakeSharedString(str) => VString(str)
    case MakeScalars(_, ns) => VScalars(ns)
    case MakeStrings(refs) =>
      VList(seq(|refs|, i requires 0 <= i < |refs| => assert refs[i] < n; Denote(sch, ops, refs[i])))
    case MakeTables(_, refs) =>
      VList(seq(|refs|, i requires 0 <= i < |refs| => assert refs[i] < n; Denote(sch, ops, refs[i])))
    case MakeTable(t, inits) =>
      VTable(seq(|sch[t]|, k requires 0 <= k < |sch[t]| => DenoteField(sch, ops, n, k)))
  }

  ghost function DenoteField(sch: Schema, ops: seq<Op>, n: nat, k: nat): (v: Value)
    requires n < |ops| && WellTyped(sch, ops) && ops[n].MakeTable? && ops[n].table < |sch| && k < |sch[ops[n].table]|
    decreases n, 1
  {
    assert OpTyped(sch, ops, n);
    assert FieldTyped(sch, ops, n, ops[n].table, ops[n].inits, k);
    var inits := ops[n].inits;
    var id := sch[ops[n].table][k].id;
    match sch[ops[n].table][k].ty
    case TScalar(_, def) => VScalar(ScalarOf(inits, id, def))
    case TUnion(typeField, members) =>
      (match RefOf(inits, id)
       case Some(r) => if ScalarOf(inits, typeField, 0) in members then Denote(sch, ops, r) else VNull
       case None => VNull)
    case _ =>
      (match RefOf(inits, id)
       case Some(r) => Denote(sch, ops, r)
       case None => VNull)
  }
}
