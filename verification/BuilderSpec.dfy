module Wrappers {
  datatype Option<+T> = None | Some(value: T) {
    predicate IsFailure() { None? }
    function PropagateFailure<U>(): Option<U>
      requires None?
    {
      None
    }
    function UnwrapOr(default: T): T {
      match this case Some(v) => v case None => default
    }
    function Extract(): T
      requires Some?
    {
      value
    }
  }
}

/** What the builder's operations do to its buffer, as functions on values.  All offsets are
    distances from the end of the buffer. */
module BuilderSpec {
  import opened Bytes
  import opened Wrappers

  /** FLATBUFFERS_MAX_BUFFER_SIZE: the largest soffset_t. */
  const MAX_BUFFER_SIZE: nat := 0x7FFF_FFFF

  /** A field of the table under construction: where its value lies and its vtable offset. */
  datatype FieldLoc = FieldLoc(off: nat, id: nat)

  datatype Config = Config(forceDefaults: bool, dedupVtables: bool)

  datatype State = State(
    data: seq<Byte>,          // the buffer, lowest address first
    vtables: seq<nat>,        // where the vtables written so far lie
    fields: seq<FieldLoc>,    // the fields of the open table
    maxVoffset: nat,          // the largest vtable offset among them
    nested: bool,
    finished: bool,
    minalign: nat,
    pool: seq<nat>)           // where the shared strings lie

  const Empty := State([], [], [], 0, false, false, 1, [])

  // ---- scalars ---------------------------------------------------------------------------------

  function TrackMinAlign(st: State, a: nat): State {
    st.(minalign := Max(st.minalign, a))
  }

  function Push(st: State, bytes: seq<Byte>): State {
    st.(data := bytes + st.data)
  }

  function Align(st: State, size: nat): State
    requires size > 0
  {
    Push(TrackMinAlign(st, size), Zeros(PaddingBytes(|st.data|, size)))
  }

  function PushScalar(st: State, v: nat, size: nat): State
    requires size > 0
  {
    Push(Align(st, size), LE(v, size))
  }

  /** Aligns so that an object of `alignment` can follow `len` more bytes without padding. */
  function PreAlign(st: State, len: nat, alignment: nat): State
    requires alignment > 0
  {
    if len == 0 then st
    else Push(TrackMinAlign(st, alignment), Zeros(PaddingBytes(|st.data| + len, alignment)))
  }

  /** The value of an offset field stored when the buffer has `size` bytes. */
  function ReferTo(off: nat, size: nat): nat
    requires off <= size
  {
    size - off + 4
  }

  function PushOffset(st: State, off: nat): State
    requires off <= |st.data|
  {
    var a := Align(st, 4);
    PushScalar(a, ReferTo(off, |a.data|), 4)
  }

  // ---- tables ----------------------------------------------------------------------------------

  function StartTable(st: State): State {
    st.(nested := true)
  }

  function TrackField(st: State, id: nat, off: nat): State {
    st.(fields := st.fields + [FieldLoc(off, id)], maxVoffset := Max(st.maxVoffset, id))
  }

  function AddElement(cfg: Config, st: State, id: nat, v: nat, def: nat, size: nat): State
    requires size > 0
  {
    if v == def && !cfg.forceDefaults then st
    else var a := PushScalar(st, v, size); TrackField(a, id, |a.data|)
  }

  function AddOffset(cfg: Config, st: State, id: nat, off: nat): State
    requires off <= |st.data|
  {
    if off == 0 then st
    else var a := Align(st, 4); AddElement(cfg, a, id, ReferTo(off, |a.data|), 0, 4)
  }

  function Lookup(fields: seq<FieldLoc>, id: nat): Option<nat> {
    if fields == [] then None
    else if fields[|fields| - 1].id == id then Some(fields[|fields| - 1].off)
    else Lookup(fields[..|fields| - 1], id)
  }

  /** The vtable entry of field `id` for a table starting at `loc`: the distance from the table's
      start to the field, or 0 when the field is absent. */
  function Entry(fields: seq<FieldLoc>, id: nat, loc: nat): nat {
    match Lookup(fields, id)
    case Some(off) => if off <= loc then loc - off else 0
    case None => 0
  }

  function VtableByte(fields: seq<FieldLoc>, size: nat, objectSize: nat, loc: nat, i: nat): Byte {
    LE(if i < 2 then size else if i < 4 then objectSize else Entry(fields, i - i % 2, loc), 2)[i % 2]
  }

  /** A vtable: its own size, the size of the table, and one 16-bit entry per field. */
  function Vtable(fields: seq<FieldLoc>, size: nat, objectSize: nat, loc: nat): (vt: seq<Byte>)
    ensures |vt| == size
  {
    seq(size, i requires 0 <= i => VtableByte(fields, size, objectSize, loc, i))
  }

  /** `max_voffset_ + sizeof(voffset_t)` as a voffset_t, but at least room for the two sizes. */
  function VtableSize(maxVoffset: nat): nat {
    Max((maxVoffset + 2) % U16, 4)
  }

  predicate VtableInBounds(data: seq<Byte>, v: nat) {
    2 <= v <= |data| && At(data, v, 2) <= v
  }

  predicate VtablesInBounds(data: seq<Byte>, vtables: seq<nat>) {
    forall k :: 0 <= k < |vtables| ==> VtableInBounds(data, vtables[k])
  }

  /** The bytes of the vtable at distance v. */
  function VtableBytes(data: seq<Byte>, v: nat): seq<Byte>
    requires VtableInBounds(data, v)
  {
    Tail(data, v)[..At(data, v, 2)]
  }

  /** The first recorded vtable that is byte for byte equal to `vt`. */
  function FindVtable(data: seq<Byte>, vtables: seq<nat>, vt: seq<Byte>): (r: Option<nat>)
    requires VtablesInBounds(data, vtables)
    ensures r.Some? ==> VtableInBounds(data, r.value) && VtableBytes(data, r.value) == vt
    ensures r.Some? ==> exists k :: 0 <= k < |vtables| && vtables[k] == r.value
    ensures r.None? ==> forall k :: 0 <= k < |vtables| ==> VtableBytes(data, vtables[k]) != vt
  {
    if vtables == [] then None
    else if VtableBytes(data, vtables[0]) == vt then Some(vtables[0])
    else
      var r := FindVtable(data, vtables[1..], vt);
      assert forall k :: 0 < k < |vtables| ==> vtables[k] == vtables[1..][k - 1];
      r
  }

  /** The vtable of the open table, if the table starts at `loc`. */
  function WantedVtable(st: State, start: nat, loc: nat): seq<Byte>
    requires start <= loc
  {
    Vtable(st.fields, VtableSize(st.maxVoffset), (loc - start) % U16, loc)
  }

  /** The start of a table: padding, then the signed offset from the table to its vtable. */
  function TableBody(data: seq<Byte>, delta: int): (body: seq<Byte>)
    ensures |body| == TableEnd(data)
  {
    LE(Wrap32(delta), 4) + (Zeros(PaddingBytes(|data|, 4)) + data)
  }

  /** Where a table closed now would lie. */
  function TableEnd(data: seq<Byte>): nat {
    |data| + PaddingBytes(|data|, 4) + 4
  }

  function Close(st: State, data: seq<Byte>, vtables: seq<nat>): State {
    TrackMinAlign(st, 4).(data := data, vtables := vtables, nested := false, fields := [], maxVoffset := 0)
  }

  /** Closes the table opened at size `start`; the result is where the table lies. */
  function EndTable(cfg: Config, st: State, start: nat): (r: (State, nat))
    requires start <= |st.data| && VtablesInBounds(st.data, st.vtables)
  {
    var loc := TableEnd(st.data);
    var vt := WantedVtable(st, start, loc);
    var shared := if cfg.dedupVtables then FindVtable(st.data, st.vtables, vt) else None;
    if shared.Some? then
      (Close(st, TableBody(st.data, shared.value - loc), st.vtables), loc)
    else
      (Close(st, vt + TableBody(st.data, |vt|), st.vtables + [loc + |vt|]), loc)
  }

  // ---- strings and vectors ---------------------------------------------------------------------

  /** CreateStringImpl: the length, the characters, a terminating zero. */
  function CreateString(st: State, str: seq<Byte>): (r: (State, nat)) {
    var a := Push(PreAlign(st, |str| + 1, 4), [0]);
    var b := PushScalar(Push(a, str), |str|, 4);
    (b, |b.data|)
  }

  // memcmp over sequences of the same length: the sign of the first difference.
  function MemCmp(a: seq<Byte>, b: seq<Byte>): int
    requires |a| == |b|
  {
    if a == [] then 0 else if a[0] != b[0] then a[0] - b[0] else MemCmp(a[1..], b[1..])
  }

  /** StringLessThan: compare the common length, then the lengths. */
  predicate StringLess(a: seq<Byte>, b: seq<Byte>) {
    var n := if |a| < |b| then |a| else |b|;
    var cmp := MemCmp(a[..n], b[..n]);
    if cmp == 0 then |a| < |b| else cmp < 0
  }

  predicate StringInBounds(data: seq<Byte>, p: nat) {
    4 <= p <= |data| && 4 + At(data, p, 4) <= p
  }

  predicate PoolInBounds(data: seq<Byte>, pool: seq<nat>) {
    forall k :: 0 <= k < |pool| ==> StringInBounds(data, pool[k])
  }

  function StringBytes(data: seq<Byte>, p: nat): seq<Byte>
    requires StringInBounds(data, p)
  {
    Tail(data, p)[4..4 + At(data, p, 4)]
  }

  /** The pooled string that the pool's ordering does not tell apart from `str`. */
  function FindString(data: seq<Byte>, pool: seq<nat>, str: seq<Byte>): (r: Option<nat>)
    requires PoolInBounds(data, pool)
  {
    if pool == [] then None
    else
      var other := StringBytes(data, pool[0]);
      if !StringLess(other, str) && !StringLess(str, other) then Some(pool[0])
      else FindString(data, pool[1..], str)
  }

  /** Writes the string, and takes it back if an equal one is already pooled. */
  function CreateSharedString(st: State, str: seq<Byte>): (r: (State, nat))
    requires PoolInBounds(st.data, st.pool)
  {
    var (a, o) := CreateString(st, str);
    match FindString(st.data, st.pool, str)
    case Some(p) => (a.(data := st.data), p)
    case None => (a.(pool := st.pool + [o]), o)
  }

  function StartVector(st: State, len: nat, elemSize: nat, alignment: nat): State
    requires alignment > 0
  {
    PreAlign(PreAlign(st.(nested := true), len * elemSize, 4), len * elemSize, alignment)
  }

  function EndVector(st: State, len: nat): (r: (State, nat)) {
    var a := PushScalar(st.(nested := false), len, 4);
    (a, |a.data|)
  }

  function Scalars(values: seq<nat>, size: nat): (s: seq<Byte>)
    ensures |s| == |values| * size
  {
    if values == [] then [] else LE(values[0], size) + Scalars(values[1..], size)
  }

  function CreateScalarVector(st: State, values: seq<nat>, size: nat): (r: (State, nat))
    requires size > 0
  {
    EndVector(Push(StartVector(st, |values|, size, size), Scalars(values, size)), |values|)
  }

  predicate Within(offs: seq<nat>, size: nat) {
    forall k :: 0 <= k < |offs| ==> offs[k] <= size
  }

  /** Pushes offsets last one first. */
  function PushOffsets(st: State, offs: seq<nat>): (r: State)
    requires Within(offs, |st.data|)
    decreases |offs|
  {
    if offs == [] then st
    else
      var a := PushOffset(st, offs[|offs| - 1]);
      PushOffsets(a, offs[..|offs| - 1])
  }

  function CreateOffsetVector(st: State, offs: seq<nat>): (r: (State, nat))
    requires Within(offs, |st.data|)
  {
    EndVector(PushOffsets(StartVector(st, |offs|, 4, 4), offs), |offs|)
  }

  // ---- finishing -------------------------------------------------------------------------------

  function FinishHeader(identifier: Option<seq<Byte>>, sizePrefix: bool): nat {
    (if sizePrefix then 4 else 0) + 4 + (if identifier.Some? then 4 else 0)
  }

  function AlignHeader(st: State, identifier: Option<seq<Byte>>, sizePrefix: bool): State
    requires 0 < st.minalign
  {
    var t := TrackMinAlign(st.(vtables := []), if sizePrefix then 4 else 0);
    PreAlign(t, FinishHeader(identifier, sizePrefix), t.minalign)
  }

  function PushRoot(st: State, root: nat, identifier: Option<seq<Byte>>): State
    requires root <= |st.data|
  {
    PushOffset(match identifier { case Some(id) => Push(st, id) case None => st }, root)
  }

  function Finish(st: State, root: nat, identifier: Option<seq<Byte>>, sizePrefix: bool): State
    requires root <= |st.data| && 0 < st.minalign
  {
    var c := PushRoot(AlignHeader(st, identifier, sizePrefix), root, identifier);
    (if sizePrefix then PushScalar(c, |c.data|, 4) else c).(finished := true)
  }
}
