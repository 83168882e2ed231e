/** The scratch area of the builder: vtable offsets first, then the field locations of the open table. */
module Scratch {
  import opened Bytes
  import opened BuilderSpec

  /** sizeof(FieldLoc): a 32-bit offset, a 16-bit id and two bytes of padding. */
  const FIELD_LOC_SIZE: nat := 8

  function FieldLocBytes(f: FieldLoc): (s: seq<Byte>)
    ensures |s| == FIELD_LOC_SIZE
  {
    LE(f.off, 4) + LE(f.id, 2) + [0, 0]
  }

  function Offsets(vs: seq<nat>): (s: seq<Byte>)
    ensures |s| == 4 * |vs|
  {
    if vs == [] then [] else Offsets(vs[..|vs| - 1]) + LE(vs[|vs| - 1], 4)
  }

  function Fields(fs: seq<FieldLoc>): (s: seq<Byte>)
    ensures |s| == FIELD_LOC_SIZE * |fs|
  {
    if fs == [] then [] else Fields(fs[..|fs| - 1]) + FieldLocBytes(fs[|fs| - 1])
  }

  lemma OffsetsAppend(vs: seq<nat>, v: nat)
    ensures Offsets(vs + [v]) == Offsets(vs) + LE(v, 4)
  {
    assert (vs + [v])[..|vs|] == vs;
  }

  lemma FieldsAppend(fs: seq<FieldLoc>, f: FieldLoc)
    ensures Fields(fs + [f]) == Fields(fs) + FieldLocBytes(f)
  {
    assert (fs + [f])[..|fs|] == fs;
  }

  lemma {:induction false} OffsetsRead(vs: seq<nat>, k: nat)
    requires k < |vs|
    ensures Offsets(vs)[4 * k..4 * k + 4] == LE(vs[k], 4)
  {
    hide LE;
    var n := |vs| - 1;
    if k < n {
      OffsetsRead(vs[..n], k);
      SliceOfFirst(Offsets(vs[..n]), LE(vs[n], 4), 4 * k, 4 * k + 4);
    } else {
      SliceOfSecond(Offsets(vs[..n]), LE(vs[n], 4), 0, 4);
    }
  }

  lemma {:induction false} FieldsRead(fs: seq<FieldLoc>, k: nat)
    requires k < |fs|
    ensures Fields(fs)[8 * k..8 * k + 8] == FieldLocBytes(fs[k])
  {
    hide FieldLocBytes;
    var n := |fs| - 1;
    if k < n {
      FieldsRead(fs[..n], k);
      SliceOfFirst(Fields(fs[..n]), FieldLocBytes(fs[n]), 8 * k, 8 * k + 8);
    } else {
      SliceOfSecond(Fields(fs[..n]), FieldLocBytes(fs[n]), 0, 8);
    }
  }

  /** The k-th vtable offset as it is read back from the scratch area. */
  lemma OffsetReads(scratch: seq<Byte>, vs: seq<nat>, rest: seq<Byte>, k: nat)
    requires scratch == Offsets(vs) + rest && k < |vs| && vs[k] < U32
    ensures Word(scratch, 4 * k, 4) == vs[k]
  {
    hide LE, FromLE, Pow256, Offsets;
    OffsetsRead(vs, k);
    SliceOfFirst(Offsets(vs), rest, 4 * k, 4 * k + 4);
    Widths();
    ScalarRoundTrip(vs[k], 4);
  }

  lemma FieldLocReads(f: FieldLoc)
    requires f.off < U32 && f.id < U16
    ensures Word(FieldLocBytes(f), 0, 4) == f.off && Word(FieldLocBytes(f), 4, 2) == f.id
  {
    hide LE, FromLE, Pow256;
    Widths();
    ScalarRoundTrip(f.off, 4);
    ScalarRoundTrip(f.id, 2);
    assert FieldLocBytes(f)[0..4] == LE(f.off, 4);
    assert FieldLocBytes(f)[4..6] == LE(f.id, 2);
  }

  lemma FieldWindow(front: seq<Byte>, fs: seq<FieldLoc>, k: nat)
    requires k < |fs|
    ensures |front| + 8 * k + 8 <= |front + Fields(fs)|
    ensures (front + Fields(fs))[|front| + 8 * k..|front| + 8 * k + 8] == FieldLocBytes(fs[k])
  {
    hide FieldLocBytes, Fields;
    FieldsRead(fs, k);
    SliceOfSecond(front, Fields(fs), 8 * k, 8 * k + 8);
  }

  lemma WindowReads(scratch: seq<Byte>, p: nat, f: FieldLoc)
    requires p + 8 <= |scratch| && scratch[p..p + 8] == FieldLocBytes(f) && f.off < U32 && f.id < U16
    ensures Word(scratch, p, 4) == f.off && Word(scratch, p + 4, 2) == f.id
  {
    hide Word, FieldLocBytes;
    FieldLocReads(f);
    WordOfSlice(scratch, p, p + 8, 0, 4);
    WordOfSlice(scratch, p, p + 8, 4, 2);
  }

  /** The k-th field location as it is read back. */
  lemma FieldReads(front: seq<Byte>, fs: seq<FieldLoc>, k: nat)
    requires k < |fs| && fs[k].off < U32 && fs[k].id < U16
    ensures var p := |front| + 8 * k;
            && p + 8 <= |front + Fields(fs)|
            && Word(front + Fields(fs), p, 4) == fs[k].off
            && Word(front + Fields(fs), p + 4, 2) == fs[k].id
  {
    hide Fields, Word, FieldLocBytes;
    FieldWindow(front, fs, k);
    WindowReads(front + Fields(fs), |front| + 8 * k, fs[k]);
  }
}

/** How EndTable's writes over zeroed bytes add up to the vtable. */
module VtableWriting {
  import opened Bytes
  import opened Wrappers
  import opened BuilderSpec
  import opened Table
  import opened TableLayout

  function Patched(s: seq<Byte>, pos: nat, bytes: seq<Byte>): (r: seq<Byte>)
    requires pos + |bytes| <= |s|
    ensures |r| == |s|
  {
    s[..pos] + bytes + s[pos + |bytes|..]
  }

  lemma PatchFront(front: seq<Byte>, rest: seq<Byte>, pos: nat, bytes: seq<Byte>)
    requires pos + |bytes| <= |front|
    ensures Patched(front + rest, pos, bytes) == Patched(front, pos, bytes) + rest
  {
  }

  lemma PatchBack(front: seq<Byte>, rest: seq<Byte>, pos: nat, bytes: seq<Byte>)
    requires pos + |bytes| <= |rest|
    ensures Patched(front + rest, |front| + pos, bytes) == front + Patched(rest, pos, bytes)
  {
  }

  lemma PatchByte(s: seq<Byte>, pos: nat, bytes: seq<Byte>, i: nat)
    requires pos + |bytes| <= |s| && i < |s|
    ensures Patched(s, pos, bytes)[i] == if pos <= i < pos + |bytes| then bytes[i - pos] else s[i]
  {
  }

  /** The vtable with the two sizes written and no field yet. */
  lemma BlankVtable(size: nat, objectSize: nat, loc: nat)
    requires 4 <= size
    ensures Patched(Patched(Zeros(size), 2, LE(objectSize, 2)), 0, LE(size, 2)) == Vtable([], size, objectSize, loc)
  {
    hide Patched, LE;
    var a := Patched(Zeros(size), 2, LE(objectSize, 2));
    var b := Patched(a, 0, LE(size, 2));
    var vt := Vtable([], size, objectSize, loc);
    forall i: nat | i < size
      ensures b[i] == vt[i]
    {
      PatchByte(a, 0, LE(size, 2), i);
      PatchByte(Zeros(size), 2, LE(objectSize, 2), i);
      VtableAt([], size, objectSize, loc, i);
      ZeroScalar();
    }
  }

  lemma ZeroScalar()
    ensures LE(0, 2) == [0, 0]
  {
    assert LE(0, 1) == [0];
  }

  /** Writing one more field's entry. */
  lemma NextEntry(fs: seq<FieldLoc>, f: FieldLoc, size: nat, objectSize: nat, loc: nat)
    requires IsFieldId(f.id) && f.id + 2 <= size && f.off <= loc
    ensures Patched(Vtable(fs, size, objectSize, loc), f.id, LE(loc - f.off, 2))
         == Vtable(fs + [f], size, objectSize, loc)
  {
    hide Patched, LE, Vtable;
    var old_ := Vtable(fs, size, objectSize, loc);
    var new_ := Vtable(fs + [f], size, objectSize, loc);
    var a := Patched(old_, f.id, LE(loc - f.off, 2));
    forall i: nat | i < size
      ensures a[i] == new_[i]
    {
      PatchByte(old_, f.id, LE(loc - f.off, 2), i);
      VtableAt(fs, size, objectSize, loc, i);
      VtableAt(fs + [f], size, objectSize, loc, i);
      OneEntry(fs, f, i - i % 2, loc);
    }
  }

  lemma FieldFits(st: State, start: nat, k: nat)
    requires FieldsOk(st, start) && k < |st.fields|
    ensures var f := st.fields[k];
            IsFieldId(f.id) && f.id + 2 <= VtableSize(st.maxVoffset) && f.off <= |st.data|
  {
  }

  lemma VtableHasSizes(maxVoffset: nat)
    ensures 4 <= VtableSize(maxVoffset)
  {
  }

  lemma AllInBounds(data: seq<Byte>, vtables: seq<nat>)
    requires VtablesOk(data, vtables)
    ensures VtablesInBounds(data, vtables)
  {
  }

  /** The state after pushing the placeholder of a table's vtable offset. */
  lemma Placeholder(st: State, start: nat)
    requires FieldsOk(st, start) && VtablesOk(st.data, st.vtables)
    ensures var a := PushScalar(st, 0, 4);
            && FieldsOk(a, start) && |a.data| == TableEnd(st.data)
            && a == TrackMinAlign(st, 4).(data := TableBody(st.data, 0))
            && Extends(a.data, st.data)
  {
    hide LE, Zeros, PaddingBytes;
    var p := Zeros(PaddingBytes(|st.data|, 4));
    ExtendsPrepend(p, st.data);
    ExtendsPrepend(LE(0, 4), p + st.data);
    ExtendsTransitive(LE(0, 4) + (p + st.data), p + st.data, st.data);
  }

  /** The vtables recorded before are still in order, lie before the table, and the search among them
      is not disturbed by the table and its vtable. */
  lemma SearchBehind(st: State, body: seq<Byte>, vt: seq<Byte>)
    requires VtablesOk(st.data, st.vtables) && Extends(body, st.data) && |st.data| < |body|
    ensures VtablesOk(vt + body, st.vtables) && VtablesInBounds(st.data, st.vtables)
    ensures forall k :: 0 <= k < |st.vtables| ==> st.vtables[k] < |body|
    ensures VtablesInBounds(vt + body, st.vtables)
    ensures FindVtable(vt + body, st.vtables, vt) == FindVtable(st.data, st.vtables, vt)
  {
    ExtendsPrepend(vt, body);
    ExtendsTransitive(vt + body, body, st.data);
    VtablesStable(vt + body, st.data, st.vtables);
    FindStable(vt + body, st.data, st.vtables, vt);
  }

  lemma BodyExtends(data: seq<Byte>)
    ensures Extends(TableBody(data, 0), data) && |data| + 4 <= |TableBody(data, 0)|
  {
    hide LE, Zeros, PaddingBytes;
    var p := Zeros(PaddingBytes(|data|, 4));
    ExtendsPrepend(p, data);
    ExtendsPrepend(LE(Wrap32(0), 4), p + data);
    ExtendsTransitive(LE(Wrap32(0), 4) + (p + data), p + data, data);
  }

  /** The buffer starts with a new vtable of `vtSize` bytes: the state and the vtable to use. */
  ghost function Chosen(cfg: Config, st: State, vtSize: nat): (State, nat)
    requires VtablesInBounds(st.data, st.vtables) && vtSize <= |st.data|
  {
    var found := if cfg.dedupVtables then FindVtable(st.data, st.vtables, st.data[..vtSize]) else None;
    if found.Some? then (st.(data := st.data[vtSize..]), found.value)
    else (st.(vtables := st.vtables + [|st.data|]), |st.data|)
  }

  /** The state with the vtable settled and the table pointing to it. */
  ghost function Pointed(cfg: Config, st: State, data: seq<Byte>, vt: seq<Byte>, loc: nat): State
    requires VtablesInBounds(data, st.vtables)
  {
    var found := if cfg.dedupVtables then FindVtable(data, st.vtables, vt) else None;
    if found.Some? then st.(data := TableBody(data, found.value - loc))
    else st.(data := vt + TableBody(data, |vt|), vtables := st.vtables + [loc + |vt|])
  }

  lemma ChosenIsPointed(cfg: Config, st: State, data: seq<Byte>, vt: seq<Byte>, loc: nat)
    requires st.data == vt + TableBody(data, 0) && loc == TableEnd(data) && VtablesOk(data, st.vtables)
    ensures VtablesInBounds(data, st.vtables) && VtablesInBounds(st.data, st.vtables)
    ensures var (a, v) := Chosen(cfg, st, |vt|);
            && 4 <= loc <= |a.data|
            && a.(data := Patched(a.data, |a.data| - loc, LE(Wrap32(v - loc), 4))) == Pointed(cfg, st, data, vt, loc)
  {
    hide VtablesOk, VtablesInBounds, TableEnd, FindVtable, TableBody, Patched, LE, Extends, Wrap32, At, Tail;
    BodyExtends(data);
    SearchBehind(st.(data := data), TableBody(data, 0), vt);
    FrontAndBack(vt, TableBody(data, 0));
    var found := if cfg.dedupVtables then FindVtable(data, st.vtables, vt) else None;
    if found.Some? {
      OlderPointed(st.data[|vt|..], data, loc, found.value);
    } else {
      NewPointed(st.data, data, vt, loc);
    }
  }

  lemma OlderPointed(body: seq<Byte>, data: seq<Byte>, loc: nat, v: nat)
    requires body == TableBody(data, 0) && loc == TableEnd(data)
    ensures 4 <= loc == |body| && Patched(body, 0, LE(Wrap32(v - loc), 4)) == TableBody(data, v - loc)
  {
    hide TableBody, LE, Wrap32, Patched;
    BodyExtends(data);
    FillPlaceholder([], data, v - loc);
    EmptyFront(TableBody(data, 0));
    EmptyFront(TableBody(data, v - loc));
  }

  lemma NewPointed(whole: seq<Byte>, data: seq<Byte>, vt: seq<Byte>, loc: nat)
    requires whole == vt + TableBody(data, 0) && loc == TableEnd(data)
    ensures 4 <= loc && |whole| == |vt| + loc
    ensures Patched(whole, |vt|, LE(Wrap32(|whole| - loc), 4)) == vt + TableBody(data, |vt|)
  {
    hide TableBody, LE, Wrap32, Patched;
    BodyExtends(data);
    FillPlaceholder(vt, data, |vt|);
  }

  lemma FrontAndBack(front: seq<Byte>, back: seq<Byte>)
    ensures (front + back)[..|front|] == front && (front + back)[|front|..] == back
  {
  }

  lemma EmptyFront(s: seq<Byte>)
    ensures [] + s == s
  {
  }

  lemma PointedIsClosed(cfg: Config, st: State, start: nat, mid: State)
    requires VtablesInBounds(st.data, st.vtables) && start <= TableEnd(st.data)
    requires start <= |st.data|
    requires mid == TrackMinAlign(st, 4).(data := mid.data, fields := [], maxVoffset := 0)
    ensures var loc := TableEnd(st.data);
            (Pointed(cfg, mid, st.data, WantedVtable(st, start, loc), loc).(nested := false), loc) == EndTable(cfg, st, start)
  {
    hide FindVtable, Vtable, TableBody, TableEnd;
  }

  /** Filling in the placeholder. */
  lemma FillPlaceholder(front: seq<Byte>, data: seq<Byte>, delta: int)
    ensures Patched(front + TableBody(data, 0), |front|, LE(Wrap32(delta), 4)) == front + TableBody(data, delta)
  {
    hide LE, Zeros, PaddingBytes;
    PatchBack(front, TableBody(data, 0), 0, LE(Wrap32(delta), 4));
    PatchFront(LE(Wrap32(0), 4), Zeros(PaddingBytes(|data|, 4)) + data, 0, LE(Wrap32(delta), 4));
  }

  lemma EndAbove(data: seq<Byte>)
    ensures |data| < TableEnd(data)
  {
  }

  lemma PreAlignIsLonger(st: State, len: nat, alignment: nat)
    requires 0 < alignment
    ensures |st.data| <= |PreAlign(st, len, alignment).data|
  {
  }

  lemma AlignedThenPushed(st: State, v: nat, size: nat)
    requires 0 < size
    ensures var r := PushScalar(st, v, size);
            |r.data| == |Align(st, size).data| + size && r.vtables == st.vtables && r.fields == st.fields
  {
    hide PaddingBytes, LE;
  }

  lemma PushOffsetGrows(st: State, off: nat)
    requires off <= |st.data|
    ensures var r := PushOffset(st, off); |st.data| + 4 <= |r.data| && r.nested == st.nested
  {
    hide PaddingBytes, LE;
  }

  lemma {:induction false} PushOffsetsGrow(st: State, offs: seq<nat>)
    requires Within(offs, |st.data|)
    ensures |st.data| <= |PushOffsets(st, offs).data|
    decreases |offs|
  {
    hide PushOffset;
    if offs != [] {
      PushOffsetGrows(st, offs[|offs| - 1]);
      PushOffsetsGrow(PushOffset(st, offs[|offs| - 1]), offs[..|offs| - 1]);
    }
  }

  lemma StartVectorNests(st: State, len: nat, elemSize: nat, alignment: nat)
    requires 0 < alignment
    ensures var r := StartVector(st, len, elemSize, alignment); r.nested && |st.data| <= |r.data|
  {
    hide PaddingBytes;
  }

  /** The stages of an offset vector fit when its end does. */
  lemma OffsetVectorRoom(st: State, offs: seq<nat>)
    requires Within(offs, |st.data|)
    ensures var a := StartVector(st, |offs|, 4, 4);
            && a.nested && Within(offs, |a.data|)
            && |a.data| <= |PushOffsets(a, offs).data| <= |CreateOffsetVector(st, offs).0.data|
  {
    hide PaddingBytes, LE, StartVector, PushOffsets;
    StartVectorNests(st, |offs|, 4, 4);
    PushOffsetsGrow(StartVector(st, |offs|, 4, 4), offs);
  }

  lemma PushRootGrows(st: State, root: nat, identifier: Option<seq<Byte>>)
    requires root <= |st.data|
    ensures |st.data| + 4 <= |PushRoot(st, root, identifier).data|
  {
    PushOffsetGrows(if identifier.Some? then Push(st, identifier.value) else st, root);
  }

  lemma AlignHeaderGrows(st: State, identifier: Option<seq<Byte>>, sizePrefix: bool)
    requires 0 < st.minalign
    ensures |st.data| <= |AlignHeader(st, identifier, sizePrefix).data|
  {
  }

  lemma CreatedAbove(st: State, str: seq<Byte>)
    ensures var (r, o) := CreateString(st, str);
            && Extends(r.data, st.data) && |st.data| <= |r.data| && r.pool == st.pool && r == st.(data := r.data, minalign := r.minalign)
  {
    hide PaddingBytes, LE, Zeros, Extends;
    var a := Push(PreAlign(st, |str| + 1, 4), [0]);
    var p := Zeros(PaddingBytes(|st.data| + |str| + 1, 4));
    ExtendsPrepend(p, st.data);
    ExtendsPrepend([0], p + st.data);
    ExtendsTransitive(a.data, p + st.data, st.data);
    var b := Push(a, str);
    ExtendsPrepend(str, a.data);
    ExtendsTransitive(b.data, a.data, st.data);
    var q := Zeros(PaddingBytes(|b.data|, 4));
    ExtendsPrepend(q, b.data);
    ExtendsTransitive(q + b.data, b.data, st.data);
    ExtendsPrepend(LE(|str|, 4), q + b.data);
    ExtendsTransitive(LE(|str|, 4) + (q + b.data), q + b.data, st.data);
  }

  /** The pool's search does not depend on what was written in front. */
  lemma {:induction false} PoolStable(newer: seq<Byte>, older: seq<Byte>, pool: seq<nat>, str: seq<Byte>)
    requires Extends(newer, older) && PoolInBounds(older, pool)
    ensures PoolInBounds(newer, pool) && FindString(newer, pool, str) == FindString(older, pool, str)
  {
    hide StringLess, At, Tail;
    if pool != [] {
      PoolStable(newer, older, pool[1..], str);
      AtStable(newer, older, pool[0], 4);
      ExtendsTail(newer, older, pool[0]);
      forall k | 0 <= k < |pool| ensures StringInBounds(newer, pool[k]) {
        if k > 0 { assert pool[k] == pool[1..][k - 1]; }
      }
    }
  }

  lemma OneEntry(fs: seq<FieldLoc>, f: FieldLoc, id: nat, loc: nat)
    requires f.off <= loc
    ensures Entry(fs + [f], id, loc) == if id == f.id then loc - f.off else Entry(fs, id, loc)
  {
    assert (fs + [f])[..|fs|] == fs;
  }

  /** The search for an equal vtable does not depend on what was written in front. */
  lemma {:induction false} FindStable(newer: seq<Byte>, older: seq<Byte>, vtables: seq<nat>, vt: seq<Byte>)
    requires Extends(newer, older) && VtablesOk(older, vtables)
    ensures VtablesInBounds(newer, vtables) && VtablesInBounds(older, vtables)
    ensures FindVtable(newer, vtables, vt) == FindVtable(older, vtables, vt)
  {
    if vtables != [] {
      VtableStable(newer, older, vtables[0]);
      FindStable(newer, older, vtables[1..], vt);
    }
  }
}

/** FlatBufferBuilder: the operations in place on the growing buffer, each doing what its function on
    values says. */
module Builder {
  import opened Bytes
  import opened Wrappers
  import opened BuilderSpec
  import opened Table
  import opened TableLayout
  import opened Scratch
  import opened VtableWriting
  import VectorDownward

  /** What the assertion on the size lets an operation leave that ends by pushing four bytes: it is asked
      before those are counted. */
  predicate UpToLength(data: seq<Byte>) {
    |data| < MAX_BUFFER_SIZE + 4
  }

  class FlatBufferBuilder {
    const buf: VectorDownward.Vector
    var cfg: Config
    var numFieldLoc: nat      // field locations at the end of the scratch area
    var maxVoffset: nat
    var nested: bool
    var finished: bool
    var minalign: nat
    var pool: seq<nat>
    ghost var st: State       // the same state as a value

    ghost predicate Valid()
      reads this, buf, buf.buf
    {
      && buf.Valid() && buf.maxSize == MAX_BUFFER_SIZE
      && buf.Data() == st.data
      && buf.Scratch() == Offsets(st.vtables) + Fields(st.fields)
      && numFieldLoc == |st.fields|
      && maxVoffset == st.maxVoffset
      && nested == st.nested && finished == st.finished
      && minalign == st.minalign && 0 < minalign
      && pool == st.pool
    }

    constructor (initialSize: nat, minAlign: nat)
      requires 0 < minAlign
      ensures Valid() && st == Empty && cfg == Config(false, true) && fresh(buf) && fresh(buf.buf)
    {
      buf := new VectorDownward.Vector(initialSize, minAlign, MAX_BUFFER_SIZE);
      cfg := Config(false, true);
      numFieldLoc, maxVoffset, nested, finished, minalign, pool := 0, 0, false, false, 1, [];
      st := Empty;
    }

    method Configure(forceDefaults: bool, dedupVtables: bool)
      requires Valid()
      modifies this`cfg
      ensures Valid() && cfg == Config(forceDefaults, dedupVtables)
    {
      cfg := Config(forceDefaults, dedupVtables);
    }

    /** GetBufferPointer and GetSize: the finished bytes. */
    method GetBuffer() returns (bytes: seq<Byte>)
      requires Valid() && finished
      ensures bytes == st.data
    {
      bytes := buf.DataAt(buf.size);
      assert Tail(st.data, |st.data|) == st.data;
    }

    /** Clear: the builder is as new, its allocation is kept. */
    method Clear()
      requires Valid()
      modifies this, buf`cur, buf`size, buf`scratch
      ensures Valid() && st == Empty && cfg == old(cfg)
    {
      buf.Clear();
      numFieldLoc, maxVoffset, nested, finished, minalign, pool := 0, 0, false, false, 1, [];
      st := Empty;
    }

    // ---- scalars -------------------------------------------------------------------------------

    method PushBytes(bytes: seq<Byte>)
      requires Valid() && (bytes != [] ==> |st.data| < MAX_BUFFER_SIZE) && |bytes| + |st.data| < U32
      modifies this`st, buf, buf.buf
      ensures Valid() && (buf.buf == old(buf.buf) || fresh(buf.buf))
      ensures st == Push(old(st), bytes)
    {
      buf.Push(bytes);
      st := Push(st, bytes);
    }

    method Pad(n: nat)
      requires Valid() && (0 < n ==> |st.data| < MAX_BUFFER_SIZE) && n + |st.data| < U32
      modifies this`st, buf, buf.buf
      ensures Valid() && (buf.buf == old(buf.buf) || fresh(buf.buf))
      ensures st == Push(old(st), Zeros(n))
    {
      buf.Fill(n);
      st := Push(st, Zeros(n));
    }

    method Align(size: nat)
      requires Valid() && 0 < size && |BuilderSpec.Align(st, size).data| < U32
      requires |st.data| < |BuilderSpec.Align(st, size).data| ==> |st.data| < MAX_BUFFER_SIZE
      modifies this`st, this`minalign, buf, buf.buf
      ensures Valid() && (buf.buf == old(buf.buf) || fresh(buf.buf))
      ensures st == BuilderSpec.Align(old(st), size)
    {
      minalign := Max(minalign, size);
      st := BuilderSpec.TrackMinAlign(st, size);
      Pad(PaddingBytes(buf.size, size));
    }

    method PushElement(v: nat, size: nat) returns (off: nat)
      requires Valid() && 0 < size && |BuilderSpec.Align(st, size).data| < MAX_BUFFER_SIZE && |PushScalar(st, v, size).data| < U32
      modifies this`st, this`minalign, buf, buf.buf
      ensures Valid() && (buf.buf == old(buf.buf) || fresh(buf.buf))
      ensures st == PushScalar(old(st), v, size) && off == |st.data|
    {
      Align(size);
      PushBytes(LE(v, size));
      off := buf.size;
    }

    method PreAlign(len: nat, alignment: nat)
      requires Valid() && 0 < alignment && |BuilderSpec.PreAlign(st, len, alignment).data| < U32
      requires |st.data| < |BuilderSpec.PreAlign(st, len, alignment).data| ==> |st.data| < MAX_BUFFER_SIZE
      modifies this`st, this`minalign, buf, buf.buf
      ensures Valid() && (buf.buf == old(buf.buf) || fresh(buf.buf))
      ensures st == BuilderSpec.PreAlign(old(st), len, alignment)
    {
      if len == 0 { return; }
      minalign := Max(minalign, alignment);
      st := BuilderSpec.TrackMinAlign(st, alignment);
      Pad(PaddingBytes(buf.size + len, alignment));
    }

    /** ReferTo, then PushElement: an offset relative to where it is stored. */
    method PushOffset(target: nat) returns (off: nat)
      requires Valid() && 0 < target <= |st.data| && UpToLength(BuilderSpec.PushOffset(st, target).data)
      modifies this`st, this`minalign, buf, buf.buf
      ensures Valid() && (buf.buf == old(buf.buf) || fresh(buf.buf))
      ensures st == BuilderSpec.PushOffset(old(st), target) && off == |st.data|
    {
      Align(4);
      off := PushElement(ReferTo(target, buf.size), 4);
    }

    // ---- fields --------------------------------------------------------------------------------

    method TrackField(id: nat, off: nat)
      requires Valid() && |st.data| < MAX_BUFFER_SIZE && buf.scratch + FIELD_LOC_SIZE < U32
      modifies this`st, this`numFieldLoc, this`maxVoffset, buf, buf.buf
      ensures Valid() && (buf.buf == old(buf.buf) || fresh(buf.buf))
      ensures st == BuilderSpec.TrackField(old(st), id, off)
    {
      hide FieldLocBytes, Fields, Offsets, Max;
      FieldsAppend(st.fields, FieldLoc(off, id));
      assert Offsets(st.vtables) + (Fields(st.fields) + FieldLocBytes(FieldLoc(off, id)))
          == (Offsets(st.vtables) + Fields(st.fields)) + FieldLocBytes(FieldLoc(off, id));
      buf.ScratchPush(FieldLocBytes(FieldLoc(off, id)));
      numFieldLoc := numFieldLoc + 1;
      maxVoffset := Max(maxVoffset, id);
      st := BuilderSpec.TrackField(st, id, off);
    }

    method AddElement(id: nat, v: nat, def: nat, size: nat)
      requires Valid() && 0 < size && |BuilderSpec.AddElement(cfg, st, id, v, def, size).data| < MAX_BUFFER_SIZE
      requires buf.scratch + FIELD_LOC_SIZE < U32
      modifies this`st, this`minalign, this`numFieldLoc, this`maxVoffset, buf, buf.buf
      ensures Valid() && (buf.buf == old(buf.buf) || fresh(buf.buf)) && buf.scratch <= old(buf.scratch) + FIELD_LOC_SIZE
      ensures st == BuilderSpec.AddElement(cfg, old(st), id, v, def, size)
    {
      hide PushScalar, BuilderSpec.Align, Valid;
      if v == def && !cfg.forceDefaults { return; }
      AlignedThenPushed(st, v, size);
      Agree();
      var off := PushElement(v, size);
      Agree();
      TrackField(id, off);
      Agree();
    }

    method AddOffset(id: nat, target: nat)
      requires Valid() && target <= |st.data| && |BuilderSpec.AddOffset(cfg, st, id, target).data| < MAX_BUFFER_SIZE
      requires buf.scratch + FIELD_LOC_SIZE < U32
      modifies this`st, this`minalign, this`numFieldLoc, this`maxVoffset, buf, buf.buf
      ensures Valid() && (buf.buf == old(buf.buf) || fresh(buf.buf)) && buf.scratch <= old(buf.scratch) + FIELD_LOC_SIZE
      ensures st == BuilderSpec.AddOffset(cfg, old(st), id, target)
    {
      if target == 0 { return; }
      Align(4);
      AddElement(id, ReferTo(target, buf.size), 0, 4);
    }

    method StartTable() returns (start: nat)
      requires Valid() && !nested && numFieldLoc == 0
      modifies this`st, this`nested
      ensures Valid() && st == BuilderSpec.StartTable(old(st)) && start == |st.data|
    {
      nested := true;
      st := BuilderSpec.StartTable(st);
      start := buf.size;
    }

    // ---- EndTable ------------------------------------------------------------------------------

    /** Writes a scalar over the buffer at a position counted from its start. */
    method Patch(pos: nat, bytes: seq<Byte>)
      requires Valid() && pos + |bytes| <= |st.data|
      modifies this`st, buf.buf
      ensures Valid() && st == old(st).(data := Patched(old(st).data, pos, bytes))
    {
      buf.Overwrite(pos, bytes);
      st := st.(data := Patched(st.data, pos, bytes));
    }

    /** The zeroed vtable with its two sizes filled in. */
    method StartVtable(vtSize: nat, objectSize: nat, loc: nat)
      requires Valid() && 4 <= vtSize && vtSize + |st.data| <= MAX_BUFFER_SIZE
      modifies this`st, buf, buf.buf
      ensures Valid() && (buf.buf == old(buf.buf) || fresh(buf.buf))
      ensures st == old(st).(data := Vtable([], vtSize, objectSize, loc) + old(st).data)
    {
      hide Vtable, LE, Zeros, Patched;
      ghost var rest := st.data;
      Pad(vtSize);
      Patch(2, LE(objectSize, 2));
      PatchFront(Zeros(vtSize), rest, 2, LE(objectSize, 2));
      Patch(0, LE(vtSize, 2));
      PatchFront(Patched(Zeros(vtSize), 2, LE(objectSize, 2)), rest, 0, LE(vtSize, 2));
      BlankVtable(vtSize, objectSize, loc);
    }

    /** Reads field location k back from the scratch area. */
    method ReadFieldLoc(k: nat) returns (off: nat, id: nat)
      requires Valid() && k < numFieldLoc && st.fields[k].off < U32 && st.fields[k].id < U16
      ensures FieldLoc(off, id) == st.fields[k]
    {
      hide Offsets, Fields;
      var it := buf.scratch - numFieldLoc * FIELD_LOC_SIZE + k * FIELD_LOC_SIZE;
      FieldReads(Offsets(st.vtables), st.fields, k);
      off := buf.ScratchWord(it, 4);
      id := buf.ScratchWord(it + 4, 2);
    }

    /** Writes the entry of field location k over the vtable at the front. */
    method WriteEntry(k: nat, vtSize: nat, objectSize: nat, loc: nat, ghost rest: seq<Byte>)
      requires Valid() && k < |st.fields|
      requires var f := st.fields[k]; IsFieldId(f.id) && f.id + 2 <= vtSize && f.off <= loc < U32
      requires st.data == Vtable(st.fields[..k], vtSize, objectSize, loc) + rest
      modifies this`st, buf.buf
      ensures Valid()
      ensures st == old(st).(data := Vtable(st.fields[..k + 1], vtSize, objectSize, loc) + rest)
    {
      hide Vtable, LE, Patched, Fields, Offsets;
      ghost var fs := st.fields;
      var off, id := ReadFieldLoc(k);
      PatchFront(Vtable(fs[..k], vtSize, objectSize, loc), rest, id, LE(loc - off, 2));
      NextEntry(fs[..k], fs[k], vtSize, objectSize, loc);
      assert fs[..k + 1] == fs[..k] + [fs[k]];
      Patch(id, LE(loc - off, 2));
    }

    /** The entries of all field locations, first to last. */
    method WriteEntries(start: nat, vtSize: nat, objectSize: nat, loc: nat, ghost rest: seq<Byte>)
      requires Valid() && FieldsOk(st.(data := rest), start) && vtSize == VtableSize(st.maxVoffset) && |rest| == loc < U32
      requires st.data == Vtable([], vtSize, objectSize, loc) + rest
      modifies this`st, buf.buf
      ensures Valid() && st == old(st).(data := Vtable(st.fields, vtSize, objectSize, loc) + rest)
    {
      hide Vtable, Valid, FieldsOk, VtableSize;
      ghost var was := st;
      Agree();
      var n := numFieldLoc;
      var k := 0;
      assert was.fields[..0] == [];
      while k < n
        invariant 0 <= k <= n
        invariant Valid() && st == was.(data := Vtable(was.fields[..k], vtSize, objectSize, loc) + rest)
      {
        FieldFits(was.(data := rest), start, k);
        WriteEntry(k, vtSize, objectSize, loc, rest);
        k := k + 1;
      }
      assert was.fields[..n] == was.fields;
    }

    /** The vtable of the open table in front of the buffer. */
    method WriteVtable(start: nat, loc: nat)
      requires Valid() && FieldsOk(st, start) && loc == |st.data| && loc - start < U16
      requires loc + VtableSize(maxVoffset) <= MAX_BUFFER_SIZE
      modifies this`st, buf, buf.buf
      ensures Valid() && (buf.buf == old(buf.buf) || fresh(buf.buf))
      ensures st == old(st).(data := WantedVtable(old(st), start, loc) + old(st).data)
    {
      hide Vtable, Valid, FieldsOk, VtableSize;
      FieldsStart(st, start);
      VtableHasSizes(st.maxVoffset);
      ghost var was := st;
      Agree();
      var vtSize := VtableSize(maxVoffset);
      StartVtable(vtSize, (loc - start) % U16, loc);
      assert st.(data := was.data) == was;
      WriteEntries(start, vtSize, (loc - start) % U16, loc, was.data);
    }

    method ClearOffsets()
      requires Valid()
      modifies this`st, this`numFieldLoc, this`maxVoffset, buf`scratch
      ensures Valid() && st == old(st).(fields := [], maxVoffset := 0) && buf.scratch <= old(buf.scratch)
    {
      hide Offsets;
      buf.ScratchPop(numFieldLoc * FIELD_LOC_SIZE);
      numFieldLoc, maxVoffset := 0, 0;
      st := st.(fields := [], maxVoffset := 0);
    }

    method ReadVtableOffset(k: nat) returns (v: nat)
      requires Valid() && k < |st.vtables| && st.vtables[k] < U32
      ensures v == st.vtables[k]
    {
      hide Offsets, Fields;
      OffsetReads(buf.Scratch(), st.vtables, Fields(st.fields), k);
      v := buf.ScratchWord(4 * k, 4);
    }

    /** Whether the vtable at distance v has the bytes vt: the sizes first, then memcmp. */
    method IsSame(v: nat, vt: seq<Byte>) returns (same: bool)
      requires Valid() && VtableInBounds(st.data, v)
      ensures same <==> VtableBytes(st.data, v) == vt
    {
      hide Tail, At, FromLE;
      TailStarts(st.data, v, 2);
      var vt2 := buf.DataAt(v);
      var size2 := FromLE(vt2[..2]);
      same := size2 == |vt| && vt2[..size2] == vt;
    }

    /** The first recorded vtable equal to the `vtSize` bytes at the front of the buffer. */
    method FindSame(vtSize: nat) returns (r: Option<nat>)
      requires Valid() && numFieldLoc == 0 && VtablesOk(st.data, st.vtables) && vtSize <= |st.data| < U32
      ensures VtablesInBounds(st.data, st.vtables)
      ensures r == FindVtable(st.data, st.vtables, st.data[..vtSize])
    {
      ghost var data, vtables := st.data, st.vtables;
      var vt1 := buf.DataAt(buf.size)[..vtSize];
      assert Tail(data, |data|) == data;
      var k := 0;
      while k < buf.scratch / 4
        invariant 0 <= k <= |vtables| == buf.scratch / 4
        invariant FindVtable(data, vtables, vt1) == FindVtable(data, vtables[k..], vt1)
      {
        var v := ReadVtableOffset(k);
        var same := IsSame(v, vt1);
        if same { return Some(v); }
        k := k + 1;
      }
      assert vtables[k..] == [];
      r := None;
    }

    /** Settles which vtable the table at `loc` uses: an equal older one, the new one then being taken
        back, or the new one, which is then recorded. */
    method UseVtable(loc: nat, vtSize: nat) returns (vtUse: nat)
      requires Valid() && numFieldLoc == 0 && |st.data| == vtSize + loc < MAX_BUFFER_SIZE
      requires VtablesOk(st.data, st.vtables) && forall k :: 0 <= k < |st.vtables| ==> st.vtables[k] < loc
      requires buf.scratch + 4 < U32
      modifies this`st, buf, buf.buf
      ensures Valid() && (buf.buf == old(buf.buf) || fresh(buf.buf))
      ensures VtablesInBounds(old(st).data, old(st).vtables) && (st, vtUse) == Chosen(cfg, old(st), vtSize)
    {
      hide Offsets, Fields, VtablesOk, At, Tail;
      AllInBounds(st.data, st.vtables);
      vtUse := buf.size;
      if cfg.dedupVtables {
        var found := FindSame(vtSize);
        if found.Some? {
          vtUse := found.value;
          buf.Pop(buf.size - loc);
          st := st.(data := st.data[vtSize..]);
        }
      }
      if vtUse == buf.size {
        RecordVtable(vtUse);
      }
    }

    method RecordVtable(v: nat)
      requires Valid() && numFieldLoc == 0 && |st.data| < MAX_BUFFER_SIZE && buf.scratch + 4 < U32
      modifies this`st, buf, buf.buf
      ensures Valid() && (buf.buf == old(buf.buf) || fresh(buf.buf))
      ensures st == old(st).(vtables := old(st).vtables + [v])
    {
      hide Offsets;
      OffsetsAppend(st.vtables, v);
      buf.ScratchPush(LE(v, 4));
      st := st.(vtables := st.vtables + [v]);
    }

    /** EndTable's first half: the placeholder and the vtable, the collected fields used up. */
    method CloseFields(start: nat) returns (loc: nat, vtSize: nat)
      requires Valid() && FieldsOk(st, start) && VtablesOk(st.data, st.vtables)
      requires TableEnd(st.data) - start < U16 && TableEnd(st.data) + VtableSize(maxVoffset) < MAX_BUFFER_SIZE
      modifies this`st, this`numFieldLoc, this`maxVoffset, this`minalign, buf, buf.buf
      ensures Valid() && (buf.buf == old(buf.buf) || fresh(buf.buf)) && buf.scratch <= old(buf.scratch)
      ensures loc == TableEnd(old(st).data) && start <= loc && vtSize == VtableSize(old(st).maxVoffset)
      ensures st == TrackMinAlign(old(st), 4).(
        data := WantedVtable(old(st), start, loc) + TableBody(old(st).data, 0), fields := [], maxVoffset := 0)
    {
      hide VtablesOk, FieldsOk, TableEnd, Valid, PushScalar, Vtable, TableBody, VtableSize, LE, Extends;
      Placeholder(st, start);
      FieldsStart(st, start);
      AlignedThenPushed(st, 0, 4);
      Agree();
      loc := PushElement(0, 4);
      Agree();
      vtSize := VtableSize(maxVoffset);
      EndAbove(old(st).data);
      WriteVtable(start, loc);
      Agree();
      ClearOffsets();
    }

    /** EndTable's second half: the choice of the vtable and the placeholder filled in. */
    method PointToVtable(loc: nat, vtSize: nat, ghost vt: seq<Byte>, ghost data: seq<Byte>)
      requires Valid() && numFieldLoc == 0 && |vt| == vtSize && loc == TableEnd(data) && vtSize + loc < MAX_BUFFER_SIZE
      requires st.data == vt + TableBody(data, 0) && VtablesOk(data, st.vtables)
      requires buf.scratch + 4 < U32
      modifies this`st, buf, buf.buf
      ensures Valid() && (buf.buf == old(buf.buf) || fresh(buf.buf))
      ensures VtablesInBounds(data, old(st).vtables) && st == Pointed(cfg, old(st), data, vt, loc)
    {
      hide VtablesOk, VtablesInBounds, TableEnd, Valid, TableBody, Patched, LE, Extends, Chosen, Pointed, Wrap32, FindVtable, At, Tail;
      BodyExtends(data);
      SearchBehind(st.(data := data), TableBody(data, 0), vt);
      ChosenIsPointed(cfg, st, data, vt, loc);
      Agree();
      var vtUse := UseVtable(loc, vtSize);
      Agree();
      Patch(buf.size - loc, LE(Wrap32(vtUse - loc), 4));
    }

    /** Closes the table opened at size `start`. */
    method EndTable(start: nat) returns (loc: nat)
      requires Valid() && nested && FieldsOk(st, start) && VtablesOk(st.data, st.vtables)
      requires TableEnd(st.data) - start < U16 && TableEnd(st.data) + VtableSize(maxVoffset) < MAX_BUFFER_SIZE
      requires buf.scratch + 4 < U32
      modifies this`st, this`numFieldLoc, this`maxVoffset, this`minalign, this`nested, buf, buf.buf
      ensures Valid() && (buf.buf == old(buf.buf) || fresh(buf.buf))
      ensures VtablesInBounds(old(st).data, old(st).vtables)
      ensures (st, loc) == BuilderSpec.EndTable(cfg, old(st), start)
    {
      hide VtablesOk, FieldsOk, TableEnd, Valid, Vtable, TableBody, VtableSize, Pointed, BuilderSpec.EndTable;
      ghost var was := st;
      Agree();
      FieldsStart(was, start);
      var vtSize;
      loc, vtSize := CloseFields(start);
      Agree();
      ghost var mid := st;
      PointToVtable(loc, vtSize, WantedVtable(was, start, loc), was.data);
      PointedIsClosed(cfg, was, start, mid);
      SetNested(false);
    }

    // ---- strings and vectors -------------------------------------------------------------------

    /** NotNested: no table or vector is open. */
    predicate NotNested()
      reads this
    {
      !nested && numFieldLoc == 0
    }

    method CreateString(str: seq<Byte>) returns (off: nat)
      requires Valid() && NotNested() && UpToLength(BuilderSpec.CreateString(st, str).0.data)
      modifies this`st, this`minalign, buf, buf.buf
      ensures Valid() && (buf.buf == old(buf.buf) || fresh(buf.buf))
      ensures (st, off) == BuilderSpec.CreateString(old(st), str)
    {
      hide Valid, PaddingBytes, LE, Zeros;
      PreAlign(|str| + 1, 4);
      Pad(1);
      assert Zeros(1) == [0];
      PushBytes(str);
      off := PushElement(|str|, 4);
    }

    /** Whether the pool's ordering tells the string at distance p apart from `str`. */
    method Same(p: nat, str: seq<Byte>) returns (same: bool)
      requires Valid() && StringInBounds(st.data, p)
      ensures same <==> !StringLess(StringBytes(st.data, p), str) && !StringLess(str, StringBytes(st.data, p))
    {
      hide StringLess, Tail, At, FromLE;
      TailStarts(st.data, p, 4);
      var tail := buf.DataAt(p);
      var other := tail[4..4 + FromLE(tail[..4])];
      same := !StringLess(other, str) && !StringLess(str, other);
    }

    method FindPooled(str: seq<Byte>) returns (r: Option<nat>)
      requires Valid() && PoolInBounds(st.data, st.pool)
      ensures r == FindString(st.data, st.pool, str)
    {
      hide StringLess, StringBytes, At;
      ghost var data := st.data;
      var k := 0;
      while k < |pool|
        invariant 0 <= k <= |pool|
        invariant FindString(data, pool, str) == FindString(data, pool[k..], str)
      {
        var same := Same(pool[k], str);
        if same { return Some(pool[k]); }
        k := k + 1;
      }
      assert pool[k..] == [];
      r := None;
    }

    /** Serializes the string first; an equal pooled string makes it be taken back. */
    method CreateSharedString(str: seq<Byte>) returns (off: nat)
      requires Valid() && NotNested() && PoolInBounds(st.data, st.pool)
      requires UpToLength(BuilderSpec.CreateString(st, str).0.data)
      modifies this`st, this`minalign, this`pool, buf, buf.buf
      ensures Valid() && (buf.buf == old(buf.buf) || fresh(buf.buf))
      ensures (st, off) == BuilderSpec.CreateSharedString(old(st), str)
    {
      hide Valid, FindString, PoolInBounds, BuilderSpec.CreateString, Extends;
      ghost var was := st;
      Agree();
      var sizeBefore := buf.size;
      CreatedAbove(st, str);
      off := CreateString(str);
      assert |was.data| <= |st.data|;
      PoolStable(st.data, was.data, was.pool, str);
      var found := FindPooled(str);
      Agree();
      match found
      case Some(p) =>
        DropFront(buf.size - sizeBefore, was.data);
        off := p;
      case None =>
        AddPooled(off);
    }

    method AddPooled(off: nat)
      requires Valid()
      modifies this`st, this`pool
      ensures Valid() && st == old(st).(pool := old(st).pool + [off])
    {
      pool := pool + [off];
      st := st.(pool := st.pool + [off]);
    }

    /** Takes back the newest n bytes. */
    method DropFront(n: nat, ghost rest: seq<Byte>)
      requires Valid() && n + |rest| == |st.data| && Extends(st.data, rest)
      modifies this`st, buf
      ensures Valid() && buf.buf == old(buf.buf) && st == old(st).(data := rest)
    {
      buf.Pop(n);
      st := st.(data := rest);
    }

    method StartVector(len: nat, elemSize: nat, alignment: nat)
      requires Valid() && NotNested() && 0 < alignment
      requires |BuilderSpec.StartVector(st, len, elemSize, alignment).data| <= MAX_BUFFER_SIZE
      modifies this`st, this`minalign, this`nested, buf, buf.buf
      ensures Valid() && (buf.buf == old(buf.buf) || fresh(buf.buf))
      ensures st == BuilderSpec.StartVector(old(st), len, elemSize, alignment)
    {
      hide BuilderSpec.PreAlign;
      PreAlignIsLonger(st.(nested := true), len * elemSize, 4);
      PreAlignIsLonger(BuilderSpec.PreAlign(st.(nested := true), len * elemSize, 4), len * elemSize, alignment);
      nested := true;
      st := st.(nested := true);
      PreAlign(len * elemSize, 4);
      PreAlign(len * elemSize, alignment);
    }

    method EndVector(len: nat) returns (off: nat)
      requires Valid() && nested && UpToLength(BuilderSpec.EndVector(st, len).0.data)
      modifies this`st, this`minalign, this`nested, buf, buf.buf
      ensures Valid() && (buf.buf == old(buf.buf) || fresh(buf.buf))
      ensures (st, off) == BuilderSpec.EndVector(old(st), len)
    {
      nested := false;
      st := st.(nested := false);
      off := PushElement(len, 4);
    }

    /** CreateVector of scalars: on a little-endian machine the elements are one block of bytes. */
    method CreateScalarVector(values: seq<nat>, size: nat) returns (off: nat)
      requires Valid() && NotNested() && 0 < size
      requires UpToLength(BuilderSpec.CreateScalarVector(st, values, size).0.data)
      modifies this`st, this`minalign, this`nested, buf, buf.buf
      ensures Valid() && (buf.buf == old(buf.buf) || fresh(buf.buf))
      ensures (st, off) == BuilderSpec.CreateScalarVector(old(st), values, size)
    {
      hide Valid, Scalars, PaddingBytes, LE, Zeros, BuilderSpec.StartVector;
      StartVector(|values|, size, size);
      StartVectorNests(old(st), |values|, size, size);
      PushBytes(Scalars(values, size));
      Agree();
      off := EndVector(|values|);
    }

    /** CreateVector of offsets: pushed last one first, each relative to where it is stored. */
    method CreateOffsetVector(offs: seq<nat>) returns (off: nat)
      requires Valid() && NotNested() && Within(offs, |st.data|) && forall k :: 0 <= k < |offs| ==> 0 < offs[k]
      requires UpToLength(BuilderSpec.CreateOffsetVector(st, offs).0.data)
      modifies this`st, this`minalign, this`nested, buf, buf.buf
      ensures Valid() && (buf.buf == old(buf.buf) || fresh(buf.buf))
      ensures (st, off) == BuilderSpec.CreateOffsetVector(old(st), offs)
    {
      hide Valid, PaddingBytes, LE, Zeros, BuilderSpec.StartVector, BuilderSpec.PushOffsets, Within;
      OffsetVectorRoom(st, offs);
      StartVector(|offs|, 4, 4);
      PushOffsets(offs);
      Agree();
      off := EndVector(|offs|);
    }

    method PushOffsets(offs: seq<nat>)
      requires Valid() && Within(offs, |st.data|) && forall k :: 0 <= k < |offs| ==> 0 < offs[k]
      requires UpToLength(BuilderSpec.PushOffsets(st, offs).data)
      modifies this`st, this`minalign, buf, buf.buf
      ensures Valid() && (buf.buf == old(buf.buf) || fresh(buf.buf))
      ensures st == BuilderSpec.PushOffsets(old(st), offs) && st.nested == old(st).nested
    {
      hide Valid, BuilderSpec.PushOffset;
      var i := |offs|;
      assert offs[..i] == offs;
      while 0 < i
        invariant 0 <= i <= |offs|
        invariant Valid() && (buf.buf == old(buf.buf) || fresh(buf.buf))
        invariant Within(offs[..i], |st.data|) && st.nested == old(st).nested
        invariant BuilderSpec.PushOffsets(st, offs[..i]) == BuilderSpec.PushOffsets(old(st), offs)
      {
        i := i - 1;
        assert offs[..i + 1][..i] == offs[..i];
        PushOffsetGrows(st, offs[i]);
        PushOffsetsGrow(BuilderSpec.PushOffset(st, offs[i]), offs[..i]);
        var _ := PushOffset(offs[i]);
      }
    }

    // ---- finishing -----------------------------------------------------------------------------

    /** Forgets the vtables and aligns the whole buffer for the header to come. */
    method AlignHeader(identifier: Option<seq<Byte>>, sizePrefix: bool)
      requires Valid() && numFieldLoc == 0
      requires |BuilderSpec.AlignHeader(st, identifier, sizePrefix).data| <= MAX_BUFFER_SIZE
      modifies this`st, this`minalign, buf, buf.buf
      ensures Valid() && (buf.buf == old(buf.buf) || fresh(buf.buf))
      ensures st == BuilderSpec.AlignHeader(old(st), identifier, sizePrefix)
    {
      hide PaddingBytes, Zeros, BuilderSpec.PreAlign;
      buf.ClearScratch();
      minalign := Max(minalign, if sizePrefix then 4 else 0);
      st := TrackMinAlign(st.(vtables := []), if sizePrefix then 4 else 0);
      PreAlign(FinishHeader(identifier, sizePrefix), minalign);
    }

    /** The identifier, if any, and in front of it the offset of the root. */
    method PushRoot(root: nat, identifier: Option<seq<Byte>>)
      requires Valid() && 0 < root <= |st.data|
      requires UpToLength(BuilderSpec.PushRoot(st, root, identifier).data)
      modifies this`st, this`minalign, buf, buf.buf
      ensures Valid() && (buf.buf == old(buf.buf) || fresh(buf.buf))
      ensures st == BuilderSpec.PushRoot(old(st), root, identifier)
    {
      hide PaddingBytes, LE, Zeros, Valid, BuilderSpec.PushOffset;
      PushOffsetGrows(if identifier.Some? then Push(st, identifier.value) else st, root);
      if identifier.Some? { PushBytes(identifier.value); }
      var _ := PushOffset(root);
    }

    method Finish(root: nat, identifier: Option<seq<Byte>>, sizePrefix: bool)
      requires Valid() && !finished && NotNested() && 0 < root <= |st.data|
      requires identifier.Some? ==> |identifier.value| == 4
      requires UpToLength(BuilderSpec.Finish(st, root, identifier, sizePrefix).data)
      modifies this`st, this`minalign, this`finished, buf, buf.buf
      ensures Valid() && (buf.buf == old(buf.buf) || fresh(buf.buf))
      ensures st == BuilderSpec.Finish(old(st), root, identifier, sizePrefix)
    {
      hide PaddingBytes, LE, Zeros, Valid, BuilderSpec.PushRoot, BuilderSpec.AlignHeader;
      Agree();
      AlignHeaderGrows(st, identifier, sizePrefix);
      PushRootGrows(BuilderSpec.AlignHeader(st, identifier, sizePrefix), root, identifier);
      AlignHeader(identifier, sizePrefix);
      PushRoot(root, identifier);
      Agree();
      if sizePrefix { var _ := PushElement(buf.size, 4); }
      SetFinished();
    }

    method SetFinished()
      requires Valid()
      modifies this`st, this`finished
      ensures Valid() && st == old(st).(finished := true)
    {
      finished := true;
      st := st.(finished := true);
    }

    method SetNested(open: bool)
      requires Valid()
      modifies this`st, this`nested
      ensures Valid() && st == old(st).(nested := open)
    {
      nested := open;
      st := st.(nested := open);
    }

    /** The fields and the value agree. */
    lemma Agree()
      requires Valid()
      ensures buf.size == |st.data| && maxVoffset == st.maxVoffset && numFieldLoc == |st.fields|
      ensures nested == st.nested && pool == st.pool && minalign == st.minalign && 0 < st.minalign
      ensures buf.scratch == 4 * |st.vtables| + FIELD_LOC_SIZE * |st.fields|
    {
    }
  }
}
