/** Finding the start of a buffer from its root: the inverse of GetRoot. */
module RootPointer {
  import opened Bytes
  import opened Wrappers
  import opened BuilderSpec
  import opened Table
  import opened Schema
  import opened TableLayout
  import opened Layout
  import opened BuildLaid
  import opened Building
  import opened TableBuild
  import opened BuildRuns
  import opened FinishedBuffers

  /** FLATBUFFERS_MAX_ALIGNMENT / sizeof(uoffset_t) + 1. */
  const POSSIBLE_ROOTS: nat := 9

  /** Steps back by four bytes until the offset read there leads to the root; None when the attempts
      run out or a read would fall outside. */
  function SearchBack(buf: seq<Byte>, root: nat, start: nat, tries: nat): Option<nat>
    decreases tries
  {
    if tries == 0 || start < 4 then None
    else
      var o :- ReadScalar(buf, start - 4, 4);
      if o + (start - 4) == root then Some(start - 4) else SearchBack(buf, root, start - 4, tries - 1)
  }

  /** The search starts at the lower of root and vtable, rounded down to a multiple of four. */
  function StartFromRoot(buf: seq<Byte>, root: nat): Option<nat> {
    var vtable :- GetVTable(buf, root);
    var low := if vtable < root then vtable else root;
    if low < 0 then None else SearchBack(buf, root, low - low % 4, POSSIBLE_ROOTS)
  }

  /** The loop of GetBufferStartFromRootPointer, for a buffer on a 4-aligned address. */
  method GetBufferStartFromRootPointer(buf: seq<Byte>, root: nat) returns (r: Option<nat>)
    ensures r == StartFromRoot(buf, root)
  {
    hide Word, GetVTable;
    var vtable := GetVTable(buf, root);
    if vtable.None? { return None; }
    var low := if vtable.value < root then vtable.value else root;
    if low < 0 { return None; }
    var start := low - low % 4;
    var possibleRoots := POSSIBLE_ROOTS;
    while possibleRoots != 0
      invariant start >= 0
      invariant StartFromRoot(buf, root) == SearchBack(buf, root, start, possibleRoots)
    {
      if start < 4 { return None; }
      start := start - 4;
      var o := ReadScalar(buf, start, 4);
      if o.None? { return None; }
      if o.value + start == root { return Some(start); }
      possibleRoots := possibleRoots - 1;
    }
    return None;
  }

  /** The search passes over positions that do not lead to the root and stops at the one that does. */
  lemma {:induction false} SearchFinds(buf: seq<Byte>, root: nat, goal: nat, start: nat, tries: nat)
    requires goal < start && start % 4 == 0 && goal % 4 == 0 && start - goal <= 4 * tries && start <= |buf|
    requires Word(buf, goal, 4) + goal == root
    requires forall q :: goal < q && q + 4 <= start && q % 4 == 0 ==> !LeadsTo(buf, q, root)
    ensures SearchBack(buf, root, start, tries) == Some(goal)
    decreases tries
  {
    hide Word;
    if start - 4 != goal {
      assert !LeadsTo(buf, start - 4, root);
      SearchFinds(buf, root, goal, start - 4, tries - 1);
    }
  }

  predicate LeadsTo(buf: seq<Byte>, q: nat, root: nat) {
    q + 4 <= |buf| && Word(buf, q, 4) + q == root
  }

  /** Going back from `start` by fours, q is the first position that leads to the root. */
  ghost predicate FirstBack(buf: seq<Byte>, root: nat, start: nat, q: nat) {
    && q + 4 <= start && (start - q) % 4 == 0 && LeadsTo(buf, q, root)
    && forall x: nat :: q < x && x + 4 <= start && (start - x) % 4 == 0 ==> !LeadsTo(buf, x, root)
  }

  lemma {:induction false} SearchExactly(buf: seq<Byte>, root: nat, start: nat, tries: nat, q: nat)
    requires start <= |buf|
    ensures SearchBack(buf, root, start, tries) == Some(q) <==> FirstBack(buf, root, start, q) && start - q <= 4 * tries
    decreases tries
  {
    hide Word;
    if 0 < tries && 4 <= start {
      if !LeadsTo(buf, start - 4, root) { SearchExactly(buf, root, start - 4, tries - 1, q); }
    }
  }

  /** What the search returns, for all bytes: the first of the nine positions in front of root and vtable
      that leads to the root, and nothing if none does. */
  lemma StartIsFirst(buf: seq<Byte>, root: nat, q: nat)
    ensures StartFromRoot(buf, root) == Some(q) <==>
              match GetVTable(buf, root)
              case None => false
              case Some(vtable) =>
                && 0 <= vtable
                && var low: nat := if vtable < root then vtable else root;
                var start := low / 4 * 4;
                FirstBack(buf, root, start, q) && start - q <= 36
  {
    hide Word, SearchBack, FirstBack;
    var vtable := GetVTable(buf, root);
    if vtable.Some? && 0 <= vtable.value {
      var low: nat := if vtable.value < root then vtable.value else root;
      assert low - low % 4 == low / 4 * 4;
      SearchExactly(buf, root, low / 4 * 4, POSSIBLE_ROOTS, q);
    }
  }

  // ---- what lies in front of the last table ----------------------------------------------------

  lemma ZeroWord(buf: seq<Byte>, q: nat)
    requires q + 4 <= |buf| && forall i :: q <= i < q + 4 ==> buf[i] == 0
    ensures Word(buf, q, 4) == 0
  {
    var s := buf[q..q + 4];
    assert s == Zeros(4);
    ZerosAreZero(4);
  }

  lemma {:induction false} ZerosAreZero(n: nat)
    ensures FromLE(Zeros(n)) == 0
  {
    if n > 0 {
      assert Zeros(n)[1..] == Zeros(n - 1);
      ZerosAreZero(n - 1);
    }
  }

  /** Four bytes without a zero make a number of more than 16 million. */
  lemma TextWord(s: seq<Byte>)
    requires |s| == 4 && forall i :: 0 <= i < 4 ==> s[i] != 0
    ensures FromLE(s) >= 0x0101_0101
  {
    assert FromLE(s) == s[0] + 256 * FromLE(s[1..]);
    assert FromLE(s[1..]) == s[1] + 256 * FromLE(s[2..]) by { assert s[1..][1..] == s[2..]; }
    assert FromLE(s[2..]) == s[2] + 256 * FromLE(s[3..]) by { assert s[2..][1..] == s[3..]; }
    assert FromLE(s[3..]) == s[3] + 256 * FromLE([]) by { assert s[3..][1..] == []; }
  }

  /** The root is the object written last: the buffer starts with it or with its own new vtable. */
  ghost predicate RootIsFirst(data: seq<Byte>, loc: nat) {
    && 4 <= loc <= |data| && loc % 4 == 0
    && |data| - loc < U16
    && 0 <= VtableOf(data, loc) <= |data|
    && |data| == (if VtableOf(data, loc) > loc then VtableOf(data, loc) else loc)
  }

  /** The header, then fewer than `minalign` zero bytes, then the objects. */
  ghost predicate PaddedHeader(buf: seq<Byte>, data: seq<Byte>, minalign: nat, header: nat) {
    && Extends(buf, data) && header <= |buf| - |data| < header + minalign
    && forall i :: header <= i < |buf| - |data| ==> buf[i] == 0
  }

  /** What the search meets between the true start and where it begins. */
  lemma NothingImpersonates(buf: seq<Byte>, data: seq<Byte>, loc: nat, minalign: nat,
                            identifier: Option<seq<Byte>>, sizePrefix: bool, q: nat)
    requires RootIsFirst(data, loc) && HeaderOk(buf, data, loc, identifier, sizePrefix) && minalign <= 32
    requires PaddedHeader(buf, data, minalign, FinishHeader(identifier, sizePrefix))
    requires identifier.Some? ==> forall i :: 0 <= i < 4 ==> identifier.value[i] != 0
    requires Start(sizePrefix) < q && q + 4 <= |buf| - |data| && q % 4 == 0
    ensures !LeadsTo(buf, q, |buf| - loc)
  {
    var start := Start(sizePrefix);
    if identifier.Some? && q == start + 4 {
      assert buf[q..q + 4] == identifier.value;
      TextWord(identifier.value);
    } else {
      ZeroWord(buf, q);
    }
  }

  lemma StartFound(buf: seq<Byte>, data: seq<Byte>, loc: nat, minalign: nat, identifier: Option<seq<Byte>>, sizePrefix: bool)
    requires RootIsFirst(data, loc) && HeaderOk(buf, data, loc, identifier, sizePrefix) && minalign <= 32
    requires PaddedHeader(buf, data, minalign, FinishHeader(identifier, sizePrefix))
    requires identifier.Some? ==> forall i :: 0 <= i < 4 ==> identifier.value[i] != 0
    ensures StartFromRoot(buf, |buf| - loc) == Some(Start(sizePrefix))
  {
    hide RootIsFirst, HeaderOk, PaddedHeader, Word, SearchBack, LeadsTo, StartFromRoot;
    var low := SearchBegins(buf, data, loc, identifier, sizePrefix, minalign);
    forall q | Start(sizePrefix) < q && q + 4 <= low - low % 4 && q % 4 == 0
      ensures !LeadsTo(buf, q, |buf| - loc)
    {
      NothingImpersonates(buf, data, loc, minalign, identifier, sizePrefix, q);
    }
    SearchFinds(buf, |buf| - loc, Start(sizePrefix), low - low % 4, POSSIBLE_ROOTS);
  }

  lemma SearchBegins(buf: seq<Byte>, data: seq<Byte>, loc: nat, identifier: Option<seq<Byte>>, sizePrefix: bool, minalign: nat)
    returns (low: nat)
    requires RootIsFirst(data, loc) && HeaderOk(buf, data, loc, identifier, sizePrefix) && minalign <= 32
    requires PaddedHeader(buf, data, minalign, FinishHeader(identifier, sizePrefix))
    ensures low == |buf| - |data| && low <= |buf| && loc <= |data|
    ensures StartFromRoot(buf, |buf| - loc) == SearchBack(buf, |buf| - loc, low - low % 4, POSSIBLE_ROOTS)
    ensures Start(sizePrefix) < low - low % 4 <= Start(sizePrefix) + 4 * POSSIBLE_ROOTS
    ensures Word(buf, Start(sizePrefix), 4) + Start(sizePrefix) == |buf| - loc
  {
    hide Word, StartFromRoot, SearchBack, VtableOf, Extends;
    ExtendsLength(buf, data);
    low := |buf| - |data|;
    LowestOfBoth(buf, data, loc);
    HeaderSpan(buf, data, identifier, sizePrefix, minalign, loc);
  }

  /** The lower of root and vtable is where the objects begin. */
  lemma LowestOfBoth(buf: seq<Byte>, data: seq<Byte>, loc: nat)
    requires RootIsFirst(data, loc) && Extends(buf, data)
    ensures var low := |buf| - |data|;
            StartFromRoot(buf, |buf| - loc) == SearchBack(buf, |buf| - loc, low - low % 4, POSSIBLE_ROOTS)
  {
    hide SearchBack, Signed32, Extends, At, GetVTable, Word;
    ExtendsLength(buf, data);
    AtStable(buf, data, loc, 4);
    VTableRead(buf, loc);
  }

  lemma VTableRead(buf: seq<Byte>, loc: nat)
    requires 4 <= loc <= |buf|
    ensures GetVTable(buf, |buf| - loc) == Some(|buf| - VtableOf(buf, loc))
  {
  }

  /** Nine steps are enough: the header and its padding span at most 36 bytes after the start. */
  lemma HeaderSpan(buf: seq<Byte>, data: seq<Byte>, identifier: Option<seq<Byte>>, sizePrefix: bool, minalign: nat, loc: nat)
    requires HeaderOk(buf, data, loc, identifier, sizePrefix) && minalign <= 32
    requires PaddedHeader(buf, data, minalign, FinishHeader(identifier, sizePrefix))
    ensures var low := |buf| - |data|;
            Start(sizePrefix) < low - low % 4 <= Start(sizePrefix) + 4 * POSSIBLE_ROOTS
    ensures Word(buf, Start(sizePrefix), 4) + Start(sizePrefix) == |buf| - loc
  {
    hide Word, Extends;
  }

  // ---- the builder leaves it so ----------------------------------------------------------------

  lemma PaddingIsZero(st: State, root: nat, identifier: Option<seq<Byte>>, sizePrefix: bool)
    requires IsAlignment(st.minalign) && 4 <= st.minalign && 0 < root <= |st.data| && IsIdentifier(identifier)
    requires |Finish(st, root, identifier, sizePrefix).data| <= MAX_BUFFER_SIZE
    ensures var f := Finish(st, root, identifier, sizePrefix);
            PaddedHeader(f.data, st.data, f.minalign, FinishHeader(identifier, sizePrefix))
  {
    hide PaddingBytes, IsAlignment, HeaderOk, Extends, LE, Finish, PaddedHeader, PreAlign;
    FinishLays(st, root, identifier, sizePrefix);
    var header := FinishHeader(identifier, sizePrefix);
    var t := TrackMinAlign(st.(vtables := []), if sizePrefix then 4 else 0);
    var a := PreAlign(t, header, t.minalign);
    PreAlignGrows(t, header, t.minalign);
    HeaderAligned(|a.data|, header, t.minalign);
    var pad := PadOf(t, header);
    FinishIsFront(st, a, root, identifier, sizePrefix);
    FrontThenPadding(FrontOf(a, root, identifier, sizePrefix), pad, st.data, st.minalign);
  }

  lemma PadOf(t: State, header: nat) returns (pad: seq<Byte>)
    requires IsAlignment(t.minalign) && header != 0
    ensures PreAlign(t, header, t.minalign).data == pad + t.data
    ensures |pad| < t.minalign && forall i :: 0 <= i < |pad| ==> pad[i] == 0
  {
    PaddingIsLeast(|t.data| + header, t.minalign);
    pad := Zeros(PaddingBytes(|t.data| + header, t.minalign));
  }

  lemma FrontThenPadding(front: seq<Byte>, pad: seq<Byte>, data: seq<Byte>, minalign: nat)
    requires |pad| < minalign && forall i :: 0 <= i < |pad| ==> pad[i] == 0
    ensures PaddedHeader(front + (pad + data), data, minalign, |front|)
  {
    ExtendsPrepend(pad, data);
    ExtendsPrepend(front, pad + data);
    ExtendsTransitive(front + (pad + data), pad + data, data);
  }

  /** The bytes Finish writes in front of the padding. */
  function FrontOf(a: State, root: nat, identifier: Option<seq<Byte>>, sizePrefix: bool): (s: seq<Byte>)
    requires root <= |a.data| && IsIdentifier(identifier)
    ensures |s| == FinishHeader(identifier, sizePrefix)
  {
    var id := match identifier { case Some(id) => id case None => [] };
    var n := |a.data| + |id|;
    (if sizePrefix then LE(n + 4, 4) else []) + (LE(ReferTo(root, n), 4) + id)
  }

  lemma FinishIsFront(st: State, a: State, root: nat, identifier: Option<seq<Byte>>, sizePrefix: bool)
    requires 4 <= st.minalign && 0 < root <= |st.data| && IsIdentifier(identifier)
    requires a == PreAlign(TrackMinAlign(st.(vtables := []), if sizePrefix then 4 else 0), FinishHeader(identifier, sizePrefix), st.minalign)
    requires |a.data| % 4 == 0 && root <= |a.data| && 4 <= a.minalign
    ensures Finish(st, root, identifier, sizePrefix).data == FrontOf(a, root, identifier, sizePrefix) + a.data
  {
    hide PreAlign, PaddingBytes, LE, Align;
    var id := match identifier { case Some(id) => id case None => [] };
    var b := match identifier { case Some(id) => Push(a, id) case None => a };
    assert b.data == id + a.data;
    AlignIsNothing(b);
    var c := PushOffset(b, root);
    AlignIsNothing(c);
    var word := LE(ReferTo(root, |b.data|), 4);
    Regroup(word, id, a.data);
    Regroup(if sizePrefix then LE(|c.data|, 4) else [], word + id, a.data);
  }

  lemma Regroup(a: seq<Byte>, b: seq<Byte>, c: seq<Byte>)
    ensures a + (b + c) == (a + b) + c
    ensures [] + (b + c) == b + c
  {
  }

  /** A table just closed is the first object in the buffer, together with its vtable if that is new. */
  lemma ClosedIsFirst(cfg: Config, a: State, start: nat, r: State, loc: nat)
    requires FieldsOk(a, start) && VtablesOk(a.data, a.vtables)
    requires TableEnd(a.data) - start < U16 && TableEnd(a.data) <= MAX_BUFFER_SIZE
    requires EndTable(cfg, a, start) == (r, loc)
    ensures RootIsFirst(r.data, loc)
  {
    hide ClosedOver, RootIsFirst, EndTable, VtablesOk, FieldsOk;
    var v := EndTableChoice(cfg, a, start, r, loc);
    assert start <= loc by { EndTableLayout(cfg, a, start, r, loc); FieldsStart(a, start); }
    FirstFromClosed(r.data, a.data, loc, v, WantedVtable(a, start, loc));
  }

  lemma FirstFromClosed(data: seq<Byte>, older: seq<Byte>, loc: nat, v: nat, vt: seq<Byte>)
    requires ClosedOver(data, older, loc, v, vt) && |data| == (if v > loc then v else loc) && |data| - loc < U16
    ensures RootIsFirst(data, loc)
  {
  }

  /** Inverse of GetRoot: if the root table is the last object built, its buffer's start is found, for
      any alignment up to the maximum and any identifier without zero bytes. */
  lemma StartIsFound(cfg: Config, sch: Schema, ops: seq<Op>, identifier: Option<seq<Byte>>, sizePrefix: bool,
                     st: State, offs: seq<nat>, f: State, root: nat)
    requires SchemaOk(sch) && WellTyped(sch, ops) && 0 < |ops| && ops[|ops| - 1].MakeTable?
    requires FinishedRun(cfg, ops, |ops| - 1, identifier, sizePrefix, st, offs, f)
    requires identifier.Some? ==> forall i :: 0 <= i < 4 ==> identifier.value[i] != 0
    requires GetRoot(f.data, Start(sizePrefix)) == Some(root)
    ensures StartFromRoot(f.data, root) == Some(Start(sizePrefix))
  {
    hide Finish, Run, Laid, WellTyped, SchemaOk, HeaderOk, PaddedHeader, RootIsFirst, StartFromRoot, IsAlignment;
    var n := |ops| - 1;
    LastIsFirst(cfg, sch, ops, st, offs);
    FinishedLays(cfg, sch, ops, n, identifier, sizePrefix, st, offs, f, n);
    FinishedAligned(cfg, sch, ops, n, identifier, sizePrefix, st, offs, f);
    PaddingIsZero(st, offs[n], identifier, sizePrefix);
    RootPosition(f.data, st.data, offs[n], identifier, sizePrefix);
    StartFound(f.data, st.data, offs[n], f.minalign, identifier, sizePrefix);
  }

  lemma FinishedAligned(cfg: Config, sch: Schema, ops: seq<Op>, n: nat, identifier: Option<seq<Byte>>, sizePrefix: bool,
                        st: State, offs: seq<nat>, f: State)
    requires SchemaOk(sch) && WellTyped(sch, ops) && 0 < |ops|
    requires FinishedRun(cfg, ops, n, identifier, sizePrefix, st, offs, f)
    ensures IsAlignment(st.minalign) && 4 <= st.minalign && f.minalign <= 32 && 0 < offs[n] <= |st.data|
  {
    hide Run, LaidOp, Finish, WellTyped, SchemaOk, PoolOk, VtablesOk;
    assert ops[..|ops|] == ops;
    RunBuilds(cfg, sch, ops, |ops|);
    FinishLays(st, offs[n], identifier, sizePrefix);
  }

  lemma RootPosition(buf: seq<Byte>, older: seq<Byte>, root: nat, identifier: Option<seq<Byte>>, sizePrefix: bool)
    requires HeaderOk(buf, older, root, identifier, sizePrefix)
    ensures root <= |buf| && GetRoot(buf, Start(sizePrefix)) == Some(|buf| - root)
  {
    hide Extends;
  }

  lemma LastIsFirst(cfg: Config, sch: Schema, ops: seq<Op>, st: State, offs: seq<nat>)
    requires SchemaOk(sch) && WellTyped(sch, ops) && 0 < |ops| == |offs| && ops[|ops| - 1].MakeTable?
    requires Run(cfg, ops) == Some((st, offs))
    ensures RootIsFirst(st.data, offs[|ops| - 1])
  {
    hide Step, Built, RootIsFirst, SchemaOk, WellTyped;
    var n := |ops| - 1;
    RunBuilds(cfg, sch, ops, n);
    var (st0, offs0) := Run(cfg, ops[..n]).value;
    var (r, o) := Step(cfg, st0, offs0, ops[n]).value;
    assert Run(cfg, ops) == Some((r, offs0 + [o]));
    assert offs == offs0 + [o] && offs[n] == o;
    LastStepIsFirst(cfg, sch, ops, n, st0, offs0, st, offs[n]);
  }

  lemma LastStepIsFirst(cfg: Config, sch: Schema, ops: seq<Op>, m: nat, st: State, offs: seq<nat>, r: State, o: nat)
    requires SchemaOk(sch) && WellTyped(sch, ops) && m < |ops| && Built(sch, ops, m, st, offs)
    requires ops[m].MakeTable? && Step(cfg, st, offs, ops[m]) == Some((r, o))
    ensures RootIsFirst(r.data, o)
  {
    hide AddInits, EndTable, WellTyped, SchemaOk, LaidOp, PoolOk, FieldsOk, TableEnd, VtablesInBounds, InitsOk, Holds,
         Extends, VtablesOk, RootIsFirst;
    var s := StartTable(st);
    var a := AddInits(cfg, s, offs, ops[m].inits);
    TableEndBound(a.data);
    AddInitsStore(cfg, s, offs, ops[m].inits);
    GrewExtends(a, s);
    VtablesStable(a.data, st.data, st.vtables);
    ClosedIsFirst(cfg, a, |st.data|, r, o);
  }
}
