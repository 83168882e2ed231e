/** What an operation writes, to the byte: its content behind the least padding, all of it zeros, and no
    more; and the alignment of a finished buffer is the largest that some operation of the run asked for. */
module BuildExact {
  import opened Bytes
  import opened Wrappers
  import opened BuilderSpec
  import opened Schema
  import opened Layout
  import opened TableLayout
  import opened BuildLaid
  import opened Building
  import opened TableBuild
  import opened BuildRuns
  import opened FinishedBuffers

  /** Content written in one piece: `front`, then as few zeros as make it end on a multiple of `align`. */
  function Padded(data: seq<Byte>, front: seq<Byte>, align: nat): seq<Byte>
    requires align > 0
  {
    front + (Zeros(PaddingBytes(|data| + |front|, align)) + data)
  }

  lemma LeastPadding(n: nat, p: nat, size: nat)
    requires IsAlignment(size) && p < size && (n + p) % size == 0
    ensures PaddingBytes(n, size) == p
  {
    PaddingIsLeast(n, size);
    assert Reaches(n, p, size);
    var least := PaddingBytes(n, size);
    if least < p {
      DifferenceOfMultiples(n + p, n + least, size);
      assert false;
    }
  }

  /** Padding is the same for sizes that differ by a multiple. */
  lemma PaddingShifts(n: nat, k: nat, size: nat)
    requires IsAlignment(size) && k % size == 0
    ensures PaddingBytes(n + k, size) == PaddingBytes(n, size)
  {
    PaddingIsLeast(n, size);
    var p := PaddingBytes(n, size);
    SumOfMultiples(n + p, k, size);
    LeastPadding(n + k, p, size);
  }

  lemma ZerosTogether(a: nat, b: nat)
    ensures Zeros(a) + Zeros(b) == Zeros(a + b)
  {
  }

  lemma AlignedScalar(st: State, v: nat)
    requires |st.data| % 4 == 0
    ensures PushScalar(st, v, 4) == st.(data := LE(v, 4) + st.data, minalign := Max(st.minalign, 4))
  {
    NoPadding(|st.data|, 4);
    assert Zeros(0) + st.data == st.data;
  }

  lemma Joined(a: seq<Byte>, b: seq<Byte>, c: seq<Byte>)
    ensures a + (b + c) == (a + b) + c
  {
  }

  /** A length in front of a body that ends aligned. */
  lemma LengthPadded(data: seq<Byte>, length: seq<Byte>, body: seq<Byte>)
    requires |length| == 4
    ensures length + (body + (Zeros(PaddingBytes(|data| + |body|, 4)) + data)) == Padded(data, length + body, 4)
  {
    hide PaddingBytes, Zeros;
    PaddingShifts(|data| + |body|, 4, 4);
    Joined(length, body, Zeros(PaddingBytes(|data| + |body|, 4)) + data);
  }

  /** The characters and their zero, before the length. */
  lemma StringBody(st: State, str: seq<Byte>, body: seq<Byte>)
    requires body == str + [0]
    ensures var b := Push(Push(PreAlign(st, |str| + 1, 4), [0]), str);
            && b == st.(data := body + (Zeros(PaddingBytes(|st.data| + |body|, 4)) + st.data), minalign := Max(st.minalign, 4))
            && |b.data| % 4 == 0
  {
    hide PaddingBytes, Zeros;
    EndsAligned(|st.data|, |body|, PaddingBytes(|st.data| + |body|, 4));
    Joined(str, [0], Zeros(PaddingBytes(|st.data| + |body|, 4)) + st.data);
  }

  lemma LengthWritten(b: State, st: State, n: nat, body: seq<Byte>)
    requires b == st.(data := body + (Zeros(PaddingBytes(|st.data| + |body|, 4)) + st.data), minalign := Max(st.minalign, 4))
    requires |b.data| % 4 == 0
    ensures PushScalar(b, n, 4) == st.(data := Padded(st.data, LE(n, 4) + body, 4), minalign := Max(st.minalign, 4))
  {
    hide LE, PaddingBytes, PushScalar, Zeros, Padded;
    AlignedScalar(b, n);
    LengthPadded(st.data, LE(n, 4), body);
  }

  /** A string: its length, its characters, a zero, and as few zeros more as align the length. */
  lemma StringExact(st: State, str: seq<Byte>, body: seq<Byte>)
    requires body == str + [0]
    ensures var (r, o) := CreateString(st, str);
            && o == |r.data|
            && r == st.(data := Padded(st.data, LE(|str|, 4) + body, 4), minalign := Max(st.minalign, 4))
  {
    hide LE, PaddingBytes, PushScalar, Zeros, Padded, PreAlign, Push;
    StringBody(st, str, body);
    var b := Push(Push(PreAlign(st, |str| + 1, 4), [0]), str);
    LengthWritten(b, st, |str|, body);
  }

  lemma EndsAligned(size: nat, n: nat, p: nat)
    requires p == PaddingBytes(size + n, 4)
    ensures (size + n + p) % 4 == 0
  {
    PaddingIsLeast(size + n, 4);
  }

  /** A shared string is written only if no equal one is pooled. */
  lemma SharedStringExact(st: State, str: seq<Byte>, body: seq<Byte>)
    requires PoolInBounds(st.data, st.pool) && body == str + [0]
    ensures var (r, o) := CreateSharedString(st, str);
            if exists k :: 0 <= k < |st.pool| && StringBytes(st.data, st.pool[k]) == str
            then r == st.(minalign := Max(st.minalign, 4)) && exists k :: 0 <= k < |st.pool| && st.pool[k] == o
            else o == |r.data| && r == st.(data := Padded(st.data, LE(|str|, 4) + body, 4),
                                           minalign := Max(st.minalign, 4), pool := st.pool + [o])
  {
    hide LE, Padded, CreateString;
    StringExact(st, str, body);
    FindStringMatches(st.data, st.pool, str);
  }

  /** What the elements of a vector ask for; an empty one has its length only. */
  function VectorAlignment(n: nat, size: nat): (r: nat)
    ensures 4 <= r && (IsAlignment(size) ==> IsAlignment(r))
  {
    if n == 0 then 4 else Max(4, size)
  }

  /** The two alignments of StartVector are one: the larger. */
  lemma StartVectorExact(st: State, n: nat, size: nat)
    requires IsScalarSize(size) && n > 0
    ensures var a, p := StartVector(st, n, size, size), PaddingBytes(|st.data| + n * size, Max(4, size));
            && a == st.(data := Zeros(p) + st.data, minalign := Max(st.minalign, Max(4, size)), nested := true)
            && (|a.data| + n * size) % 4 == 0
  {
    hide PaddingBytes;
    var len := n * size;
    assert len > 0;
    var s := st.(nested := true);
    var a := PreAlign(s, len, 4);
    PaddingIsLeast(|st.data| + len, 4);
    var p := PaddingBytes(|st.data| + len, 4);
    var b := PreAlign(a, len, size);
    PaddingIsLeast(|a.data| + len, size);
    var q := PaddingBytes(|a.data| + len, size);
    TwoPaddings(|st.data| + len, p, q, size);
    ZerosTogether(q, p);
    assert b.data == Zeros(q) + (Zeros(p) + st.data);
    assert b.data == Zeros(q) + Zeros(p) + st.data;
  }

  lemma TwoPaddings(n: nat, p: nat, q: nat, size: nat)
    requires IsScalarSize(size) && p == PaddingBytes(n, 4) && q == PaddingBytes(n + p, size)
    ensures q + p == PaddingBytes(n, Max(4, size)) && (n + p + q) % 4 == 0
  {
    PaddingIsLeast(n, 4);
    PaddingIsLeast(n + p, size);
    if size <= 4 {
      MultiplesCompose(n + p, size, 4);
      NoPadding(n + p, size);
    } else {
      MultiplesCompose(n + p + q, 4, size);
      DifferenceOfMultiples(n + p + q, n + p, 4);
      LeastPadding(n, p + q, size);
    }
  }

  lemma SomeScalarsExact(st: State, ns: seq<nat>, size: nat, elements: seq<Byte>, p: nat)
    requires IsScalarSize(size) && ns != [] && elements == Scalars(ns, size)
    requires p == PaddingBytes(|st.data| + |ns| * size, Max(4, size))
    ensures CreateScalarVector(st, ns, size).0
         == st.(data := LE(|ns|, 4) + (elements + (Zeros(p) + st.data)), minalign := Max(st.minalign, Max(4, size)), nested := false)
  {
    hide LE, PaddingBytes, Scalars, StartVector, EndVector, Zeros, Max;
    StartVectorExact(st, |ns|, size);
    assert 4 <= Max(4, size) by { FourOrMore(size); }
    ElementsExact(st, StartVector(st, |ns|, size, size), |ns|, elements, p, Max(4, size));
  }

  lemma FourOrMore(size: nat)
    ensures 4 <= Max(4, size)
  {
  }

  /** A vector: its length, its elements, and the least zeros that align the elements and the length. */
  lemma ScalarVectorExact(st: State, ns: seq<nat>, size: nat, p: nat)
    requires IsScalarSize(size) && p == PaddingBytes(|st.data| + |ns| * size, VectorAlignment(|ns|, size))
    ensures var (r, o) := CreateScalarVector(st, ns, size);
            && o == |r.data|
            && r == st.(data := LE(|ns|, 4) + (Scalars(ns, size) + (Zeros(p) + st.data)),
                        minalign := Max(st.minalign, VectorAlignment(|ns|, size)), nested := false)
  {
    hide LE, PaddingBytes, Scalars, StartVector, PushScalar, Zeros, Max;
    if ns == [] {
      NothingStarted(st, size);
      EmptyVectorExact(st, size);
      assert |st.data| + 0 * size == |st.data|;
    } else {
      SomeScalarsExact(st, ns, size, Scalars(ns, size), p);
    }
  }

  lemma ElementsExact(st: State, a: State, n: nat, elements: seq<Byte>, p: nat, align: nat)
    requires a == st.(data := Zeros(p) + st.data, minalign := Max(st.minalign, align), nested := true)
    requires 4 <= align && (|a.data| + |elements|) % 4 == 0
    ensures EndVector(Push(a, elements), n).0
         == st.(data := LE(n, 4) + (elements + (Zeros(p) + st.data)), minalign := Max(st.minalign, align), nested := false)
  {
    hide LE, PushScalar, Zeros;
    AlignedScalar(Push(a, elements).(nested := false), n);
  }

  lemma EmptyVectorExact(st: State, size: nat)
    requires IsScalarSize(size)
    ensures PushScalar(st.(data := Scalars([], size) + st.data, nested := false), 0, 4)
         == st.(data := LE(0, 4) + (Scalars([], size) + (Zeros(PaddingBytes(|st.data| + 0 * size, 4)) + st.data)),
                minalign := Max(st.minalign, 4), nested := false)
  {
    hide LE, PaddingBytes;
    assert Scalars([], size) + st.data == st.data;
    assert |st.data| + 0 * size == |st.data|;
    var z := Zeros(PaddingBytes(|st.data|, 4)) + st.data;
    assert Scalars([], size) + z == z;
  }

  lemma NothingStarted(st: State, size: nat)
    requires size > 0
    ensures StartVector(st, 0, size, size) == st.(nested := true)
  {
  }

  /** What a vector of offsets is behind: the least zeros that align it. */
  lemma OffsetVectorExact(st: State, offs: seq<nat>, p: nat)
    requires IsAlignment(st.minalign) && Within(offs, |st.data|) && Positive(offs) && |offs| < U31
    requires |CreateOffsetVector(st, offs).0.data| <= MAX_BUFFER_SIZE && p == PaddingBytes(|st.data|, 4)
    ensures var r := CreateOffsetVector(st, offs).0;
            && |r.data| == |st.data| + p + 4 * |offs| + 4
            && Tail(r.data, |st.data| + p) == Zeros(p) + st.data
            && r.minalign == Max(st.minalign, 4)
  {
    hide LE, PaddingBytes, PushOffsets, StartVector, Zeros, IsAlignment, Extends, PushScalar, Tail;
    var s := StartVector(st, |offs|, 4, 4);
    OffsetsStarted(st, |offs|);
    MaxAligns(st.minalign);
    if offs == [] {
      PushNoOffsets(s, offs);
      ZeroLength(s.(nested := false));
    } else {
      OffsetsExact(s, offs);
    }
  }

  lemma ZeroLength(st: State)
    ensures var r, p := PushScalar(st, 0, 4), PaddingBytes(|st.data|, 4);
            && |r.data| == |st.data| + p + 4 && Tail(r.data, |st.data| + p) == Zeros(p) + st.data
            && r.minalign == Max(st.minalign, 4)
  {
    hide LE, PaddingBytes, Zeros;
    var p := PaddingBytes(|st.data|, 4);
    TailBehind(LE(0, 4), Zeros(p) + st.data);
  }

  lemma OffsetsExact(s: State, offs: seq<nat>)
    requires IsAlignment(s.minalign) && Within(offs, |s.data|) && Positive(offs) && offs != [] && |s.data| % 4 == 0
    requires |EndVector(PushOffsets(s, offs), |offs|).0.data| <= MAX_BUFFER_SIZE
    ensures var r := EndVector(PushOffsets(s, offs), |offs|).0;
            && |r.data| == |s.data| + 4 * |offs| + 4 && Tail(r.data, |s.data|) == s.data && r.minalign == Max(s.minalign, 4)
  {
    hide LE, PaddingBytes, PushOffsets, IsAlignment, Extends, Tail;
    var c := PushOffsets(s, offs);
    PushOffsetsLength(s, offs);
    PushScalarLength(c.(nested := false), |offs|, 4);
    PushOffsetsLay(s, offs);
    PushOffsetsAlign(s, offs);
    GrewExtends(c, s);
    AlignedAfter(|s.data|, |offs|);
    AlignedScalar(c.(nested := false), |offs|);
    ExtendsPrepend(LE(|offs|, 4), c.data);
    ExtendsTransitive(LE(|offs|, 4) + c.data, c.data, s.data);
    TailOfExtension(LE(|offs|, 4) + c.data, s.data);
  }

  lemma MaxAligns(a: nat)
    requires IsAlignment(a)
    ensures IsAlignment(Max(a, 4))
  {
  }

  lemma TailBehind(front: seq<Byte>, rest: seq<Byte>)
    ensures Tail(front + rest, |rest|) == rest
  {
  }

  lemma TailOfExtension(newer: seq<Byte>, older: seq<Byte>)
    requires Extends(newer, older)
    ensures |older| <= |newer| && Tail(newer, |older|) == older
  {
  }

  lemma AlignedAfter(n: nat, k: nat)
    requires n % 4 == 0
    ensures (n + 4 * k) % 4 == 0
  {
  }

  lemma OffsetsStarted(st: State, n: nat)
    ensures var s, p := StartVector(st, n, 4, 4), PaddingBytes(|st.data|, 4);
            if n == 0 then s == st.(nested := true)
            else s == st.(data := Zeros(p) + st.data, minalign := Max(st.minalign, 4), nested := true) && |s.data| % 4 == 0
  {
    hide PaddingBytes, Zeros;
    if n == 0 {
      NothingStarted(st, 4);
    } else {
      StartVectorExact(st, n, 4);
      AlignedAfter(0, n);
      PaddingShifts(|st.data|, n * 4, 4);
      EndsAligned(|st.data|, 0, PaddingBytes(|st.data|, 4));
    }
  }

  lemma {:induction false} PushOffsetsAlign(st: State, offs: seq<nat>)
    requires Within(offs, |st.data|)
    ensures PushOffsets(st, offs).minalign == if offs == [] then st.minalign else Max(st.minalign, 4)
    decreases |offs|
  {
    if offs != [] { PushOffsetsAlign(PushOffset(st, offs[|offs| - 1]), offs[..|offs| - 1]); }
  }

  // ---- tables ----------------------------------------------------------------------------------

  /** The alignment a field asks for, 1 if it is not stored. */
  function InitAsks(cfg: Config, init: Init): nat {
    match init
    case SetScalar(_, v, def, size) => if v == def && !cfg.forceDefaults then 1 else size
    case SetRef(_, ref) => if ref.None? then 1 else 4
  }

  function InitsAsk(cfg: Config, inits: seq<Init>): nat {
    if inits == [] then 1 else Max(InitsAsk(cfg, inits[..|inits| - 1]), InitAsks(cfg, inits[|inits| - 1]))
  }

  /** A field stored takes its size behind the least zeros that align it. */
  lemma InitExact(cfg: Config, st: State, offs: seq<nat>, init: Init)
    requires InitOk(init, offs) && Within(offs, |st.data|) && Positive(offs) && 0 < st.minalign
    ensures var r, size := AddInit(cfg, st, offs, init), InitAsks(cfg, init);
            && r.minalign == Max(st.minalign, size)
            && if size == 1 && (init.SetRef? || (init.v == init.def && !cfg.forceDefaults)) then r == st
               else
                 var p := PaddingBytes(|st.data|, size);
                 |r.data| == |st.data| + p + size && Tail(r.data, |st.data| + p) == Zeros(p) + st.data
  {
    hide LE, Zeros;
    if init.SetRef? && init.ref.Some? {
      AlignTwice(st);
    }
  }

  lemma AlignTwice(st: State)
    ensures Align(Align(st, 4), 4) == Align(st, 4)
  {
    var a := Align(st, 4);
    EndsAligned(|st.data|, 0, PaddingBytes(|st.data|, 4));
    NoPadding(|a.data|, 4);
    assert Zeros(0) + a.data == a.data;
  }

  lemma {:induction false} InitsAlign(cfg: Config, st: State, offs: seq<nat>, inits: seq<Init>)
    requires InitsOk(inits, offs) && Within(offs, |st.data|) && Positive(offs) && 0 < st.minalign
    ensures AddInits(cfg, st, offs, inits).minalign == Max(st.minalign, InitsAsk(cfg, inits))
  {
    hide AddInit, InitAsks;
    if inits != [] {
      InitsPrefix(inits, offs);
      InitsAlign(cfg, st, offs, inits[..|inits| - 1]);
      InitExact(cfg, AddInits(cfg, st, offs, inits[..|inits| - 1]), offs, inits[|inits| - 1]);
    }
  }

  /** Closing a table: four bytes behind the least zeros that align them, and in front of them the vtable
      if no recorded one is equal or vtables are not shared; then the new one is recorded. */
  lemma EndTableExact(cfg: Config, st: State, start: nat, r: State, loc: nat)
    requires FieldsOk(st, start) && VtablesOk(st.data, st.vtables)
    requires TableEnd(st.data) - start < U16 && TableEnd(st.data) <= MAX_BUFFER_SIZE
    requires EndTable(cfg, st, start) == (r, loc)
    ensures r.minalign == Max(st.minalign, 4)
    ensures var p := PaddingBytes(|st.data|, 4);
            && loc == |st.data| + p + 4 <= |r.data|
            && Tail(r.data, |st.data| + p) == Zeros(p) + st.data
    ensures 4 <= loc <= |r.data| && 0 <= VtableOf(r.data, loc) && VtableOk(r.data, VtableOf(r.data, loc))
    ensures var v := VtableOf(r.data, loc);
            if cfg.dedupVtables && exists k :: 0 <= k < |st.vtables| && VtableBytes(st.data, st.vtables[k]) == VtableBytes(r.data, v)
            then r.vtables == st.vtables && |r.data| == loc && Recorded(st.vtables, v)
            else r.vtables == st.vtables + [v] && |r.data| == v == loc + At(r.data, v, 2)
  {
    hide EndTable, FieldsOk, WantedVtable, VtableBytes, VtableOk, At, TableEnd, FindVtable, VtablesOk, VtableInBounds, Extends;
    var v := EndTableChoice(cfg, st, start, r, loc);
    FieldsStart(st, start);
    TableEndAbove(st.data);
    AllInBounds(st.data, st.vtables);
    assert VtableOf(r.data, loc) == v by { VtableFound(r.data, st.data, loc, v, WantedVtable(st, start, loc)); }
    EndTableForm(cfg, st, start, r, loc);
    VtableLength(r.data, v);
    assert |r.vtables| == |st.vtables| + 1 ==> r.vtables[|st.vtables|] == v;
    assert VtableBytes(r.data, v) == WantedVtable(st, start, loc) by { ClosedBytes(r.data, st.data, loc, v, WantedVtable(st, start, loc)); }
  }

  lemma TableEndAbove(data: seq<Byte>)
    ensures |data| < TableEnd(data)
  {
  }

  lemma AllInBounds(data: seq<Byte>, vtables: seq<nat>)
    requires VtablesOk(data, vtables)
    ensures VtablesInBounds(data, vtables)
  {
  }

  lemma VtableLength(data: seq<Byte>, v: nat)
    requires VtableOk(data, v)
    ensures VtableInBounds(data, v) && |VtableBytes(data, v)| == At(data, v, 2)
  {
  }

  lemma VtableFound(newer: seq<Byte>, older: seq<Byte>, loc: nat, v: nat, vt: seq<Byte>)
    requires ClosedOver(newer, older, loc, v, vt)
    ensures 4 <= loc <= |newer| && VtableOf(newer, loc) == v
  {
  }

  lemma ClosedBytes(newer: seq<Byte>, older: seq<Byte>, loc: nat, v: nat, vt: seq<Byte>)
    requires ClosedOver(newer, older, loc, v, vt)
    ensures VtableOk(newer, v) && VtableBytes(newer, v) == vt
  {
  }

  lemma EndTableForm(cfg: Config, st: State, start: nat, r: State, loc: nat)
    requires start <= |st.data| && VtablesInBounds(st.data, st.vtables)
    requires EndTable(cfg, st, start) == (r, loc)
    ensures r.minalign == Max(st.minalign, 4) && loc == |st.data| + PaddingBytes(|st.data|, 4) + 4 <= |r.data|
    ensures var p := PaddingBytes(|st.data|, 4); Tail(r.data, |st.data| + p) == Zeros(p) + st.data
    ensures var vt := WantedVtable(st, start, loc);
            if cfg.dedupVtables && exists k :: 0 <= k < |st.vtables| && VtableBytes(st.data, st.vtables[k]) == vt
            then r.vtables == st.vtables && |r.data| == loc
            else r.vtables == st.vtables + [loc + |vt|] && |r.data| == loc + |vt|
  {
    hide PaddingBytes, Zeros, LE, VtableBytes, WantedVtable;
  }

  // ---- whole runs ------------------------------------------------------------------------------

  function Asks(cfg: Config, op: Op): nat {
    match op
    case MakeScalars(size, ns) => VectorAlignment(|ns|, size)
    case MakeTable(_, inits) => Max(InitsAsk(cfg, inits), 4)
    case _ => 4
  }

  function Largest(cfg: Config, ops: seq<Op>): (r: nat)
    ensures 0 < r
  {
    if ops == [] then 1 else Max(Largest(cfg, ops[..|ops| - 1]), Asks(cfg, ops[|ops| - 1]))
  }

  lemma StepAligns(cfg: Config, sch: Schema, ops: seq<Op>, m: nat, st: State, offs: seq<nat>, r: State, o: nat)
    requires SchemaOk(sch) && WellTyped(sch, ops) && m < |ops| && Built(sch, ops, m, st, offs)
    requires Step(cfg, st, offs, ops[m]) == Some((r, o))
    ensures r.minalign == Max(st.minalign, Asks(cfg, ops[m]))
  {
    hide SchemaOk, WellTyped, CreateString, CreateSharedString, CreateScalarVector, CreateOffsetVector, LE, Padded, PaddingBytes,
         EndTable, AddInits, InitsOk, VtablesInBounds, PoolInBounds, TableEnd, Max, LaidOp, PoolOk, VtablesOk, IsAlignment;
    assert OpTyped(sch, ops, m) by { TypedAt(sch, ops, m); }
    match ops[m]
    case MakeString(str) => StringExact(st, str, str + [0]);
    case MakeSharedString(str) => SharedStringExact(st, str, str + [0]);
    case MakeScalars(size, ns) =>
      ScalarVectorExact(st, ns, size, PaddingBytes(|st.data| + |ns| * size, VectorAlignment(|ns|, size)));
    case MakeStrings(refs) => OffsetsAlign(st, offs, refs);
    case MakeTables(_, refs) => OffsetsAlign(st, offs, refs);
    case MakeTable(_, inits) =>
      var a := AddInits(cfg, StartTable(st), offs, inits);
      MinalignPositive(st);
      InitsAlign(cfg, StartTable(st), offs, inits);
      EndTableForm(cfg, a, |st.data|, r, o);
      MaxInTurn(st.minalign, InitsAsk(cfg, inits), 4);
  }

  lemma TypedAt(sch: Schema, ops: seq<Op>, m: nat)
    requires WellTyped(sch, ops) && m < |ops|
    ensures OpTyped(sch, ops, m)
  {
  }

  lemma MinalignPositive(st: State)
    requires IsAlignment(st.minalign)
    ensures 0 < st.minalign
  {
  }

  lemma MaxInTurn(a: nat, b: nat, c: nat)
    ensures Max(Max(a, b), c) == Max(a, Max(b, c))
  {
  }

  lemma OffsetsAlign(st: State, offs: seq<nat>, refs: seq<nat>)
    requires IsAlignment(st.minalign) && Within(offs, |st.data|) && Positive(offs) && |refs| < U31 && RefsWithin(refs, |offs|)
    requires Sized(CreateOffsetVector(st, Resolve(refs, offs))).Some?
    ensures CreateOffsetVector(st, Resolve(refs, offs)).0.minalign == Max(st.minalign, 4)
  {
    hide CreateOffsetVector, PaddingBytes, IsAlignment;
    OffsetVectorExact(st, Resolve(refs, offs), PaddingBytes(|st.data|, 4));
  }

  /** The alignment kept for Finish is exactly the largest any operation asked for. */
  lemma {:induction false} RunAligns(cfg: Config, sch: Schema, ops: seq<Op>, m: nat)
    requires SchemaOk(sch) && WellTyped(sch, ops) && m <= |ops| && Run(cfg, ops[..m]).Some?
    ensures Run(cfg, ops[..m]).value.0.minalign == Largest(cfg, ops[..m])
  {
    hide Step, SchemaOk, WellTyped, Built, Asks;
    if m > 0 {
      assert ops[..m][..m - 1] == ops[..m - 1];
      RunAligns(cfg, sch, ops, m - 1);
      RunBuilds(cfg, sch, ops, m - 1);
      var (st, offs) := Run(cfg, ops[..m - 1]).value;
      var (r, o) := Step(cfg, st, offs, ops[m - 1]).value;
      StepAligns(cfg, sch, ops, m - 1, st, offs, r, o);
    }
  }

  /** Behind a header of that size, and the least zeros that bring the whole to a multiple of `align`. */
  predicate Enclosed(buf: seq<Byte>, inner: seq<Byte>, header: nat, align: nat)
    requires align > 0
  {
    var p := PaddingBytes(|inner| + header, align);
    |buf| == |inner| + p + header && Tail(buf, |inner| + p) == Zeros(p) + inner
  }

  lemma FinishExact(st: State, root: nat, identifier: Option<seq<Byte>>, sizePrefix: bool)
    requires IsAlignment(st.minalign) && 4 <= st.minalign && 0 < root <= |st.data| && IsIdentifier(identifier)
    requires |Finish(st, root, identifier, sizePrefix).data| <= MAX_BUFFER_SIZE
    ensures Enclosed(Finish(st, root, identifier, sizePrefix).data, st.data, FinishHeader(identifier, sizePrefix), st.minalign)
  {
    hide PaddingBytes, Zeros, LE, IsAlignment, PushOffset, PushScalar, HeaderOk, Extends, AlignHeader, Tail;
    var header := FinishHeader(identifier, sizePrefix);
    HeaderStarted(st, identifier, sizePrefix);
    var a := AlignHeader(st, identifier, sizePrefix);
    HeaderAligned(|a.data|, header, st.minalign);
    SizesBound(st, root, identifier, sizePrefix);
    RootExact(a, st, root, identifier);
    var c := PushRoot(a, root, identifier);
    var f := Finish(st, root, identifier, sizePrefix);
    if sizePrefix {
      PushLengthLays(c, |c.data|);
      GrewExtends(PushScalar(c, |c.data|, 4), c);
      ExtendsTransitive(f.data, c.data, a.data);
    }
    TailOfExtension(f.data, a.data);
  }

  /** The root offset and the identifier take four bytes each, with no padding. */
  lemma RootExact(a: State, st: State, root: nat, identifier: Option<seq<Byte>>)
    requires IsAlignment(a.minalign) && 4 <= a.minalign && Extends(a.data, st.data) && 0 < root <= |st.data|
    requires IsIdentifier(identifier) && |a.data| % 4 == 0
    requires |a.data| + 4 + (if identifier.Some? then 4 else 0) <= MAX_BUFFER_SIZE
    ensures |st.data| <= |a.data|
    ensures var c := PushRoot(a, root, identifier);
            && |c.data| == |a.data| + FinishHeader(identifier, false) && Extends(c.data, a.data)
            && IsAlignment(c.minalign) && |c.data| % 4 == 0
  {
    hide PaddingBytes, Zeros, LE, IsAlignment, PushOffset, PushScalar, HeaderOk, Extends, Grew, Tail;
    TailOfExtension(a.data, st.data);
    RootWritten(st, a, root, identifier);
    var b := match identifier { case Some(id) => Push(a, id) case None => a };
    var c := PushOffset(b, root);
    IdentifierExtends(a, identifier);
    PushOffsetLays(b, root);
    GrewExtends(c, b);
    ExtendsTransitive(c.data, b.data, a.data);
  }

  /** Finish marks the buffer finished, forgets the vtables and touches nothing else of the builder. */
  lemma FinishKeeps(st: State, root: nat, identifier: Option<seq<Byte>>, sizePrefix: bool)
    requires root <= |st.data| && 4 <= st.minalign
    ensures var f := Finish(st, root, identifier, sizePrefix);
            f == st.(data := f.data, vtables := [], finished := true)
  {
    hide PaddingBytes, LE, Zeros;
  }

  /** A table is open from StartTable to EndTable, and then nothing is left of its fields. */
  lemma TableNests(cfg: Config, st: State, start: nat)
    requires start <= |st.data| && VtablesInBounds(st.data, st.vtables)
    ensures StartTable(st) == st.(nested := true)
    ensures var r := EndTable(cfg, st, start).0;
            r == st.(data := r.data, vtables := r.vtables, minalign := r.minalign, nested := false, fields := [], maxVoffset := 0)
  {
    hide PaddingBytes, LE, Zeros, WantedVtable, VtableBytes;
  }

  lemma HeaderStarted(st: State, identifier: Option<seq<Byte>>, sizePrefix: bool)
    requires IsAlignment(st.minalign) && 4 <= st.minalign
    ensures var a, header := AlignHeader(st, identifier, sizePrefix), FinishHeader(identifier, sizePrefix);
            && a.data == Zeros(PaddingBytes(|st.data| + header, st.minalign)) + st.data && a.minalign == st.minalign
            && Extends(a.data, st.data) && (|a.data| + header) % st.minalign == 0
  {
    hide PaddingBytes, Zeros;
    var header := FinishHeader(identifier, sizePrefix);
    PaddingIsLeast(|st.data| + header, st.minalign);
    ExtendsPrepend(Zeros(PaddingBytes(|st.data| + header, st.minalign)), st.data);
  }

  lemma IdentifierExtends(a: State, identifier: Option<seq<Byte>>)
    requires IsAlignment(a.minalign)
    ensures var b := match identifier { case Some(id) => Push(a, id) case None => a };
            Extends(b.data, a.data) && IsAlignment(b.minalign) && |a.data| <= |b.data|
  {
    if identifier.Some? { ExtendsPrepend(identifier.value, a.data); }
  }

  /** A finished buffer to the byte: what the run wrote, the least zeros that bring the whole to a multiple
      of the largest alignment asked for in it, and the header. */
  lemma FinishedExact(cfg: Config, sch: Schema, ops: seq<Op>, n: nat, identifier: Option<seq<Byte>>, sizePrefix: bool,
                      st: State, offs: seq<nat>, f: State)
    requires SchemaOk(sch) && WellTyped(sch, ops) && FinishedRun(cfg, ops, n, identifier, sizePrefix, st, offs, f)
    ensures Enclosed(f.data, st.data, FinishHeader(identifier, sizePrefix), Largest(cfg, ops))
    ensures |f.data| % Largest(cfg, ops) == 0
  {
    hide Run, Finish, Enclosed, SchemaOk, WellTyped, Largest, PaddingBytes, Zeros, LaidOp, IsAlignment;
    assert ops[..|ops|] == ops;
    RunBuilds(cfg, sch, ops, |ops|);
    RunAligns(cfg, sch, ops, |ops|);
    FinishExact(st, offs[n], identifier, sizePrefix);
    FinishLays(st, offs[n], identifier, sizePrefix);
  }
}
