/** Sharing of vtables and strings: what it guarantees inside the builder, and that no reader can see
    it. */
module Sharing {
  import opened Bytes
  import opened Wrappers
  import opened BuilderSpec
  import opened Table
  import opened Schema
  import opened TableLayout
  import opened Layout
  import opened BuildLaid
  import opened Building
  import opened TableBuild
  import opened BuildRuns
  import opened FinishedBuffers

  // ---- vtables ---------------------------------------------------------------------------------

  /** The recorded vtables are pairwise different. */
  ghost predicate Different(st: State)
    requires VtablesOk(st.data, st.vtables)
  {
    forall j, k :: 0 <= j < k < |st.vtables| ==>
      VtableBytes(st.data, st.vtables[j]) != VtableBytes(st.data, st.vtables[k])
  }

  lemma DifferentStable(r: State, st: State)
    requires VtablesOk(st.data, st.vtables) && Different(st) && Extends(r.data, st.data) && r.vtables == st.vtables
    ensures VtablesOk(r.data, r.vtables) && Different(r)
  {
    VtablesStable(r.data, st.data, st.vtables);
    forall j, k | 0 <= j < k < |r.vtables|
      ensures VtableBytes(r.data, r.vtables[j]) != VtableBytes(r.data, r.vtables[k])
    {
      VtableStable(r.data, st.data, st.vtables[j]);
      VtableStable(r.data, st.data, st.vtables[k]);
    }
  }

  /** A shared vtable lies below the table that uses it, so comparing it with the size of the buffer
      is a test for a vtable just written; a new one is recorded and unlike the others. */
  lemma EndTableShares(cfg: Config, st: State, start: nat, r: State, loc: nat)
    requires FieldsOk(st, start) && VtablesOk(st.data, st.vtables) && cfg.dedupVtables && Different(st)
    requires TableEnd(st.data) - start < U16 && TableEnd(st.data) <= MAX_BUFFER_SIZE
    requires EndTable(cfg, st, start) == (r, loc)
    ensures VtablesOk(r.data, r.vtables) && Different(r)
    ensures r.vtables == st.vtables <==> |r.data| == loc
    ensures forall k :: 0 <= k < |st.vtables| ==> st.vtables[k] < loc
  {
    var vt := WantedVtable(st, start, loc);
    var v := EndTableChoice(cfg, st, start, r, loc);
    EndTableLayout(cfg, st, start, r, loc);
    DifferentStable(r.(vtables := st.vtables), st);
    NewOrShared(cfg, st, start, r, loc);
    forall k | 0 <= k < |st.vtables| ensures st.vtables[k] < loc { VtableIsBig(st.data, st.vtables[k]); }
    if r.vtables != st.vtables {
      NewIsDifferent(st, r, vt);
    }
  }

  lemma NewOrShared(cfg: Config, st: State, start: nat, r: State, loc: nat)
    requires FieldsOk(st, start) && VtablesOk(st.data, st.vtables) && cfg.dedupVtables && loc - start < U16
    requires EndTable(cfg, st, start) == (r, loc) && |st.data| < loc
    ensures var vt := WantedVtable(st, start, loc);
            if FindVtable(st.data, st.vtables, vt).Some? then r.vtables == st.vtables && |r.data| == loc
            else r.vtables == st.vtables + [loc + |vt|] && |r.data| == loc + |vt| && |vt| >= 4
                 && VtableInBounds(r.data, loc + |vt|) && VtableBytes(r.data, loc + |vt|) == vt
  {
    var vt := WantedVtable(st, start, loc);
    BuiltVtable(st, start, loc);
    hide Vtable, PaddingBytes, Extends, TableEnd, VtableOk, VtableInBounds, VtableBytes, Word, FieldsOk, WantedVtable;
    if FindVtable(st.data, st.vtables, vt).None? { VtableInFront(vt, TableBody(st.data, |vt|)); }
  }

  lemma VtableInFront(vt: seq<Byte>, body: seq<Byte>)
    requires 4 <= |vt| && Word(vt, 0, 2) == |vt|
    ensures VtableInBounds(vt + body, |vt| + |body|) && VtableBytes(vt + body, |vt| + |body|) == vt
  {
    var data := vt + body;
    assert Tail(data, |data|) == data;
    assert data[..|vt|] == vt;
    assert data[0..2] == vt[0..2];
  }

  lemma NewIsDifferent(st: State, r: State, vt: seq<Byte>)
    requires VtablesOk(st.data, st.vtables) && VtablesOk(r.data, r.vtables) && Extends(r.data, st.data)
    requires |r.vtables| == |st.vtables| + 1 && r.vtables[..|st.vtables|] == st.vtables
    requires Different(st) && VtableBytes(r.data, r.vtables[|st.vtables|]) == vt
    requires forall k :: 0 <= k < |st.vtables| ==> VtableBytes(st.data, st.vtables[k]) != vt
    ensures Different(r)
  {
    var n := |st.vtables|;
    forall j, k | 0 <= j < k < |r.vtables|
      ensures VtableBytes(r.data, r.vtables[j]) != VtableBytes(r.data, r.vtables[k])
    {
      assert r.vtables[j] == r.vtables[..n][j];
      VtableStable(r.data, st.data, st.vtables[j]);
      if k < n {
        assert r.vtables[k] == r.vtables[..n][k];
        VtableStable(r.data, st.data, st.vtables[k]);
      }
    }
  }

  /** In every run with vtable sharing on, no two recorded vtables are equal. */
  lemma {:induction false} RunVtablesDiffer(cfg: Config, sch: Schema, ops: seq<Op>, m: nat)
    requires SchemaOk(sch) && WellTyped(sch, ops) && m <= |ops| && Run(cfg, ops[..m]).Some? && cfg.dedupVtables
    ensures var st := Run(cfg, ops[..m]).value.0; VtablesOk(st.data, st.vtables) && Different(st)
  {
    if m > 0 {
      assert ops[..m][..m - 1] == ops[..m - 1];
      RunVtablesDiffer(cfg, sch, ops, m - 1);
      RunBuilds(cfg, sch, ops, m - 1);
      RunBuilds(cfg, sch, ops, m);
      var (st, offs) := Run(cfg, ops[..m - 1]).value;
      var (r, o) := Step(cfg, st, offs, ops[m - 1]).value;
      StepVtablesDiffer(cfg, sch, ops, m - 1, st, offs, r, o);
    }
  }

  lemma StepVtablesDiffer(cfg: Config, sch: Schema, ops: seq<Op>, m: nat, st: State, offs: seq<nat>, r: State, o: nat)
    requires SchemaOk(sch) && WellTyped(sch, ops) && m < |ops| && Built(sch, ops, m, st, offs) && cfg.dedupVtables
    requires Step(cfg, st, offs, ops[m]) == Some((r, o)) && Different(st)
    ensures VtablesOk(r.data, r.vtables) && Different(r)
  {
    hide CreateString, CreateSharedString, CreateScalarVector, CreateOffsetVector, AddInits, EndTable, WellTyped, SchemaOk,
         Different, VtablesOk, LaidOp, PoolOk, FieldsOk, TableEnd;
    match ops[m]
    case MakeTable(t, inits) => TableVtablesDiffer(cfg, sch, ops, m, st, offs, r, o);
    case _ =>
      StepKeepsVtables(cfg, sch, ops, m, st, offs, r, o);
      DifferentStable(r, st);
  }

  lemma TableVtablesDiffer(cfg: Config, sch: Schema, ops: seq<Op>, m: nat, st: State, offs: seq<nat>, r: State, o: nat)
    requires SchemaOk(sch) && WellTyped(sch, ops) && m < |ops| && Built(sch, ops, m, st, offs) && cfg.dedupVtables
    requires ops[m].MakeTable? && Step(cfg, st, offs, ops[m]) == Some((r, o)) && Different(st)
    ensures VtablesOk(r.data, r.vtables) && Different(r)
  {
    hide AddInits, EndTable, WellTyped, SchemaOk, LaidOp, PoolOk, FieldsOk, TableEnd, VtablesInBounds, InitsOk, Holds, Extends,
         Different, VtablesOk;
    var s := StartTable(st);
    var a := AddInits(cfg, s, offs, ops[m].inits);
    TableEndBound(a.data);
    AddInitsStore(cfg, s, offs, ops[m].inits);
    GrewExtends(a, s);
    DifferentStable(a, st);
    EndTableShares(cfg, a, |st.data|, r, o);
  }

  lemma StepKeepsVtables(cfg: Config, sch: Schema, ops: seq<Op>, m: nat, st: State, offs: seq<nat>, r: State, o: nat)
    requires SchemaOk(sch) && WellTyped(sch, ops) && m < |ops| && Built(sch, ops, m, st, offs)
    requires !ops[m].MakeTable? && Step(cfg, st, offs, ops[m]) == Some((r, o))
    ensures Extends(r.data, st.data) && r.vtables == st.vtables
  {
    hide CreateString, CreateScalarVector, CreateOffsetVector, BuildTable, VtablesOk, LaidOp, PoolOk, LaidString, LaidScalars,
         LaidOffsets, Target, Extends, FindString, Grew;
    assert OpTyped(sch, ops, m);
    ExtendsSelf(st.data);
    match ops[m]
    case MakeString(str) =>
      CreateStringLays(st, str);
      GrewExtends(r, st);
    case MakeSharedString(str) =>
      CreateStringLays(st, str);
      GrewExtends(CreateString(st, str).0, st);
    case MakeScalars(size, ns) =>
      CreateScalarVectorLays(st, ns, size);
      GrewExtends(r, st);
    case MakeStrings(refs) =>
      CreateOffsetVectorLays(st, Resolve(refs, offs));
      GrewExtends(r, st);
    case MakeTables(_, refs) =>
      CreateOffsetVectorLays(st, Resolve(refs, offs));
      GrewExtends(r, st);
  }

  lemma ExtendsSelf(data: seq<Byte>)
    ensures Extends(data, data)
  {
  }

  // ---- strings ---------------------------------------------------------------------------------

  /** Every shared string so far is in the pool, and no two pooled strings are equal. */
  ghost predicate Pooled(ops: seq<Op>, m: nat, st: State, offs: seq<nat>)
    requires m <= |ops| && |offs| == m && PoolOk(st)
  {
    && (forall n :: 0 <= n < m && ops[n].MakeSharedString? ==> InPool(st, offs[n], ops[n].str))
    && forall j, k :: 0 <= j < k < |st.pool| ==> PoolString(st, j) != PoolString(st, k)
  }

  ghost function PoolString(st: State, k: nat): seq<Byte>
    requires PoolOk(st) && k < |st.pool|
  {
    assert PooledOk(st, st.pool[k]);
    StringBytes(st.data, st.pool[k])
  }

  ghost predicate InPool(st: State, o: nat, str: seq<Byte>)
    requires PoolOk(st)
  {
    exists k :: 0 <= k < |st.pool| && st.pool[k] == o && PoolString(st, k) == str
  }

  lemma PoolStringStable(r: State, st: State, k: nat)
    requires PoolOk(st) && PoolOk(r) && Extends(r.data, st.data) && k < |st.pool| <= |r.pool| && r.pool[k] == st.pool[k]
    ensures PoolString(r, k) == PoolString(st, k)
  {
    assert PooledOk(st, st.pool[k]);
    AtStable(r.data, st.data, st.pool[k], 4);
    ExtendsTail(r.data, st.data, st.pool[k]);
  }

  /** Adding results that are not shared strings keeps the pool's invariant. */
  lemma PooledKept(ops: seq<Op>, m: nat, st: State, offs: seq<nat>, r: State, o: nat)
    requires m < |ops| && |offs| == m && PoolOk(st) && PoolOk(r) && Extends(r.data, st.data) && r.pool == st.pool
    requires Pooled(ops, m, st, offs)
    requires ops[m].MakeSharedString? ==> InPool(r, o, ops[m].str)
    ensures Pooled(ops, m + 1, r, offs + [o])
  {
    forall n | 0 <= n < m + 1 && ops[n].MakeSharedString?
      ensures InPool(r, (offs + [o])[n], ops[n].str)
    {
      if n < m {
        var k :| 0 <= k < |st.pool| && st.pool[k] == offs[n] && PoolString(st, k) == ops[n].str;
        PoolStringStable(r, st, k);
      }
    }
    forall j, k | 0 <= j < k < |r.pool|
      ensures PoolString(r, j) != PoolString(r, k)
    {
      PoolStringStable(r, st, j);
      PoolStringStable(r, st, k);
    }
  }

  /** Adding a string the pool does not have keeps the invariant and puts the string in. */
  lemma PooledAdded(ops: seq<Op>, m: nat, st: State, offs: seq<nat>, r: State, o: nat)
    requires m < |ops| && |offs| == m && PoolOk(st) && PoolOk(r) && Extends(r.data, st.data) && r.pool == st.pool + [o]
    requires Pooled(ops, m, st, offs) && ops[m].MakeSharedString?
    requires PoolString(r, |st.pool|) == ops[m].str
    requires forall k :: 0 <= k < |st.pool| ==> PoolString(st, k) != ops[m].str
    ensures Pooled(ops, m + 1, r, offs + [o])
  {
    forall n | 0 <= n < m + 1 && ops[n].MakeSharedString?
      ensures InPool(r, (offs + [o])[n], ops[n].str)
    {
      if n < m {
        var k :| 0 <= k < |st.pool| && st.pool[k] == offs[n] && PoolString(st, k) == ops[n].str;
        PoolStringStable(r, st, k);
        assert r.pool[k] == offs[n];
      } else {
        assert r.pool[|st.pool|] == o;
      }
    }
    forall j, k | 0 <= j < k < |r.pool|
      ensures PoolString(r, j) != PoolString(r, k)
    {
      PoolStringStable(r, st, j);
      if k < |st.pool| { PoolStringStable(r, st, k); }
    }
  }

  lemma SharedPooled(cfg: Config, sch: Schema, ops: seq<Op>, m: nat, st: State, offs: seq<nat>, r: State, o: nat)
    requires SchemaOk(sch) && WellTyped(sch, ops) && m < |ops| && Built(sch, ops, m, st, offs) && Pooled(ops, m, st, offs)
    requires ops[m].MakeSharedString? && Step(cfg, st, offs, ops[m]) == Some((r, o)) && PoolOk(r) && Extends(r.data, st.data)
    ensures Pooled(ops, m + 1, r, offs + [o])
  {
    hide CreateString, VtablesOk, LaidOp, PoolOk, LaidString, Extends, FindString, Grew, StringBytes, PooledOk, StringInBounds, Pooled;
    assert OpTyped(sch, ops, m);
    var str := ops[m].str;
    CreateStringLays(st, str);
    FindStringMatches(st.data, st.pool, str);
    if FindString(st.data, st.pool, str).Some? {
      var k :| 0 <= k < |st.pool| && st.pool[k] == o && StringBytes(st.data, st.pool[k]) == str;
      PoolStringStable(r, st, k);
      assert r.pool[k] == o;
      PooledKept(ops, m, st, offs, r, o);
    } else {
      LaidIsPooled(r, o, str);
      PooledAdded(ops, m, st, offs, r, o);
    }
  }

  lemma {:induction false} RunPooled(cfg: Config, sch: Schema, ops: seq<Op>, m: nat)
    requires SchemaOk(sch) && WellTyped(sch, ops) && m <= |ops| && Run(cfg, ops[..m]).Some?
    ensures var (st, offs) := Run(cfg, ops[..m]).value; PoolOk(st) && Pooled(ops, m, st, offs)
  {
    RunBuilds(cfg, sch, ops, m);
    if m > 0 {
      assert ops[..m][..m - 1] == ops[..m - 1];
      RunBuilds(cfg, sch, ops, m - 1);
      RunPooled(cfg, sch, ops, m - 1);
      var (st, offs) := Run(cfg, ops[..m - 1]).value;
      var (r, o) := Step(cfg, st, offs, ops[m - 1]).value;
      StepPooled(cfg, sch, ops, m - 1, st, offs, r, o);
    }
  }

  lemma StepPooled(cfg: Config, sch: Schema, ops: seq<Op>, m: nat, st: State, offs: seq<nat>, r: State, o: nat)
    requires SchemaOk(sch) && WellTyped(sch, ops) && m < |ops| && Built(sch, ops, m, st, offs) && Pooled(ops, m, st, offs)
    requires Step(cfg, st, offs, ops[m]) == Some((r, o)) && Built(sch, ops, m + 1, r, offs + [o])
    ensures Pooled(ops, m + 1, r, offs + [o])
  {
    hide Step, LaidOp, PoolOk, VtablesOk, Pooled, WellTyped, SchemaOk;
    StepExtends(cfg, sch, ops, m, st, offs, r, o);
    if ops[m].MakeSharedString? {
      SharedPooled(cfg, sch, ops, m, st, offs, r, o);
    } else {
      PooledKept(ops, m, st, offs, r, o);
    }
  }

  lemma StepExtends(cfg: Config, sch: Schema, ops: seq<Op>, m: nat, st: State, offs: seq<nat>, r: State, o: nat)
    requires SchemaOk(sch) && WellTyped(sch, ops) && m < |ops| && Built(sch, ops, m, st, offs)
    requires Step(cfg, st, offs, ops[m]) == Some((r, o))
    ensures Extends(r.data, st.data) && (!ops[m].MakeSharedString? ==> r.pool == st.pool)
  {
    hide LaidOp, PoolOk, VtablesOk, WellTyped, SchemaOk, Extends, CreateString, CreateScalarVector, CreateOffsetVector,
         BuildTable, CreateSharedString, PoolInBounds;
    if ops[m].MakeTable? {
      TableExtends(cfg, sch, ops, m, st, offs, r, o);
    } else {
      StepKeepsVtables(cfg, sch, ops, m, st, offs, r, o);
      if !ops[m].MakeSharedString? { StepKeepsPool(cfg, sch, ops, m, st, offs, r, o); }
    }
  }

  lemma StepKeepsPool(cfg: Config, sch: Schema, ops: seq<Op>, m: nat, st: State, offs: seq<nat>, r: State, o: nat)
    requires SchemaOk(sch) && WellTyped(sch, ops) && m < |ops| && Built(sch, ops, m, st, offs)
    requires !ops[m].MakeTable? && !ops[m].MakeSharedString? && Step(cfg, st, offs, ops[m]) == Some((r, o))
    ensures r.pool == st.pool
  {
    hide CreateString, CreateScalarVector, CreateOffsetVector, LaidOp, PoolOk, VtablesOk, LaidString, LaidScalars, LaidOffsets,
         Target, Grew;
    assert OpTyped(sch, ops, m);
    match ops[m]
    case MakeString(str) => CreateStringLays(st, str);
    case MakeScalars(size, ns) => CreateScalarVectorLays(st, ns, size);
    case MakeStrings(refs) => CreateOffsetVectorLays(st, Resolve(refs, offs));
    case MakeTables(_, refs) => CreateOffsetVectorLays(st, Resolve(refs, offs));
  }

  lemma TableExtends(cfg: Config, sch: Schema, ops: seq<Op>, m: nat, st: State, offs: seq<nat>, r: State, o: nat)
    requires SchemaOk(sch) && WellTyped(sch, ops) && m < |ops| && Built(sch, ops, m, st, offs)
    requires ops[m].MakeTable? && Step(cfg, st, offs, ops[m]) == Some((r, o))
    ensures Extends(r.data, st.data) && r.pool == st.pool
  {
    hide AddInits, EndTable, WellTyped, SchemaOk, LaidOp, PoolOk, FieldsOk, TableEnd, VtablesInBounds, InitsOk, Holds, Extends, VtablesOk;
    var s := StartTable(st);
    var a := AddInits(cfg, s, offs, ops[m].inits);
    TableEndBound(a.data);
    AddInitsStore(cfg, s, offs, ops[m].inits);
    GrewExtends(a, s);
    VtablesStable(a.data, st.data, st.vtables);
    EndTableLayout(cfg, a, |st.data|, r, o);
    ExtendsTransitive(r.data, a.data, st.data);
    EndTableKeeps(cfg, a, |st.data|, r, o);
  }

  /** Shared strings get the same offset exactly when they are equal. */
  lemma SharedOffsetsAgree(cfg: Config, sch: Schema, ops: seq<Op>, st: State, offs: seq<nat>, i: nat, j: nat)
    requires SchemaOk(sch) && WellTyped(sch, ops) && i < |ops| && j < |ops| && Run(cfg, ops) == Some((st, offs))
    requires ops[i].MakeSharedString? && ops[j].MakeSharedString?
    ensures offs[i] == offs[j] <==> ops[i].str == ops[j].str
  {
    assert ops[..|ops|] == ops;
    RunPooled(cfg, sch, ops, |ops|);
    assert InPool(st, offs[i], ops[i].str) && InPool(st, offs[j], ops[j].str);
    var k :| 0 <= k < |st.pool| && st.pool[k] == offs[i] && PoolString(st, k) == ops[i].str;
    var l :| 0 <= l < |st.pool| && st.pool[l] == offs[j] && PoolString(st, l) == ops[j].str;
  }

  // ---- invisible to readers --------------------------------------------------------------------

  /** The same operations with string pooling off. */
  function Unshared(op: Op): Op {
    match op
    case MakeSharedString(str) => MakeString(str)
    case _ => op
  }

  function UnshareAll(ops: seq<Op>): (r: seq<Op>)
    ensures |r| == |ops| && forall n :: 0 <= n < |r| ==> r[n] == Unshared(ops[n])
  {
    seq(|ops|, n requires 0 <= n < |ops| => Unshared(ops[n]))
  }

  lemma UnsharedFieldTyped(sch: Schema, ops: seq<Op>, n: nat, t: nat, inits: seq<Init>, k: nat)
    requires n <= |ops| && t < |sch| && k < |sch[t]| && FieldTyped(sch, ops, n, t, inits, k)
    ensures FieldTyped(sch, UnshareAll(ops), n, t, inits, k)
  {
    match FindInit(inits, sch[t][k].id)
    case Some(SetRef(_, Some(r))) =>
      if r < n {
        assert UnshareAll(ops)[r] == Unshared(ops[r]);
        assert OpType(UnshareAll(ops)[r]) == OpType(ops[r]);
      }
    case _ =>
  }

  lemma UnsharedOpTyped(sch: Schema, ops: seq<Op>, n: nat)
    requires n < |ops| && OpTyped(sch, ops, n)
    ensures OpTyped(sch, UnshareAll(ops), n)
  {
    var us := UnshareAll(ops);
    assert us[n] == Unshared(ops[n]);
    match ops[n]
    case MakeTable(t, inits) =>
      forall k | 0 <= k < |sch[t]| ensures FieldTyped(sch, us, n, t, inits, k) {
        UnsharedFieldTyped(sch, ops, n, t, inits, k);
      }
    case _ => assert forall i :: 0 <= i < |us| ==> OpType(us[i]) == OpType(ops[i]);
  }

  lemma UnsharedTyped(sch: Schema, ops: seq<Op>)
    requires WellTyped(sch, ops)
    ensures WellTyped(sch, UnshareAll(ops))
  {
    forall n | 0 <= n < |ops| ensures OpTyped(sch, UnshareAll(ops), n) { UnsharedOpTyped(sch, ops, n); }
  }

  lemma {:induction false} UnsharedMeansTheSame(sch: Schema, ops: seq<Op>, n: nat)
    requires WellTyped(sch, ops) && WellTyped(sch, UnshareAll(ops)) && n < |ops|
    ensures Denote(sch, UnshareAll(ops), n) == Denote(sch, ops, n)
    decreases n, 2
  {
    var us := UnshareAll(ops);
    assert us[n] == Unshared(ops[n]) && OpTyped(sch, ops, n) && OpTyped(sch, us, n);
    match ops[n]
    case MakeStrings(refs) =>
      forall i | 0 <= i < |refs| ensures Denote(sch, us, refs[i]) == Denote(sch, ops, refs[i]) {
        UnsharedMeansTheSame(sch, ops, refs[i]);
      }
      assert Denote(sch, us, n).items == Denote(sch, ops, n).items;
    case MakeTables(_, refs) =>
      forall i | 0 <= i < |refs| ensures Denote(sch, us, refs[i]) == Denote(sch, ops, refs[i]) {
        UnsharedMeansTheSame(sch, ops, refs[i]);
      }
      assert Denote(sch, us, n).items == Denote(sch, ops, n).items;
    case MakeTable(t, inits) =>
      forall k | 0 <= k < |sch[t]| ensures DenoteField(sch, us, n, k) == DenoteField(sch, ops, n, k) {
        UnsharedFieldMeansTheSame(sch, ops, n, k);
      }
      assert Denote(sch, us, n).fields == Denote(sch, ops, n).fields;
    case _ =>
  }

  lemma {:induction false} UnsharedFieldMeansTheSame(sch: Schema, ops: seq<Op>, n: nat, k: nat)
    requires WellTyped(sch, ops) && WellTyped(sch, UnshareAll(ops)) && n < |ops|
    requires ops[n].MakeTable? && ops[n].table < |sch| && k < |sch[ops[n].table]|
    ensures DenoteField(sch, UnshareAll(ops), n, k) == DenoteField(sch, ops, n, k)
    decreases n, 1
  {
    var us := UnshareAll(ops);
    var inits := ops[n].inits;
    assert us[n] == ops[n] && OpTyped(sch, ops, n) && FieldTyped(sch, ops, n, ops[n].table, inits, k);
    var id := sch[ops[n].table][k].id;
    match RefOf(inits, id)
    case Some(r) => if r < n { UnsharedMeansTheSame(sch, ops, r); }
    case None =>
  }

  /** Sharing is invisible: whatever the settings, and with string pooling on or off, the same operations
      give buffers that read as the same value. */
  lemma SharingIsInvisible(cfg: Config, cfg': Config, sch: Schema, ops: seq<Op>, n: nat,
                           id: Option<seq<Byte>>, id': Option<seq<Byte>>, prefix: bool, prefix': bool,
                           st: State, st': State, offs: seq<nat>, offs': seq<nat>, f: State, f': State)
    requires SchemaOk(sch) && WellTyped(sch, ops) && n < |ops| && ops[n].MakeTable? && ops[n].table < |sch|
    requires FinishedRun(cfg, ops, n, id, prefix, st, offs, f)
    requires FinishedRun(cfg', UnshareAll(ops), n, id', prefix', st', offs', f')
    ensures DecodeRoot(f.data, sch, ops[n].table, Start(prefix)) == DecodeRoot(f'.data, sch, ops[n].table, Start(prefix'))
  {
    hide FinishedRun, DecodeRoot, Denote;
    UnsharedTyped(sch, ops);
    UnsharedMeansTheSame(sch, ops, n);
    RootRoundTrip(cfg, sch, ops, n, id, prefix, st, offs, f);
    RootRoundTrip(cfg', sch, UnshareAll(ops), n, id', prefix', st', offs', f');
  }
}
