/** Building a table: every field given a value is stored so that the closed table has it, every other
    field reads as its default. */
module TableBuild {
  import opened Bytes
  import opened Wrappers
  import opened BuilderSpec
  import opened Table
  import opened Schema
  import opened TableLayout
  import opened Layout
  import opened BuildLaid
  import opened Building

  ghost predicate HasScalar(st: State, start: nat, id: nat, v: nat, size: nat) {
    match Lookup(st.fields, id)
    case Some(off) =>
      && IsScalarSize(size) && start + size <= off <= |st.data| && off % size == 0
      && size <= st.minalign && At(st.data, off, size) == v
    case None => false
  }

  ghost predicate HasRef(st: State, start: nat, id: nat, target: nat) {
    match Lookup(st.fields, id)
    case Some(off) => start + 4 <= off <= |st.data| && LaidOffset(st.data, |st.data|, off) && Target(st.data, off) == target
    case None => false
  }

  /** The effect one initialisation has on the open table. */
  ghost predicate Stored(cfg: Config, st: State, start: nat, offs: seq<nat>, init: Init)
    requires InitOk(init, offs)
  {
    match init
    case SetScalar(id, v, def, size) =>
      if v == def && !cfg.forceDefaults then Lookup(st.fields, id).None? else HasScalar(st, start, id, v, size)
    case SetRef(id, ref) =>
      if ref.None? then Lookup(st.fields, id).None? else HasRef(st, start, id, offs[ref.value])
  }

  /** Nothing but the data, the alignment and the open fields changed. */
  ghost predicate OnlyFields(r: State, st: State) {
    r == st.(data := r.data, minalign := r.minalign, fields := r.fields, maxVoffset := r.maxVoffset)
  }

  lemma LookupAppended(fields: seq<FieldLoc>, loc: FieldLoc, id: nat)
    ensures Lookup(fields + [loc], id) == if loc.id == id then Some(loc.off) else Lookup(fields, id)
  {
    assert (fields + [loc])[..|fields|] == fields;
  }

  lemma TrackKeepsFields(st: State, a: State, start: nat, id: nat)
    requires FieldsOk(st, start) && Lookup(st.fields, id).None? && IsFieldId(id)
    requires a == st.(data := a.data, minalign := a.minalign) && |st.data| < |a.data|
    ensures FieldsOk(TrackField(a, id, |a.data|), start)
  {
    LookupFinds(st.fields, id);
  }

  lemma AddScalarStores(cfg: Config, st: State, start: nat, offs: seq<nat>, init: Init)
    requires FieldsOk(st, start) && IsAlignment(st.minalign) && Within(offs, |st.data|)
    requires init.SetScalar? && InitOk(init, offs) && Lookup(st.fields, init.id).None?
    ensures var r := AddInit(cfg, st, offs, init);
            && Grew(r, st) && FieldsOk(r, start) && OnlyFields(r, st) 
            && Stored(cfg, r, start, offs, init)
            && forall id: nat :: id != init.id ==> Lookup(r.fields, id) == Lookup(st.fields, id)
  {
    var SetScalar(id, v, def, size) := init;
    if v == def && !cfg.forceDefaults {
      Unchanged(st);
    } else {
      var a := PushScalar(st, v, size);
      PushScalarLays(st, v, size);
      TrackKeepsFields(st, a, start, id);
      var r := TrackField(a, id, |a.data|);
      SameGrowth(r, a, st);
      hide At, PushScalar, Grew, FieldsOk, Pow256;
      forall other: nat
        ensures Lookup(r.fields, other) == if id == other then Some(|a.data|) else Lookup(st.fields, other)
      {
        LookupAppended(st.fields, FieldLoc(|a.data|, id), other);
      }
    }
  }

  lemma AddRefStores(cfg: Config, st: State, start: nat, offs: seq<nat>, init: Init)
    requires FieldsOk(st, start) && IsAlignment(st.minalign) && Within(offs, |st.data|) && Positive(offs)
    requires init.SetRef? && InitOk(init, offs) && Lookup(st.fields, init.id).None?
    requires |AddInit(cfg, st, offs, init).data| <= MAX_BUFFER_SIZE
    ensures var r := AddInit(cfg, st, offs, init);
            && Grew(r, st) && FieldsOk(r, start) && OnlyFields(r, st) 
            && Stored(cfg, r, start, offs, init)
            && forall id: nat :: id != init.id ==> Lookup(r.fields, id) == Lookup(st.fields, id)
  {
    var SetRef(id, ref) := init;
    if ref.None? {
      Unchanged(st);
    } else {
      var off := offs[ref.value];
      assert 0 < off <= |st.data|;
      var a := PushOffset(st, off);
      assert AddInit(cfg, st, offs, init) == TrackField(a, id, |a.data|);
      PushOffsetLays(st, off);
      TrackKeepsFields(st, a, start, id);
      var r := TrackField(a, id, |a.data|);
      SameGrowth(r, a, st);
      hide At, PushOffset, Grew, FieldsOk, LaidOffset, Target, AddInit, Within, Positive;
      forall other: nat
        ensures Lookup(r.fields, other) == if id == other then Some(|a.data|) else Lookup(st.fields, other)
      {
        LookupAppended(st.fields, FieldLoc(|a.data|, id), other);
      }
    }
  }

  /** What was stored stays stored while the table grows. */
  lemma StoredStable(cfg: Config, r: State, st: State, start: nat, offs: seq<nat>, init: Init)
    requires InitOk(init, offs) && Stored(cfg, st, start, offs, init) && Grew(r, st)
    requires Lookup(r.fields, init.id) == Lookup(st.fields, init.id)
    ensures Stored(cfg, r, start, offs, init)
  {
    match Lookup(st.fields, init.id)
    case None =>
    case Some(off) =>
      match init
      case SetScalar(_, _, _, size) => AtStable(r.data, st.data, off, size);
      case SetRef(_, _) => OffsetStable(r.data, st.data, |st.data|, |r.data|, off);
  }

  /** The open table holds, for field `id`, what the initialisations say. */
  ghost predicate Holds(cfg: Config, st: State, start: nat, offs: seq<nat>, inits: seq<Init>, id: nat)
    requires InitsOk(inits, offs)
  {
    FindInitOk(inits, offs, id);
    match FindInit(inits, id)
    case Some(init) => Stored(cfg, st, start, offs, init)
    case None => Lookup(st.fields, id).None?
  }

  lemma {:induction false} FindInitOk(inits: seq<Init>, offs: seq<nat>, id: nat)
    requires InitsOk(inits, offs)
    ensures FindInit(inits, id).Some? ==> InitOk(FindInit(inits, id).value, offs) && FindInit(inits, id).value.id == id
    ensures FindInit(inits, id).Some? ==> exists k :: 0 <= k < |inits| && inits[k] == FindInit(inits, id).value
  {
    if inits != [] && inits[|inits| - 1].id != id {
      InitsPrefix(inits, offs);
      FindInitOk(inits[..|inits| - 1], offs, id);
    }
  }

  lemma LastIsNew(inits: seq<Init>, offs: seq<nat>)
    requires InitsOk(inits, offs) && inits != []
    ensures InitsOk(inits[..|inits| - 1], offs)
    ensures FindInit(inits[..|inits| - 1], inits[|inits| - 1].id).None?
  {
    InitsPrefix(inits, offs);
    FindInitOk(inits[..|inits| - 1], offs, inits[|inits| - 1].id);
  }

  lemma AddInitStores(cfg: Config, st: State, start: nat, offs: seq<nat>, init: Init)
    requires FieldsOk(st, start) && IsAlignment(st.minalign) && Within(offs, |st.data|) && Positive(offs)
    requires InitOk(init, offs) && Lookup(st.fields, init.id).None?
    requires |AddInit(cfg, st, offs, init).data| <= MAX_BUFFER_SIZE
    ensures var r := AddInit(cfg, st, offs, init);
            && Grew(r, st) && FieldsOk(r, start) && OnlyFields(r, st) 
            && Stored(cfg, r, start, offs, init)
            && forall id: nat :: id != init.id ==> Lookup(r.fields, id) == Lookup(st.fields, id)
  {
    hide Grew, FieldsOk, Stored, AddInit, Lookup;
    if init.SetScalar? { AddScalarStores(cfg, st, start, offs, init); } else { AddRefStores(cfg, st, start, offs, init); }
  }

  lemma {:induction false} AddInitsStore(cfg: Config, st: State, offs: seq<nat>, inits: seq<Init>)
    requires st.fields == [] && st.maxVoffset == 0 && IsAlignment(st.minalign) && Within(offs, |st.data|) && Positive(offs)
    requires InitsOk(inits, offs) && |AddInits(cfg, st, offs, inits).data| <= MAX_BUFFER_SIZE
    ensures var r := AddInits(cfg, st, offs, inits);
            && Grew(r, st) && FieldsOk(r, |st.data|) && OnlyFields(r, st)
            && forall id: nat :: Holds(cfg, r, |st.data|, offs, inits, id)
    decreases |inits|
  {
    if inits == [] {
      Unchanged(st);
    } else {
      var n := |inits| - 1;
      var init := inits[n];
      LastIsNew(inits, offs);
      InitsPrefix(inits, offs);
      var a := AddInits(cfg, st, offs, inits[..n]);
      AddInitsStore(cfg, st, offs, inits[..n]);
      assert Holds(cfg, a, |st.data|, offs, inits[..n], init.id);
      AddInitStores(cfg, a, |st.data|, offs, init);
      var r := AddInit(cfg, a, offs, init);
      GrewTransitive(r, a, st);
      forall id: nat
        ensures Holds(cfg, r, |st.data|, offs, inits, id)
      {
        OneMoreHolds(cfg, r, a, |st.data|, offs, inits, id);
      }
    }
  }

  lemma OneMoreHolds(cfg: Config, r: State, a: State, start: nat, offs: seq<nat>, inits: seq<Init>, id: nat)
    requires InitsOk(inits, offs) && inits != [] && InitsOk(inits[..|inits| - 1], offs)
    requires Holds(cfg, a, start, offs, inits[..|inits| - 1], id) && Grew(r, a)
    requires Stored(cfg, r, start, offs, inits[|inits| - 1])
    requires id != inits[|inits| - 1].id ==> Lookup(r.fields, id) == Lookup(a.fields, id)
    ensures Holds(cfg, r, start, offs, inits, id)
  {
    var n := |inits| - 1;
    if id != inits[n].id {
      FindInitOk(inits[..n], offs, id);
      match FindInit(inits[..n], id)
      case Some(init) => StoredStable(cfg, r, a, start, offs, init);
      case None =>
    }
  }
}
