/** Where a closed table and its vtable end up in the buffer, and that this never moves. */
module TableLayout {
  import opened Bytes
  import opened Wrappers
  import opened BuilderSpec
  import opened Table

  // ---- the vtable entry at an even offset ------------------------------------------------------

  /** A vtable of even size, at an even distance, lying inside the buffer. */
  ghost predicate VtableOk(data: seq<Byte>, v: nat) {
    && VtableInBounds(data, v)
    && v % 2 == 0
    && At(data, v, 2) % 2 == 0
    && At(data, v, 2) >= 4
  }

  /** The entry of field `id` in the vtable at distance v, 0 past the vtable's end. */
  ghost function EntryAt(data: seq<Byte>, v: nat, id: nat): nat
    requires VtableOk(data, v) && id % 2 == 0
  {
    if id < At(data, v, 2) then At(data, v - id, 2) else 0
  }

  ghost predicate VtablesOk(data: seq<Byte>, vtables: seq<nat>) {
    forall k :: 0 <= k < |vtables| ==> VtableOk(data, vtables[k])
  }

  /** The fields collected for a table opened at size `start`. */
  ghost predicate FieldsOk(st: State, start: nat) {
    && start <= |st.data|
    && (forall k :: 0 <= k < |st.fields| ==>
          IsFieldId(st.fields[k].id) && st.fields[k].id <= st.maxVoffset && start < st.fields[k].off <= |st.data|)
    && (forall j, k :: 0 <= j < k < |st.fields| ==> st.fields[j].id != st.fields[k].id)
    && (st.maxVoffset == 0 || IsFieldId(st.maxVoffset))
  }

  lemma {:induction false} LookupFinds(fields: seq<FieldLoc>, id: nat)
    ensures Lookup(fields, id).Some? ==>
              exists k :: 0 <= k < |fields| && fields[k] == FieldLoc(Lookup(fields, id).value, id)
    ensures Lookup(fields, id).None? ==> forall k :: 0 <= k < |fields| ==> fields[k].id != id
  {
    if fields != [] {
      var n := |fields| - 1;
      if fields[n].id != id {
        LookupFinds(fields[..n], id);
        assert forall k :: 0 <= k < n ==> fields[..n][k] == fields[k];
      } else {
        assert fields[n] == FieldLoc(Lookup(fields, id).value, id);
      }
    }
  }

  lemma VtableAt(fields: seq<FieldLoc>, size: nat, objectSize: nat, loc: nat, i: nat)
    requires i < size
    ensures Vtable(fields, size, objectSize, loc)[i] == VtableByte(fields, size, objectSize, loc, i)
  {
  }

  lemma VtableWords(fields: seq<FieldLoc>, size: nat, objectSize: nat, loc: nat, id: nat)
    requires 4 <= size < U16 && objectSize < U16 && id % 2 == 0 && id + 2 <= size
    requires Entry(fields, id, loc) < U16
    ensures var vt := Vtable(fields, size, objectSize, loc);
            Word(vt, id, 2) == if id == 0 then size else if id == 2 then objectSize else Entry(fields, id, loc)
  {
    hide Vtable, Entry, LE, FromLE, Pow256;
    var vt := Vtable(fields, size, objectSize, loc);
    var w := if id == 0 then size else if id == 2 then objectSize else Entry(fields, id, loc);
    VtableAt(fields, size, objectSize, loc, id);
    VtableAt(fields, size, objectSize, loc, id + 1);
    assert vt[id] == LE(w, 2)[0];
    assert (id + 1) % 2 == 1 && id + 1 - (id + 1) % 2 == id;
    assert vt[id + 1] == LE(w, 2)[1];
    assert vt[id..id + 2] == LE(w, 2);
    Widths();
    ScalarRoundTrip(w, 2);
  }

  /** Reading an entry through the buffer is reading it in the vtable's bytes. */
  lemma EntryInBytes(data: seq<Byte>, v: nat, id: nat)
    requires VtableOk(data, v) && id % 2 == 0 && id < At(data, v, 2)
    ensures id + 2 <= At(data, v, 2) == |VtableBytes(data, v)|
    ensures At(data, v - id, 2) == Word(VtableBytes(data, v), id, 2)
  {
    var n := |data| - v;
    var size := At(data, v, 2);
    assert VtableBytes(data, v) == data[n..n + size];
    WordOfSlice(data, n, n + size, id, 2);
  }

  lemma VtableStable(newer: seq<Byte>, older: seq<Byte>, v: nat)
    requires Extends(newer, older) && VtableOk(older, v)
    ensures VtableOk(newer, v) && VtableBytes(newer, v) == VtableBytes(older, v)
  {
    AtStable(newer, older, v, 2);
    ExtendsTail(newer, older, v);
  }

  lemma EntryStable(newer: seq<Byte>, older: seq<Byte>, v: nat, id: nat)
    requires Extends(newer, older) && VtableOk(older, v) && id % 2 == 0
    ensures VtableOk(newer, v) && EntryAt(newer, v, id) == EntryAt(older, v, id)
  {
    VtableStable(newer, older, v);
    AtStable(newer, older, v, 2);
    if id < At(older, v, 2) {
      AtStable(newer, older, v - id, 2);
    }
  }

  // ---- the layout of a closed table ------------------------------------------------------------

  /** Where the vtable of the table at `loc` lies, following the signed offset stored there. */
  ghost function VtableOf(data: seq<Byte>, loc: nat): int
    requires 4 <= loc <= |data|
  {
    Widths();
    loc + Signed32(At(data, loc, 4))
  }

  /** The table at `loc` has a vtable whose entries are exactly those of `fields`. */
  ghost predicate ClosedTable(data: seq<Byte>, loc: nat, fields: seq<FieldLoc>) {
    && 4 <= loc <= |data|
    && loc % 4 == 0
    && VtableOf(data, loc) >= 0
    && VtableOk(data, VtableOf(data, loc))
    && forall id: nat :: IsFieldId(id) ==> EntryAt(data, VtableOf(data, loc), id) == Entry(fields, id, loc)
  }

  lemma EntriesAreSmall(st: State, start: nat, loc: nat, id: nat)
    requires FieldsOk(st, start) && |st.data| < loc && loc - start < U16
    ensures Entry(st.fields, id, loc) < loc - start
    ensures id > st.maxVoffset ==> Entry(st.fields, id, loc) == 0
  {
    LookupFinds(st.fields, id);
  }

  /** A vtable found byte for byte equal to the one wanted has the wanted entries. */
  lemma EntriesFromBytes(st: State, start: nat, loc: nat, data: seq<Byte>, v: nat, id: nat)
    requires FieldsOk(st, start) && |st.data| < loc && loc - start < U16
    requires VtableOk(data, v) && IsFieldId(id)
    requires VtableBytes(data, v) == Vtable(st.fields, VtableSize(st.maxVoffset), loc - start, loc)
    ensures EntryAt(data, v, id) == Entry(st.fields, id, loc)
  {
    EntriesAreSmall(st, start, loc, id);
    var size := VtableSize(st.maxVoffset);
    assert size == At(data, v, 2);
    if id < size {
      EntryInBytes(data, v, id);
      VtableWords(st.fields, size, loc - start, loc, id);
    } else {
      assert id > st.maxVoffset;
    }
  }

  /** A vtable written in front of `rest` is in order there. */
  lemma FreshVtable(vt: seq<Byte>, rest: seq<Byte>)
    requires 4 <= |vt| < U16 && |vt| % 2 == 0 && Word(vt, 0, 2) == |vt| && |rest| % 2 == 0
    ensures VtableOk(vt + rest, |vt| + |rest|) && VtableBytes(vt + rest, |vt| + |rest|) == vt
  {
    var data := vt + rest;
    assert data[0..2] == vt[0..2];
    assert Tail(data, |data|) == data;
    assert data[..|vt|] == vt;
  }

  /** The vtable EndTable builds starts with its own size. */
  lemma BuiltVtable(st: State, start: nat, loc: nat)
    requires FieldsOk(st, start) && |st.data| < loc && loc - start < U16
    ensures var vt := Vtable(st.fields, VtableSize(st.maxVoffset), (loc - start) % U16, loc);
            4 <= |vt| < U16 && |vt| % 2 == 0 && Word(vt, 0, 2) == |vt|
  {
    hide Vtable, Entry, Word, Lookup;
    EntriesAreSmall(st, start, loc, 0);
    assert (loc - start) % U16 == loc - start;
    VtableWords(st.fields, VtableSize(st.maxVoffset), loc - start, loc, 0);
  }

  /** The table's own start: 4-aligned, and its signed offset reads back. */
  lemma TableStart(data: seq<Byte>, delta: int)
    requires -U31 <= delta < U31
    ensures var body := TableBody(data, delta);
            && Extends(body, data)
            && |body| % 4 == 0 && |data| < |body| < |data| + 8
            && Signed32(At(body, |body|, 4)) == delta
  {
    hide LE, Zeros, At, Signed32, Wrap32, Extends, PaddingBytes;
    PaddingIsLeast(|data|, 4);
    var a := Zeros(PaddingBytes(|data|, 4)) + data;
    ExtendsPrepend(Zeros(PaddingBytes(|data|, 4)), data);
    ExtendsPrepend(LE(Wrap32(delta), 4), a);
    ExtendsTransitive(LE(Wrap32(delta), 4) + a, a, data);
    Widths();
    AtPrepended(Wrap32(delta), 4, a);
    SignedWrap(delta);
  }

  /** The table starting at `loc` was closed over vtable v, whose bytes are `vt`. */
  ghost predicate ClosedOver(newer: seq<Byte>, older: seq<Byte>, loc: nat, v: nat, vt: seq<Byte>) {
    && Extends(newer, older)
    && loc % 4 == 0 && |older| < loc < |older| + 8 && loc <= |newer|
    && Signed32(At(newer, loc, 4)) == v - loc
    && VtableOk(newer, v) && VtableBytes(newer, v) == vt
  }

  lemma ClosedOverNew(data: seq<Byte>, vt: seq<Byte>)
    requires 4 <= |vt| < U16 && |vt| % 2 == 0 && Word(vt, 0, 2) == |vt|
    ensures var body := TableBody(data, |vt|);
            ClosedOver(vt + body, data, |body|, |body| + |vt|, vt)
  {
    hide Extends, At, Tail, LE, VtableOk, VtableBytes, Zeros, Word, TableBody, Signed32, PaddingBytes, TableEnd;
    var body := TableBody(data, |vt|);
    TableStart(data, |vt|);
    FreshVtable(vt, body);
    ExtendsPrepend(vt, body);
    ExtendsTransitive(vt + body, body, data);
    AtStable(vt + body, body, |body|, 4);
  }

  lemma ClosedOverShared(data: seq<Byte>, v: nat, loc: nat)
    requires VtableOk(data, v) && loc == TableEnd(data) <= MAX_BUFFER_SIZE
    ensures ClosedOver(TableBody(data, v - loc), data, loc, v, VtableBytes(data, v))
  {
    hide Extends, At, Tail, LE, VtableBytes, Zeros, Word, PaddingBytes;
    PaddingIsLeast(|data|, 4);
    TableStart(data, v - loc);
    VtableStable(TableBody(data, v - loc), data, v);
  }

  lemma ClosedFromBytes(st: State, start: nat, loc: nat, data: seq<Byte>, v: nat)
    requires FieldsOk(st, start) && start <= loc && loc - start < U16
    requires ClosedOver(data, st.data, loc, v, WantedVtable(st, start, loc))
    ensures ClosedTable(data, loc, st.fields) && VtableOf(data, loc) == v
  {
    assert (loc - start) % U16 == loc - start;
    forall id: nat | IsFieldId(id)
      ensures EntryAt(data, v, id) == Entry(st.fields, id, loc)
    {
      EntriesFromBytes(st, start, loc, data, v, id);
    }
  }

  lemma VtablesStable(newer: seq<Byte>, older: seq<Byte>, vtables: seq<nat>)
    requires Extends(newer, older) && VtablesOk(older, vtables)
    ensures VtablesOk(newer, vtables)
  {
    forall k | 0 <= k < |vtables|
      ensures VtableOk(newer, vtables[k])
    {
      VtableStable(newer, older, vtables[k]);
    }
  }

  lemma VtableIsBig(data: seq<Byte>, v: nat)
    requires VtableOk(data, v)
    ensures 4 <= v <= |data|
  {
  }

  ghost predicate Recorded(vtables: seq<nat>, v: nat) {
    exists k :: 0 <= k < |vtables| && vtables[k] == v
  }

  /** Whichever vtable EndTable settles on, new or shared, the table is closed over it. */
  lemma EndTableChoice(cfg: Config, st: State, start: nat, r: State, loc: nat) returns (v: nat)
    requires FieldsOk(st, start) && VtablesOk(st.data, st.vtables)
    requires TableEnd(st.data) - start < U16 && TableEnd(st.data) <= MAX_BUFFER_SIZE
    requires EndTable(cfg, st, start) == (r, loc)
    ensures ClosedOver(r.data, st.data, loc, v, WantedVtable(st, start, loc)) && 8 <= |r.data|
    ensures |r.data| == (if v > loc then v else loc) && |r.data| - loc < U16 && loc == TableEnd(st.data)
    ensures (r.vtables == st.vtables && Recorded(st.vtables, v)) || r.vtables == st.vtables + [v]
  {
    hide Vtable, At, Tail, Extends, ClosedOver, PaddingBytes;
    PaddingIsLeast(|st.data|, 4);
    var vt := WantedVtable(st, start, loc);
    BuiltVtable(st, start, loc);
    var shared := if cfg.dedupVtables then FindVtable(st.data, st.vtables, vt) else None;
    if shared.Some? {
      v := shared.value;
      ClosedOverShared(st.data, v, loc);
      VtableIsBig(st.data, v);
    } else {
      v := loc + |vt|;
      ClosedOverNew(st.data, vt);
    }
  }

  lemma FieldsStart(st: State, start: nat)
    requires FieldsOk(st, start)
    ensures start <= |st.data|
  {
  }

  /** Closing a table extends the buffer, puts the table at a 4-aligned distance with the wanted
      vtable entries, and leaves every vtable in order - whether the vtable was new or shared. */
  lemma EndTableLayout(cfg: Config, st: State, start: nat, r: State, loc: nat)
    requires FieldsOk(st, start) && VtablesOk(st.data, st.vtables)
    requires TableEnd(st.data) - start < U16 && TableEnd(st.data) <= MAX_BUFFER_SIZE
    requires EndTable(cfg, st, start) == (r, loc)
    ensures Extends(r.data, st.data) && |st.data| < loc < |st.data| + 8 && 8 <= |r.data|
    ensures ClosedTable(r.data, loc, st.fields)
    ensures VtablesOk(r.data, r.vtables)
  {
    hide EndTable, FieldsOk, VtableOk, VtableBytes, At, ClosedTable, WantedVtable, TableEnd;
    var v := EndTableChoice(cfg, st, start, r, loc);
    assert start <= loc by { FieldsStart(st, start); }
    ClosedFromBytes(st, start, loc, r.data, v);
    VtablesStable(r.data, st.data, st.vtables);
  }
}
