/** VerifierTemplate in the form the source has it: an object whose two counters advance while the
    generated Verify chains run.  Each method does what its function in VerifierSpec says. */
module VerifierObject {
  import opened Bytes
  import opened Wrappers
  import opened Table
  import opened Schema
  import Spec = VerifierSpec
  import VerifierSoundness
  import VerifierExact

  class Verifier {
    const buf: seq<Byte>
    const sch: Schema
    const opts: Spec.Options
    var depth: nat
    var numTables: nat

    predicate Valid() {
      SchemaOk(sch) && Spec.SizeOk(buf, opts)
    }

    function Counted(): Spec.Counters
      reads this
    {
      Spec.Counters(depth, numTables)
    }

    constructor (buf: seq<Byte>, sch: Schema, opts: Spec.Options)
      requires SchemaOk(sch) && Spec.SizeOk(buf, opts)
      ensures Valid() && this.buf == buf && this.sch == sch && this.opts == opts
      ensures Counted() == Spec.Counters(0, 0)
    {
      this.buf, this.sch, this.opts := buf, sch, opts;
      depth, numTables := 0, 0;
    }

    method VerifyComplexity() returns (ok: bool)
      modifies this
      ensures Counted() == Spec.VerifyComplexity(old(Counted()))
      ensures ok == (depth <= opts.maxDepth && numTables <= opts.maxTables)
    {
      depth := (depth + 1) % U32;
      numTables := (numTables + 1) % U32;
      ok := depth <= opts.maxDepth && numTables <= opts.maxTables;
    }

    method EndTable() returns (ok: bool)
      modifies this
      ensures ok && Counted() == Spec.Counters((old(depth) - 1) % U32, old(numTables))
    {
      depth := (depth - 1) % U32;
      ok := true;
    }

    method VerifyTableStart(t: nat) returns (ok: bool)
      requires Valid()
      modifies this
      ensures (ok, Counted()) == Spec.VerifyTableStart(buf, opts, t, old(Counted()))
    {
      hide SchemaOk;
      if !Spec.ScalarOk(buf, opts, t, 4) { return false; }
      var vtable := Spec.VtablePosition(buf, t);
      var simple := VerifyComplexity();
      if !(simple && Spec.ScalarOk(buf, opts, vtable, 2) && Spec.AlignmentOk(opts, Word(buf, vtable, 2), 2)) {
        return false;
      }
      var vsize := Word(buf, vtable, 2);
      ok := vsize % 2 == 0 && Spec.Range(buf, vtable, vsize);
    }

    method VerifyVectorOfStrings(v: nat) returns (ok: bool)
      requires Valid() && Spec.VerifyVectorOrString(buf, opts, v, 4)
      ensures v + 4 + 4 * Word(buf, v, 4) <= |buf|
      ensures ok == Spec.VerifyStrings(buf, opts, v, 0, Word(buf, v, 4))
    {
      hide SchemaOk;
      Spec.VectorInside(buf, opts, v, 4);
      var n := Word(buf, v, 4);
      var i := 0;
      while i < n
        invariant 0 <= i <= n
        invariant Spec.VerifyStrings(buf, opts, v, 0, n) == Spec.VerifyStrings(buf, opts, v, i, n)
      {
        if !Spec.VerifyString(buf, opts, GetIndirect(buf, v, i).value) { return false; }
        i := i + 1;
      }
      ok := true;
    }

    method VerifyVectorOfTables(ti: nat, v: nat) returns (ok: bool)
      requires Valid() && ti < |sch| && Spec.VerifyVectorOrString(buf, opts, v, 4)
      modifies this
      ensures v + 4 + 4 * Word(buf, v, 4) <= |buf|
      ensures (ok, Counted()) == Spec.VerifyTables(buf, sch, opts, ti, v, 0, Word(buf, v, 4), old(Counted()))
      decreases |buf| - v, 3
    {
      hide SchemaOk;
      Spec.VectorInside(buf, opts, v, 4);
      var n := Word(buf, v, 4);
      var i := 0;
      while i < n
        invariant 0 <= i <= n
        invariant Spec.VerifyTables(buf, sch, opts, ti, v, 0, n, old(Counted()))
               == Spec.VerifyTables(buf, sch, opts, ti, v, i, n, Counted())
      {
        var good := VerifyTable(ti, GetIndirect(buf, v, i).value);
        if !good { return false; }
        i := i + 1;
      }
      ok := true;
    }

    /** One table's Verify: the start, the fields in order, the end. */
    method VerifyTable(ti: nat, t: nat) returns (ok: bool)
      requires Valid() && ti < |sch|
      modifies this
      ensures (ok, Counted()) == Spec.VerifyTable(buf, sch, opts, ti, t, old(Counted()))
      decreases |buf| - t, 3
    {
      hide SchemaOk, Spec.VerifyFields, Spec.TableStartOk, Word, Spec.VtablePosition;
      ghost var c0 := Counted();
      ok := VerifyTableStart(t);
      if !ok { return false; }
      StartEstablished(t, c0);
      ok := VerifyFields(ti, t);
      if !ok { return false; }
      ok := EndTable();
    }

    lemma StartEstablished(t: nat, c: Spec.Counters)
      requires Valid() && Spec.VerifyTableStart(buf, opts, t, c).0
      ensures Spec.TableStartOk(buf, t)
    {
      hide SchemaOk;
    }

    /** The checks of the fields, chained: the first that fails decides. */
    method VerifyFields(ti: nat, t: nat) returns (ok: bool)
      requires Valid() && ti < |sch| && Spec.TableStartOk(buf, t)
      modifies this
      ensures (ok, Counted()) == Spec.VerifyFields(buf, sch, opts, ti, t, 0, old(Counted()))
      decreases |buf| - t, 2
    {
      hide SchemaOk, Spec.TableStartOk, Spec.VerifyOneField, Spec.PriorFieldOk;
      var k := 0;
      ghost var c0 := Counted();
      NothingPrior(ti, t);
      while k < |sch[ti]|
        invariant 0 <= k <= |sch[ti]| && Spec.PriorFieldOk(buf, sch, opts, ti, t, k)
        invariant Spec.VerifyFields(buf, sch, opts, ti, t, 0, c0) == Spec.VerifyFields(buf, sch, opts, ti, t, k, Counted())
      {
        ghost var c := Counted();
        var good := VerifyOneField(ti, t, k);
        if !good { return false; }
        NowPrior(ti, t, k, c);
        k := k + 1;
      }
      ok := true;
    }

    lemma NothingPrior(ti: nat, t: nat)
      requires Valid() && ti < |sch| && Spec.TableStartOk(buf, t)
      ensures Spec.PriorFieldOk(buf, sch, opts, ti, t, 0)
    {
    }

    lemma NowPrior(ti: nat, t: nat, k: nat, c: Spec.Counters)
      requires Valid() && ti < |sch| && Spec.TableStartOk(buf, t) && k < |sch[ti]|
      requires Spec.PriorFieldOk(buf, sch, opts, ti, t, k)
      requires Spec.VerifyOneField(buf, sch, opts, ti, t, k, c).0
      ensures Spec.PriorFieldOk(buf, sch, opts, ti, t, k + 1)
    {
      hide Spec.TableStartOk, Spec.VerifyField, Spec.VerifyTable, Spec.VerifyObject, GetPointer, GetField;
      assert TypeOk(sch, ti, k);
    }

    /** The check of one field; a union dispatches on its type field. */
    method VerifyOneField(ti: nat, t: nat, k: nat) returns (ok: bool)
      requires Valid() && ti < |sch| && Spec.TableStartOk(buf, t) && k < |sch[ti]|
      requires Spec.PriorFieldOk(buf, sch, opts, ti, t, k)
      modifies this
      ensures (ok, Counted()) == Spec.VerifyOneField(buf, sch, opts, ti, t, k, old(Counted()))
      decreases |buf| - t, 1
    {
      hide Spec.TableStartOk, Spec.VerifyTable, Spec.VerifyObject;
      var id := sch[ti][k].id;
      assert TypeOk(sch, ti, k);
      match sch[ti][k].ty
      case TScalar(size, def) => ok := Spec.VerifyField(buf, opts, t, id, size);
      case TUnion(typeField, members) =>
        if !Spec.VerifyOffsetField(buf, opts, t, id) { return false; }
        var p := GetPointer(buf, t, id).value;
        var which := GetField(buf, t, typeField, 1, 0).value;
        if which in members && p.To? { ok := VerifyTable(members[which], p.pos); } else { ok := true; }
      case _ =>
        if !Spec.VerifyOffsetField(buf, opts, t, id) { return false; }
        var p := GetPointer(buf, t, id).value;
        if p.Null? { return true; }
        ok := VerifyObject(sch[ti][k].ty, p.pos);
    }

    method VerifyObject(ty: FieldType, p: nat) returns (ok: bool)
      requires Valid()
      requires match ty {
                 case TTable(j) => j < |sch|
                 case TTableVector(j) => j < |sch|
                 case TScalarVector(size) => size > 0
                 case _ => true }
      modifies this
      ensures (ok, Counted()) == Spec.VerifyObject(buf, sch, opts, ty, p, old(Counted()))
      decreases |buf| - p, 4
    {
      hide SchemaOk, Spec.VerifyTable, Spec.VerifyTables, Spec.VerifyStrings, Spec.VerifyVectorOrString;
      match ty
      case TString => ok := Spec.VerifyString(buf, opts, p);
      case TScalarVector(size) => ok := Spec.VerifyVectorOrString(buf, opts, p, size);
      case TStringVector =>
        if !Spec.VerifyVectorOrString(buf, opts, p, 4) { return false; }
        ok := VerifyVectorOfStrings(p);
      case TTable(j) => ok := VerifyTable(j, p);
      case TTableVector(j) =>
        if !Spec.VerifyVectorOrString(buf, opts, p, 4) { return false; }
        ok := VerifyVectorOfTables(j, p);
      case _ => ok := true;
    }

    /** VerifyBufferFromStart on a fresh verifier. */
    method VerifyBufferFromStart(ti: nat, identifier: Option<seq<Byte>>, start: nat) returns (ok: bool)
      requires Valid() && ti < |sch| && start <= 4 && Counted() == Spec.Counters(0, 0)
      requires identifier.Some? ==> |identifier.value| == 4
      modifies this
      ensures ok == Spec.VerifyFromStart(buf, sch, opts, ti, identifier, start)
      ensures ok <==> VerifierExact.Acceptable(buf, sch, opts, ti, identifier, start)
      ensures ok ==> depth == 0 && DecodeRoot(buf, sch, ti, start).Some?
    {
      hide SchemaOk, Spec.VerifyTable, DecodeRoot, VerifierExact.Acceptable;
      VerifierExact.AcceptsExactly(buf, sch, opts, ti, identifier, start);
      if !(|buf| >= Spec.MIN_BUFFER_SIZE) { return false; }
      if !Spec.IdentifierOk(buf, start, identifier) { return false; }
      if !Spec.VerifyOffset(buf, opts, start) { return false; }
      ok := VerifyTable(ti, start + Word(buf, start, 4));
      if ok {
        VerifierSoundness.VerifiedIsReadable(buf, sch, opts, ti, identifier, start);
        VerifierSoundness.TableBalanced(buf, sch, opts, ti, start + Word(buf, start, 4), Spec.Counters(0, 0));
      }
    }

    method VerifyBuffer(ti: nat, identifier: Option<seq<Byte>>) returns (ok: bool)
      requires Valid() && ti < |sch| && Counted() == Spec.Counters(0, 0)
      requires identifier.Some? ==> |identifier.value| == 4
      modifies this
      ensures ok == Spec.VerifyBuffer(buf, sch, opts, ti, identifier)
      ensures ok <==> VerifierExact.Acceptable(buf, sch, opts, ti, identifier, 0)
      ensures ok ==> depth == 0 && DecodeRoot(buf, sch, ti, 0).Some?
    {
      ok := VerifyBufferFromStart(ti, identifier, 0);
    }

    method VerifySizePrefixedBuffer(ti: nat, identifier: Option<seq<Byte>>) returns (ok: bool)
      requires Valid() && ti < |sch| && Counted() == Spec.Counters(0, 0)
      requires identifier.Some? ==> |identifier.value| == 4
      modifies this
      ensures ok == Spec.VerifySizePrefixedBuffer(buf, sch, opts, ti, identifier)
      ensures ok <==> 4 < |buf| && Word(buf, 0, 4) + 4 <= |buf| && VerifierExact.Acceptable(buf, sch, opts, ti, identifier, 4)
      ensures ok ==> depth == 0 && DecodeRoot(buf, sch, ti, 4).Some?
    {
      if !Spec.ScalarOk(buf, opts, 0, 4) { return false; }
      if !(Word(buf, 0, 4) + 4 <= |buf|) { return false; }
      ok := VerifyBufferFromStart(ti, identifier, 4);
    }
  }
}
