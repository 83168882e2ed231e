/** Finished buffers: the header in front, and the main results about everything the builder makes. */
module FinishedBuffers {
  import opened Bytes
  import opened Wrappers
  import opened BuilderSpec
  import opened Table
  import opened Schema
  import opened TableLayout
  import opened Layout
  import opened LayoutReads
  import opened BuildLaid
  import opened Building
  import opened BuildRuns
  import opened VerifierSpec
  import opened LayoutVerifies

  /** Where the root offset lies: after the size prefix if there is one. */
  function Start(sizePrefix: bool): nat {
    if sizePrefix then 4 else 0
  }

  predicate IsIdentifier(identifier: Option<seq<Byte>>) {
    identifier.Some? ==> |identifier.value| == 4
  }

  /** The header in front of the objects: size prefix, root offset, identifier. */
  ghost predicate HeaderOk(buf: seq<Byte>, older: seq<Byte>, root: nat, identifier: Option<seq<Byte>>, sizePrefix: bool) {
    && IsIdentifier(identifier) && Extends(buf, older) && root <= |older|
    && |older| + FinishHeader(identifier, sizePrefix) <= |buf|
    && Word(buf, Start(sizePrefix), 4) == |buf| - root - Start(sizePrefix)
    && (identifier.Some? ==> buf[Start(sizePrefix) + 4..Start(sizePrefix) + 8] == identifier.value)
    && (sizePrefix ==> Word(buf, 0, 4) == |buf| - 4)
  }

  /** Prepending a four-byte scalar moves every position by four. */
  lemma Shifted(n: nat, rest: seq<Byte>, pos: nat, len: nat)
    requires n < U32 && pos + len <= |rest|
    ensures var buf := LE(n, 4) + rest;
            && Word(buf, 0, 4) == n
            && buf[4 + pos..4 + pos + len] == rest[pos..pos + len]
            && Word(buf, 4 + pos, len) == Word(rest, pos, len)
  {
    Widths();
    WordOfPrefix(n, 4, rest);
    var buf := LE(n, 4) + rest;
    assert buf[4 + pos..4 + pos + len] == rest[pos..pos + len];
  }

  /** The part of Finish up to and including the root offset. */
  lemma RootWritten(st: State, a: State, root: nat, identifier: Option<seq<Byte>>)
    requires IsAlignment(a.minalign) && 4 <= a.minalign && Extends(a.data, st.data) && 0 < root <= |st.data|
    requires IsIdentifier(identifier) && |a.data| % 4 == 0
    requires |a.data| + 4 + (if identifier.Some? then 4 else 0) <= MAX_BUFFER_SIZE
    ensures var b := match identifier { case Some(id) => Push(a, id) case None => a };
            var c := PushOffset(b, root);
            && c == b.(data := c.data) && |c.data| == |a.data| + FinishHeader(identifier, false)
            && |c.data| % 4 == 0
            && HeaderOk(c.data, st.data, root, identifier, false)
  {
    hide Grew, PaddingBytes, LE, Extends, Align, IsAlignment, HeaderOk, Word;
    var b := match identifier { case Some(id) => Push(a, id) case None => a };
    ExtendsLength(a.data, st.data);
    if identifier.Some? {
      ExtendsPrepend(identifier.value, a.data);
      ExtendsTransitive(b.data, a.data, st.data);
    }
    AlignIsNothing(b);
    PushLengthLays(b, ReferTo(root, |b.data|));
    HeaderAssembled(b, st, root, identifier);
  }

  lemma AlignIsNothing(st: State)
    requires |st.data| % 4 == 0 && 4 <= st.minalign
    ensures Align(st, 4) == st
  {
    NoPadding(|st.data|, 4);
    assert Zeros(0) + st.data == st.data;
  }

  lemma HeaderAssembled(b: State, st: State, root: nat, identifier: Option<seq<Byte>>)
    requires Extends(b.data, st.data) && 0 < root <= |st.data| && IsIdentifier(identifier) && |b.data| + 4 <= MAX_BUFFER_SIZE
    requires identifier.Some? ==> |st.data| + 4 <= |b.data| && b.data[..4] == identifier.value
    ensures HeaderOk(LE(ReferTo(root, |b.data|), 4) + b.data, st.data, root, identifier, false)
  {
    var n := ReferTo(root, |b.data|);
    hide Word, ReferTo;
    assert n == |b.data| - root + 4 by { ReferToIs(root, |b.data|); }
    ExtendsPrepend(LE(n, 4), b.data);
    ExtendsTransitive(LE(n, 4) + b.data, b.data, st.data);
    Shifted(n, b.data, 0, if identifier.Some? then 4 else 0);
    if identifier.Some? { assert b.data[0..4] == identifier.value; }
  }

  lemma ReferToIs(off: nat, size: nat)
    requires off <= size
    ensures ReferTo(off, size) == size - off + 4
  {
  }

  lemma FinishLays(st: State, root: nat, identifier: Option<seq<Byte>>, sizePrefix: bool)
    requires IsAlignment(st.minalign) && 4 <= st.minalign && 0 < root <= |st.data| && IsIdentifier(identifier)
    requires |Finish(st, root, identifier, sizePrefix).data| <= MAX_BUFFER_SIZE
    ensures var f := Finish(st, root, identifier, sizePrefix);
            && f.minalign == st.minalign && |f.data| % f.minalign == 0
            && |f.data| < |st.data| + FinishHeader(identifier, sizePrefix) + f.minalign
            && HeaderOk(f.data, st.data, root, identifier, sizePrefix)
  {
    hide Grew, PushOffset, PreAlign, PaddingBytes, IsAlignment, HeaderOk, Extends, LE, Word;
    var header := FinishHeader(identifier, sizePrefix);
    var t := TrackMinAlign(st.(vtables := []), if sizePrefix then 4 else 0);
    assert t.minalign == st.minalign;
    var a := PreAlign(t, header, t.minalign);
    PreAlignGrows(t, header, t.minalign);
    GrewExtends(a, t);
    PreAlignBound(t, header, t.minalign);
    HeaderAligned(|a.data|, header, t.minalign);
    SizesBound(st, root, identifier, sizePrefix);
    RootWritten(st, a, root, identifier);
    var b := match identifier { case Some(id) => Push(a, id) case None => a };
    var c := PushOffset(b, root);
    if sizePrefix {
      PushLengthLays(c, |c.data|);
      PrefixWritten(c.data, st.data, root, identifier);
    }
  }

  lemma HeaderAligned(n: nat, header: nat, align: nat)
    requires IsAlignment(align) && 4 <= align && (n + header) % align == 0 && header % 4 == 0
    ensures n % 4 == 0
  {
    MultiplesCompose(n + header, 4, align);
    DifferenceOfMultiples(n + header, header, 4);
  }

  lemma PreAlignBound(st: State, len: nat, alignment: nat)
    requires IsAlignment(alignment)
    ensures |PreAlign(st, len, alignment).data| < |st.data| + alignment
  {
    if len != 0 { PaddingIsLeast(|st.data| + len, alignment); }
  }

  lemma SizesBound(st: State, root: nat, identifier: Option<seq<Byte>>, sizePrefix: bool)
    requires IsAlignment(st.minalign) && 4 <= st.minalign && root <= |st.data| && IsIdentifier(identifier)
    ensures var header := FinishHeader(identifier, sizePrefix);
            var t := TrackMinAlign(st.(vtables := []), if sizePrefix then 4 else 0);
            |PreAlign(t, header, t.minalign).data| + header <= |Finish(st, root, identifier, sizePrefix).data|
  {
    hide PreAlign, PaddingBytes;
  }

  lemma PrefixWritten(inner: seq<Byte>, older: seq<Byte>, root: nat, identifier: Option<seq<Byte>>)
    requires HeaderOk(inner, older, root, identifier, false) && |inner| < U32
    ensures HeaderOk(LE(|inner|, 4) + inner, older, root, identifier, true)
  {
    ExtendsPrepend(LE(|inner|, 4), inner);
    ExtendsTransitive(LE(|inner|, 4) + inner, inner, older);
    Shifted(|inner|, inner, 0, 4);
    if identifier.Some? { Shifted(|inner|, inner, 4, 4); }
  }

  // ---- main results ----------------------------------------------------------------------------

  /** A run, and its buffer finished on the result of operation n as the root. */
  ghost predicate FinishedRun(cfg: Config, ops: seq<Op>, n: nat, identifier: Option<seq<Byte>>, sizePrefix: bool,
                              st: State, offs: seq<nat>, f: State)
  {
    && n < |ops| == |offs| && Run(cfg, ops) == Some((st, offs)) && IsIdentifier(identifier)
    && offs[n] <= |st.data| && 0 < st.minalign
    && f == Finish(st, offs[n], identifier, sizePrefix) && |f.data| <= MAX_BUFFER_SIZE
  }

  lemma FinishedLays(cfg: Config, sch: Schema, ops: seq<Op>, n: nat, identifier: Option<seq<Byte>>, sizePrefix: bool,
                     st: State, offs: seq<nat>, f: State, i: nat)
    requires SchemaOk(sch) && WellTyped(sch, ops) && i < |ops|
    requires FinishedRun(cfg, ops, n, identifier, sizePrefix, st, offs, f)
    ensures Laid(f.data, |st.data|, f.minalign, sch, OpType(ops[i]), offs[i], Denote(sch, ops, i))
    ensures HeaderOk(f.data, st.data, offs[n], identifier, sizePrefix)
    ensures IsAlignment(f.minalign) && 4 <= f.minalign && |f.data| % f.minalign == 0
    ensures offs[i] <= |st.data| < |f.data| && (ops[i].MakeTable? ==> 8 <= |st.data|)
  {
    hide Run, LaidOp, HeaderOk, Finish, WellTyped, SchemaOk, PoolOk, VtablesOk;
    assert ops[..|ops|] == ops;
    RunBuilds(cfg, sch, ops, |ops|);
    FinishLays(st, offs[n], identifier, sizePrefix);
    LaidInFinished(sch, ops, st, offs[n], identifier, sizePrefix, f, i, offs[i]);
  }

  lemma LaidInFinished(sch: Schema, ops: seq<Op>, st: State, root: nat, identifier: Option<seq<Byte>>, sizePrefix: bool,
                       f: State, i: nat, off: nat)
    requires SchemaOk(sch) && WellTyped(sch, ops) && i < |ops| && LaidOp(sch, ops, i, st, off)
    requires HeaderOk(f.data, st.data, root, identifier, sizePrefix) && f.minalign == st.minalign
    ensures |st.data| < |f.data| && (ops[i].MakeTable? ==> 8 <= |st.data|)
    ensures Laid(f.data, |st.data|, f.minalign, sch, OpType(ops[i]), off, Denote(sch, ops, i))
  {
    LaidStable(f.data, st.data, |st.data|, |st.data|, st.minalign, f.minalign, sch, OpType(ops[i]), off, Denote(sch, ops, i));
  }

  /** The object at distance off reads as the value operation i denotes. */
  ghost predicate ReadsBack(buf: seq<Byte>, sch: Schema, ops: seq<Op>, i: nat, off: nat)
    requires SchemaOk(sch) && WellTyped(sch, ops) && i < |ops|
  {
    off <= |buf| && (assert OpTyped(sch, ops, i); DecodeObject(buf, sch, OpType(ops[i]), |buf| - off) == Some(Denote(sch, ops, i)))
  }

  /** Round trip: in a finished buffer, whatever was built by any sequence of operations - before or
      after, with vtables shared or not, strings pooled or not, defaults forced or not - every object
      reads back as the value it was built from. */
  lemma RoundTrip(cfg: Config, sch: Schema, ops: seq<Op>, n: nat, identifier: Option<seq<Byte>>, sizePrefix: bool,
                  st: State, offs: seq<nat>, f: State, i: nat)
    requires SchemaOk(sch) && WellTyped(sch, ops) && i < |ops|
    requires FinishedRun(cfg, ops, n, identifier, sizePrefix, st, offs, f)
    ensures ReadsBack(f.data, sch, ops, i, offs[i])
  {
    hide Run, Finish, IsIdentifier, HeaderOk, IsAlignment, SchemaOk, WellTyped, ReadsBack, Laid;
    FinishedLays(cfg, sch, ops, n, identifier, sizePrefix, st, offs, f, i);
    LaidReadsBack(f.data, |st.data|, f.minalign, sch, ops, i, offs[i]);
  }

  lemma LaidReadsBack(buf: seq<Byte>, lim: nat, ma: nat, sch: Schema, ops: seq<Op>, i: nat, off: nat)
    requires SchemaOk(sch) && WellTyped(sch, ops) && i < |ops| && off <= |buf|
    requires Laid(buf, lim, ma, sch, OpType(ops[i]), off, Denote(sch, ops, i))
    ensures ReadsBack(buf, sch, ops, i, off)
  {
    hide Laid, DecodeObject, Denote;
    assert OpTyped(sch, ops, i);
    ObjectReads(buf, lim, ma, sch, OpType(ops[i]), off, Denote(sch, ops, i));
  }

  /** Reading the finished buffer from its start gives the value of the root table. */
  lemma RootRoundTrip(cfg: Config, sch: Schema, ops: seq<Op>, n: nat, identifier: Option<seq<Byte>>, sizePrefix: bool,
                      st: State, offs: seq<nat>, f: State)
    requires SchemaOk(sch) && WellTyped(sch, ops) && n < |ops| && ops[n].MakeTable? && ops[n].table < |sch|
    requires FinishedRun(cfg, ops, n, identifier, sizePrefix, st, offs, f)
    ensures DecodeRoot(f.data, sch, ops[n].table, Start(sizePrefix)) == Some(Denote(sch, ops, n))
  {
    hide Run, Finish, IsIdentifier, IsAlignment, SchemaOk, WellTyped, ReadsBack, Laid, HeaderOk, DecodeRoot;
    RoundTrip(cfg, sch, ops, n, identifier, sizePrefix, st, offs, f, n);
    FinishedLays(cfg, sch, ops, n, identifier, sizePrefix, st, offs, f, n);
    RootReads(f.data, st.data, sch, ops, n, offs[n], identifier, sizePrefix);
  }

  lemma RootReads(buf: seq<Byte>, older: seq<Byte>, sch: Schema, ops: seq<Op>, n: nat, root: nat,
                  identifier: Option<seq<Byte>>, sizePrefix: bool)
    requires SchemaOk(sch) && WellTyped(sch, ops) && n < |ops| && ops[n].MakeTable? && ops[n].table < |sch|
    requires ReadsBack(buf, sch, ops, n, root) && HeaderOk(buf, older, root, identifier, sizePrefix)
    ensures DecodeRoot(buf, sch, ops[n].table, Start(sizePrefix)) == Some(Denote(sch, ops, n))
  {
    hide DecodeTable, Denote, Extends;
  }

  lemma SameIdentifierRefl(a: seq<Byte>)
    ensures SameIdentifier(a, a)
  {
  }

  /** Completeness: the verifier accepts every finished buffer of the builder, with alignment checks on
      or off, if its nesting and its number of tables are within the options. */
  lemma BuiltIsVerified(cfg: Config, sch: Schema, ops: seq<Op>, n: nat, identifier: Option<seq<Byte>>, sizePrefix: bool,
                        st: State, offs: seq<nat>, f: State, opts: Options)
    requires SchemaOk(sch) && WellTyped(sch, ops) && n < |ops| && ops[n].MakeTable? && ops[n].table < |sch|
    requires FinishedRun(cfg, ops, n, identifier, sizePrefix, st, offs, f)
    requires SizeOk(f.data, opts)
    requires Depth(Denote(sch, ops, n)) <= opts.maxDepth && Tables(Denote(sch, ops, n)) <= opts.maxTables
    ensures if sizePrefix then VerifySizePrefixedBuffer(f.data, sch, opts, ops[n].table, identifier)
            else VerifyBuffer(f.data, sch, opts, ops[n].table, identifier)
  {
    hide Run, Finish, Denote, VerifyTable, Depth, Tables;
    FinishedLays(cfg, sch, ops, n, identifier, sizePrefix, st, offs, f, n);
    LaidIsVerified(sch, ops[n].table, f.data, st.data, f.minalign, offs[n], Denote(sch, ops, n), identifier, sizePrefix, opts);
  }

  lemma LaidIsVerified(sch: Schema, ti: nat, buf: seq<Byte>, older: seq<Byte>, ma: nat, root: nat, v: Value,
                       identifier: Option<seq<Byte>>, sizePrefix: bool, opts: Options)
    requires SchemaOk(sch) && ti < |sch| && SizeOk(buf, opts) && |buf| < U31 && 8 <= |older|
    requires HeaderOk(buf, older, root, identifier, sizePrefix) && LaidTable(buf, |older|, ma, sch, ti, root, v)
    requires IsAlignment(ma) && 4 <= ma && |buf| % ma == 0
    requires Depth(v) <= opts.maxDepth && Tables(v) <= opts.maxTables
    ensures if sizePrefix then VerifySizePrefixedBuffer(buf, sch, opts, ti, identifier)
            else VerifyBuffer(buf, sch, opts, ti, identifier)
  {
    hide LaidTable, VerifyTable, Extends, Depth, Tables, IsAlignment, SchemaOk, At, Target, FromLE, Pow256;
    var start := Start(sizePrefix);
    assert HeaderFits(buf, older, root, start) by { FitsHeader(buf, older, root, identifier, sizePrefix); }
    TableDistance(buf, |older|, ma, sch, ti, root, v);
    TableVerifies(buf, sch, opts, |older|, ma, ti, root, v, Counters(0, 0));
    RootVerifies(buf, opts, older, ma, root, start);
    if identifier.Some? { SameIdentifierRefl(identifier.value); }
    if sizePrefix { assert Word(buf, 0, 4) + 4 <= |buf|; }
  }

  ghost predicate HeaderFits(buf: seq<Byte>, older: seq<Byte>, root: nat, start: nat) {
    |older| + 4 + start <= |buf| && root <= |older| && Word(buf, start, 4) == |buf| - root - start
  }

  lemma FitsHeader(buf: seq<Byte>, older: seq<Byte>, root: nat, identifier: Option<seq<Byte>>, sizePrefix: bool)
    requires HeaderOk(buf, older, root, identifier, sizePrefix)
    ensures HeaderFits(buf, older, root, Start(sizePrefix))
  {
  }

  /** The root offset itself passes its check. */
  lemma RootVerifies(buf: seq<Byte>, opts: Options, older: seq<Byte>, ma: nat, root: nat, start: nat)
    requires SizeOk(buf, opts) && |buf| < U31 && (start == 0 || start == 4)
    requires HeaderFits(buf, older, root, start) && 4 <= root
    ensures VerifyOffset(buf, opts, start) && start + Word(buf, start, 4) == |buf| - root
  {
  }

  lemma TableDistance(buf: seq<Byte>, lim: nat, ma: nat, sch: Schema, ti: nat, o: nat, v: Value)
    requires SchemaOk(sch) && ti < |sch| && LaidTable(buf, lim, ma, sch, ti, o, v)
    ensures 4 <= o <= lim
  {
  }
}
