/** The verifier's limits hold of what it accepts: the value read from an accepted buffer nests no deeper
    and has no more tables than the options allow, and the counters count exactly its tables. */
module VerifierLimits {
  import opened Bytes
  import opened Wrappers
  import opened Table
  import opened Schema
  import opened VerifierSpec
  import opened LayoutVerifies
  import opened VerifierExact

  /** A value of that depth and number of tables was counted. */
  ghost predicate Counted(before: Counters, after: Counters, depth: nat, tables: nat, opts: Options) {
    && after == Counters(before.depth, before.tables + tables)
    && before.depth + depth <= opts.maxDepth && before.tables + tables <= opts.maxTables
  }

  lemma TableCounted(buf: seq<Byte>, sch: Schema, opts: Options, ti: nat, t: nat, c: Counters)
    requires SchemaOk(sch) && ti < |sch| && SizeOk(buf, opts) && Within(c, opts) && opts.maxDepth < U32 - 1 && opts.maxTables < U32 - 1
    requires VerifyTable(buf, sch, opts, ti, t, c).0
    ensures DecodeTable(buf, sch, ti, t).Some?
    ensures var v := DecodeTable(buf, sch, ti, t).value;
            Counted(c, VerifyTable(buf, sch, opts, ti, t, c).1, Depth(v), Tables(v), opts)
  {
    hide DecodeTable, VerifyTable, GoodTable;
    TableSound(buf, sch, opts, ti, t, c);
    TableComplete(buf, sch, opts, ti, t, c);
  }

  /** Whatever the bytes, what is read from an accepted buffer is within the limits asked for: no table
      lies deeper, and there are no more tables, counted once for each way to reach them. */
  lemma AcceptedIsLimited(buf: seq<Byte>, sch: Schema, opts: Options, ti: nat, identifier: Option<seq<Byte>>, start: nat)
    requires SchemaOk(sch) && ti < |sch| && SizeOk(buf, opts) && start <= 4 && opts.maxDepth < U32 - 1 && opts.maxTables < U32 - 1
    requires identifier.Some? ==> |identifier.value| == 4
    requires VerifyFromStart(buf, sch, opts, ti, identifier, start)
    ensures DecodeRoot(buf, sch, ti, start).Some?
    ensures var v := DecodeRoot(buf, sch, ti, start).value; Depth(v) <= opts.maxDepth && Tables(v) <= opts.maxTables
  {
    hide DecodeTable, VerifyTable;
    TableCounted(buf, sch, opts, ti, start + Word(buf, start, 4), Counters(0, 0));
  }
}
