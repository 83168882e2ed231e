/** The packets of the game: what the client builds within the server's size limit, the server accepts
    and reads as the same event. */
module Packets {
  import opened Bytes
  import opened Wrappers
  import opened BuilderSpec
  import opened Table
  import opened Schema
  import opened Building
  import opened BuildLaid
  import opened FinishedBuffers
  import opened VerifierSpec
  import opened VerifierSoundness
  import opened LayoutVerifies
  import opened BuilderRuns
  import opened BuildSizes
  import opened UserEvents
  import opened WorkerLimits

  /** CreateDatabasePacket around the result of operation r, the largest field first. */
  function Packet(event: nat, r: Option<nat>, socket: nat): Op {
    MakeTable(DATABASE_PACKET, [SetScalar(8, socket, 0, 4), SetRef(6, r), SetScalar(4, event, 0, 1)])
  }

  /** Operation r of the build made the table of this event. */
  predicate IsEvent(ops: seq<Op>, event: nat, r: nat) {
    r < |ops| && event in EventTables() && OpType(ops[r]) == TTable(EventTables()[event])
  }

  lemma OpTypedPrefix(sch: Schema, ops: seq<Op>, more: seq<Op>, n: nat)
    requires n < |ops| <= |more| && ops == more[..|ops|]
    ensures OpTyped(sch, ops, n) == OpTyped(sch, more, n)
  {
    assert more[n] == ops[n];
    if ops[n].MakeTable? && ops[n].table < |sch| {
      var t, inits := ops[n].table, ops[n].inits;
      forall k | 0 <= k < |sch[t]| ensures FieldTyped(sch, ops, n, t, inits, k) == FieldTyped(sch, more, n, t, inits, k) {
        FieldTypedPrefix(sch, ops, more, n, t, inits, k);
      }
    }
  }

  lemma FieldTypedPrefix(sch: Schema, ops: seq<Op>, more: seq<Op>, n: nat, t: nat, inits: seq<Init>, k: nat)
    requires n < |ops| <= |more| && ops == more[..|ops|] && t < |sch| && k < |sch[t]|
    ensures FieldTyped(sch, ops, n, t, inits, k) == FieldTyped(sch, more, n, t, inits, k)
  {
    hide FindInit, ScalarOf, OpType;
    match FindInit(inits, sch[t][k].id)
    case Some(SetRef(_, Some(r))) => if r < n { assert more[r] == ops[r]; }
    case _ =>
  }

  /** Later operations do not change what earlier ones mean. */
  lemma {:induction false} DenotePrefix(sch: Schema, ops: seq<Op>, more: seq<Op>, n: nat)
    requires n < |ops| <= |more| && ops == more[..|ops|] && WellTyped(sch, ops) && WellTyped(sch, more)
    ensures Denote(sch, ops, n) == Denote(sch, more, n)
    decreases n
  {
    hide FieldTyped, DenoteField;
    assert more[n] == ops[n] && OpTyped(sch, ops, n) && OpTyped(sch, more, n);
    match ops[n]
    case MakeStrings(refs) => SameItems(sch, ops, more, n, refs);
    case MakeTables(_, refs) => SameItems(sch, ops, more, n, refs);
    case MakeTable(t, inits) =>
      forall k | 0 <= k < |sch[t]| ensures DenoteField(sch, ops, n, k) == DenoteField(sch, more, n, k) {
        forall r | 0 <= r < n ensures Denote(sch, ops, r) == Denote(sch, more, r) { DenotePrefix(sch, ops, more, r); }
        SameField(sch, ops, more, n, k);
      }
    case _ =>
  }

  lemma SameField(sch: Schema, ops: seq<Op>, more: seq<Op>, n: nat, k: nat)
    requires n < |ops| <= |more| && ops == more[..|ops|] && WellTyped(sch, ops) && WellTyped(sch, more)
    requires ops[n] == more[n] && ops[n].MakeTable? && ops[n].table < |sch| && k < |sch[ops[n].table]|
    requires forall r :: 0 <= r < n ==> Denote(sch, ops, r) == Denote(sch, more, r)
    ensures DenoteField(sch, ops, n, k) == DenoteField(sch, more, n, k)
  {
    hide Denote;
    assert OpTyped(sch, ops, n) && OpTyped(sch, more, n);
    assert FieldTyped(sch, ops, n, ops[n].table, ops[n].inits, k);
  }

  lemma {:induction false} SameItems(sch: Schema, ops: seq<Op>, more: seq<Op>, n: nat, refs: seq<nat>)
    requires n < |ops| <= |more| && ops == more[..|ops|] && WellTyped(sch, ops) && WellTyped(sch, more)
    requires forall i :: 0 <= i < |refs| ==> refs[i] < n
    ensures forall i :: 0 <= i < |refs| ==> Denote(sch, ops, refs[i]) == Denote(sch, more, refs[i])
    decreases n, 0
  {
    hide Denote;
    forall i | 0 <= i < |refs| ensures Denote(sch, ops, refs[i]) == Denote(sch, more, refs[i]) {
      DenotePrefix(sch, ops, more, refs[i]);
    }
  }

  lemma PacketTyped(ops: seq<Op>, event: nat, r: nat, socket: nat)
    requires IsEvent(ops, event, r) && socket < U32
    ensures OpTyped(Events(), ops + [Packet(event, Some(r), socket)], |ops|)
  {
    hide EventTables, OpType;
    Widths();
    EventTablesExist(event);
    var more, n := ops + [Packet(event, Some(r), socket)], |ops|;
    var inits := more[n].inits;
    PacketInits(event, r, socket);
    assert more[r] == ops[r];
    forall k | 0 <= k < |Events()[DATABASE_PACKET]| ensures FieldTyped(Events(), more, n, DATABASE_PACKET, inits, k) {
    }
  }

  lemma PacketInits(event: nat, r: nat, socket: nat)
    ensures var inits := Packet(event, Some(r), socket).inits;
            && FindInit(inits, 4) == Some(SetScalar(4, event, 0, 1))
            && FindInit(inits, 6) == Some(SetRef(6, Some(r)))
            && FindInit(inits, 8) == Some(SetScalar(8, socket, 0, 4))
  {
    var inits := Packet(event, Some(r), socket).inits;
    assert inits[..2] == [SetScalar(8, socket, 0, 4), SetRef(6, Some(r))];
    assert inits[..2][..1] == [SetScalar(8, socket, 0, 4)];
    assert FindInit(inits[..2][..1], 8) == Some(SetScalar(8, socket, 0, 4));
  }

  /** The packet keeps the build well typed and means its type, the event it wraps and the socket. */
  lemma PacketMeans(ops: seq<Op>, event: nat, r: nat, socket: nat)
    requires WellTyped(Events(), ops) && IsEvent(ops, event, r) && socket < U32
    ensures var more := ops + [Packet(event, Some(r), socket)];
            && WellTyped(Events(), more)
            && Denote(Events(), more, |ops|) == VTable([VScalar(event), Denote(Events(), ops, r), VScalar(socket)])
  {
    hide OpTyped, EventTables, FieldTyped, Denote, OpType, FindInit;
    var more := ops + [Packet(event, Some(r), socket)];
    PacketTyped(ops, event, r, socket);
    assert ops == more[..|ops|];
    forall n | 0 <= n < |more| ensures OpTyped(Events(), more, n) {
      if n < |ops| { OpTypedPrefix(Events(), ops, more, n); }
    }
    DenotePrefix(Events(), ops, more, r);
    PacketInits(event, r, socket);
    PacketDenotes(more, event, r, socket);
  }

  lemma PacketDenotes(more: seq<Op>, event: nat, r: nat, socket: nat)
    requires WellTyped(Events(), more) && |more| > 0 && r < |more| - 1 && event in EventTables()
    requires more[|more| - 1] == Packet(event, Some(r), socket)
    ensures Denote(Events(), more, |more| - 1) == VTable([VScalar(event), Denote(Events(), more, r), VScalar(socket)])
  {
    hide EventTables, FieldTyped, OpTyped, WellTyped;
    var n := |more| - 1;
    PacketInits(event, r, socket);
    assert DenoteField(Events(), more, n, 0) == VScalar(event);
    assert DenoteField(Events(), more, n, 1) == Denote(Events(), more, r);
    assert DenoteField(Events(), more, n, 2) == VScalar(socket);
  }

  // ---- the server's limits ---------------------------------------------------------------------

  /** The verifier as the server constructs it. */
  const SERVER_OPTIONS := Options(64, 1_000_000, true, MAX_BUFFER_SIZE)

  lemma {:induction false} DepthAtMost(vs: seq<Value>, k: nat, d: nat)
    requires k <= |vs| && forall i :: 0 <= i < |vs| ==> Depth(vs[i]) <= d
    ensures DepthFrom(vs, k) <= d
    decreases |vs| - k
  {
    if k < |vs| { DepthAtMost(vs, k + 1, d); }
  }

  lemma {:induction false} TablesAtMost(vs: seq<Value>, k: nat, m: nat)
    requires k <= |vs| && forall i :: 0 <= i < |vs| ==> Tables(vs[i]) <= m
    ensures TablesFrom(vs, k) <= m * (|vs| - k)
    decreases |vs| - k
  {
    hide Tables;
    if k < |vs| {
      TablesAtMost(vs, k + 1, m);
      OneMore(m, |vs| - k);
    }
  }

  lemma OneMore(m: nat, n: nat)
    requires n > 0
    ensures m + m * (n - 1) == m * n
  {
  }

  lemma {:induction false} FieldsDecoded(buf: seq<Byte>, sch: Schema, ti: nat, t: nat, k: nat, i: nat)
    requires SchemaOk(sch) && ti < |sch| && t < |buf| && k <= |sch[ti]| && DecodeFields(buf, sch, ti, t, k).Some?
    requires i < |sch[ti]| - k
    ensures DecodeField(buf, sch, ti, t, k + i) == Some(DecodeFields(buf, sch, ti, t, k).value[i])
    decreases i
  {
    hide DecodeField;
    if i > 0 { FieldsDecoded(buf, sch, ti, t, k + 1, i - 1); }
  }

  /** At most so many tables in the value of a table of this level, in a buffer of this size. */
  function Most(level: nat, size: nat): nat {
    if level <= 1 then 1 else level - 1 + MOST_FIELDS * (size / 4)
  }

  /** Every element of a vector of tables is read through an offset of its own. */
  lemma {:induction false} ItemsDecoded(buf: seq<Byte>, sch: Schema, ti: nat, v: nat, i: nat, n: nat, j: nat)
    requires SchemaOk(sch) && ti < |sch| && i <= n && v < |buf| && DecodeTables(buf, sch, ti, v, i, n).Some? && j < n - i
    ensures var p := GetIndirect(buf, v, i + j);
            p.Some? && DecodeTable(buf, sch, ti, p.value) == Some(DecodeTables(buf, sch, ti, v, i, n).value[j])
    ensures v + 8 + 4 * (i + j) <= |buf|
    decreases j
  {
    hide DecodeTable;
    if j > 0 { ItemsDecoded(buf, sch, ti, v, i + 1, n, j - 1); }
  }

  /** A table of an event: how deep its value is and how many tables it has. */
  lemma {:induction false} TableBounds(buf: seq<Byte>, ti: nat, t: nat, v: Value)
    requires ti < TABLES && Level(ti) <= 2 && DecodeTable(buf, Events(), ti, t) == Some(v)
    ensures Depth(v) <= Level(ti) && Tables(v) <= Most(Level(ti), |buf|)
    decreases Level(ti), 1
  {
    hide Events, Fields, Level, DecodeField;
    var vs := v.fields;
    var m := if Level(ti) == 1 then 0 else |buf| / 4;
    forall k | 0 <= k < |vs| ensures Depth(vs[k]) < Level(ti) && Tables(vs[k]) <= m {
      FieldsDecoded(buf, Events(), ti, t, 0, k);
      FieldBounds(buf, ti, t, k, vs[k]);
    }
    DepthAtMost(vs, 0, Level(ti) - 1);
    TablesAtMost(vs, 0, m);
    FewFields(ti);
    assert m * |vs| <= MOST_FIELDS * m by { Monotone(|vs|, MOST_FIELDS, m); }
  }

  lemma Monotone(a: nat, b: nat, m: nat)
    requires a <= b
    ensures m * a <= b * m
  {
  }

  lemma FewFields(ti: nat)
    requires ti < TABLES
    ensures |Events()[ti]| <= MOST_FIELDS
  {
    hide Fields, EventTables, Level;
    if |Fields(ti)| > 0 { FieldsFit(ti, 0); }
  }

  lemma EventField(ti: nat, k: nat)
    requires ti < TABLES && k < |Events()[ti]|
    ensures UserEvents.Fits(ti, Events()[ti], k)
  {
    hide Fields, UserEvents.Fits;
    FieldsFit(ti, k);
  }

  lemma {:induction false} FieldBounds(buf: seq<Byte>, ti: nat, t: nat, k: nat, v: Value)
    requires ti < TABLES && Level(ti) <= 2 && t < |buf| && k < |Events()[ti]|
    requires DecodeField(buf, Events(), ti, t, k) == Some(v)
    ensures Depth(v) < Level(ti) && Tables(v) <= (if Level(ti) == 1 then 0 else |buf| / 4)
    decreases Level(ti), 0
  {
    hide Fields, Level, EventTables, DecodeTable, DecodeTables, Events, GetField;
    EventField(ti, k);
    assert ti != DATABASE_PACKET by { PacketLevel(); }
    match Events()[ti][k].ty
    case TTable(j) =>
      var p := GetPointer(buf, t, Events()[ti][k].id).value;
      if p.To? { TableBounds(buf, j, p.pos, v); }
    case TTableVector(j) =>
      var p := GetPointer(buf, t, Events()[ti][k].id).value;
      if p.To? { VectorBounds(buf, j, p.pos, v); }
    case _ =>
  }

  lemma PacketLevel()
    ensures Level(DATABASE_PACKET) == 3
  {
  }

  lemma {:induction false} VectorBounds(buf: seq<Byte>, j: nat, p: nat, v: Value)
    requires j < TABLES && Level(j) == 1 && DecodeObject(buf, Events(), TTableVector(j), p) == Some(v)
    ensures Depth(v) <= 1 && Tables(v) <= |buf| / 4
    decreases 1, 2
  {
    hide Fields, Level, EventTables, DecodeTable, DecodeTables, Events;
    var n := VectorSize(buf, p).value;
    var items := v.items;
    forall i | 0 <= i < n ensures Depth(items[i]) <= 1 && Tables(items[i]) <= 1 {
      ItemsDecoded(buf, Events(), j, p, 0, n, i);
      TableBounds(buf, j, GetIndirect(buf, p, i).value, items[i]);
    }
    DepthAtMost(items, 0, 1);
    TablesAtMost(items, 0, 1);
    if n > 0 { ItemsDecoded(buf, Events(), j, p, 0, n, n - 1); }
  }

  /** A whole packet, from its root offset. */
  lemma PacketBounds(buf: seq<Byte>, event: nat, inner: Value, socket: nat)
    requires DecodeRoot(buf, Events(), DATABASE_PACKET, 0) == Some(VTable([VScalar(event), inner, VScalar(socket)]))
    ensures Depth(VTable([VScalar(event), inner, VScalar(socket)])) <= 3
    ensures Tables(VTable([VScalar(event), inner, VScalar(socket)])) <= 2 + MOST_FIELDS * (|buf| / 4)
  {
    hide EventTables, Level, DecodeTable, DecodeField;
    var t := GetRoot(buf, 0).value;
    var vs := [VScalar(event), inner, VScalar(socket)];
    PacketFields(buf, t, vs);
    EventBounds(buf, t, inner);
    PacketValue(event, inner, socket);
  }

  lemma PacketFields(buf: seq<Byte>, t: nat, vs: seq<Value>)
    requires |vs| == 3 && DecodeTable(buf, Events(), DATABASE_PACKET, t) == Some(VTable(vs))
    ensures t < |buf| && |Events()[DATABASE_PACKET]| == 3 && DecodeField(buf, Events(), DATABASE_PACKET, t, 1) == Some(vs[1])
  {
    hide EventTables, Level, DecodeField;
    FieldsDecoded(buf, Events(), DATABASE_PACKET, t, 0, 1);
  }

  lemma EventBounds(buf: seq<Byte>, t: nat, inner: Value)
    requires t < |buf| && |Events()[DATABASE_PACKET]| == 3
    requires DecodeField(buf, Events(), DATABASE_PACKET, t, 1) == Some(inner)
    ensures Depth(inner) <= 2 && Tables(inner) <= 1 + MOST_FIELDS * (|buf| / 4)
  {
    hide EventTables, Level, DecodeTable, GetField;
    var which := GetField(buf, t, 4, 1, 0).value;
    var p := GetPointer(buf, t, 6).value;
    if p.To? && which in EventTables() {
      EventTablesExist(which);
      PacketLevel();
      TableBounds(buf, EventTables()[which], p.pos, inner);
    }
  }

  lemma PacketValue(event: nat, inner: Value, socket: nat)
    ensures Depth(VTable([VScalar(event), inner, VScalar(socket)])) == 1 + Depth(inner)
    ensures Tables(VTable([VScalar(event), inner, VScalar(socket)])) == 1 + Tables(inner)
  {
    var vs := [VScalar(event), inner, VScalar(socket)];
    assert DepthFrom(vs, 3) == 0 && TablesFrom(vs, 3) == 0;
    assert DepthFrom(vs, 2) == 0 && TablesFrom(vs, 2) == 0;
    assert DepthFrom(vs, 1) == Depth(inner) && TablesFrom(vs, 1) == Tables(inner);
    assert DepthFrom(vs, 0) == Depth(inner) && TablesFrom(vs, 0) == Tables(inner);
    assert Depth(VTable(vs)) == 1 + DepthFrom(vs, 0) && Tables(VTable(vs)) == 1 + TablesFrom(vs, 0);
  }

  // ---- from the client to the server -----------------------------------------------------------

  /** The room a packet's own table takes. */
  const PACKET_ROOM: nat := 46

  lemma PacketLegal(ops: seq<Op>, event: nat, r: nat, socket: nat)
    requires AllLegal(ops) && IsEvent(ops, event, r) && socket < U32
    ensures var more := ops + [Packet(event, Some(r), socket)];
            AllLegal(more) && RoomOf(more) == RoomOf(ops) + PACKET_ROOM
  {
    hide EventTables, OpType, Legal;
    var op := Packet(event, Some(r), socket);
    var more := ops + [op];
    assert Legal(op, |ops|) && Room(op) == PACKET_ROOM by { PacketInitsLegal(event, r, socket, |ops|); }
    assert more[..|ops|] == ops;
    forall n | 0 <= n < |more| ensures Legal(more[n], n) {
      if n < |ops| { assert more[n] == ops[n]; }
    }
  }

  lemma PacketInitsLegal(event: nat, r: nat, socket: nat, n: nat)
    requires event in EventTables() && r < n && socket < U32
    ensures Legal(Packet(event, Some(r), socket), n) && Room(Packet(event, Some(r), socket)) == PACKET_ROOM
  {
    hide EventTables;
    Widths();
    EventTablesExist(event);
    var inits := Packet(event, Some(r), socket).inits;
    assert inits[..2] == [SetScalar(8, socket, 0, 4), SetRef(6, Some(r))];
    assert inits[..2][..1] == [SetScalar(8, socket, 0, 4)];
    assert inits[..2][..1][..0] == [];
    assert InitsRoom([]) == 0 && MaxId([]) == 0;
    assert InitsRoom(inits[..2][..1]) == 10;
    assert MaxId(inits[..2][..1]) == 8;
    assert InitsRoom(inits[..2]) == 22;
    assert MaxId(inits[..2]) == 8;
  }

  /** What the client sends arrives: a packet built around any event reads as its type, the event it was
      built from and the socket, and if it fits the server's size limit, the server's verifier accepts it
      with no further condition. */
  method SerializePacket(cfg: Config, ops: seq<Op>, event: nat, r: nat, socket: nat) returns (bytes: seq<Byte>)
    requires WellTyped(Events(), ops) && AllLegal(ops) && IsEvent(ops, event, r) && socket < U32
    requires RoomOf(ops) + PACKET_ROOM + HEADER_ROOM <= MAX_BUFFER_SIZE
    ensures |bytes| <= RoomOf(ops) + PACKET_ROOM + HEADER_ROOM
    ensures DecodeRoot(bytes, Events(), DATABASE_PACKET, 0) == Some(VTable([VScalar(event), Denote(Events(), ops, r), VScalar(socket)]))
    ensures |bytes| <= MAX_PACKET ==> VerifyBuffer(bytes, Events(), SERVER_OPTIONS, DATABASE_PACKET, None)
  {
    hide EventTables, WellTyped, OpType, AllLegal, RoomOf, Denote, DecodeRoot, VerifyBuffer, Depth, Tables;
    var more := ops + [Packet(event, Some(r), socket)];
    PacketMeans(ops, event, r, socket);
    PacketLegal(ops, event, r, socket);
    bytes := SerializeSized(Events(), cfg, more, |ops|, None, false);
    PacketBounds(bytes, event, Denote(Events(), ops, r), socket);
  }

  /** Whatever bytes arrive, if the server's verifier accepts them, reading the packet and everything
      in its event stays inside. */
  lemma AcceptedPacketIsSafe(bytes: seq<Byte>)
    requires |bytes| < MAX_BUFFER_SIZE
    requires VerifyBuffer(bytes, Events(), SERVER_OPTIONS, DATABASE_PACKET, None)
    ensures DecodeRoot(bytes, Events(), DATABASE_PACKET, 0).Some?
  {
    hide Events, VerifyTable, DecodeTable;
    VerifiedIsReadable(bytes, Events(), SERVER_OPTIONS, DATABASE_PACKET, None, 0);
  }
}
