/** From the client's builder to the server's reader: packets built around events, sent over a
    connection and taken off the queue are accepted by the server and read as the events sent. */
module Delivery {
  import opened Bytes
  import opened Wrappers
  import opened BuilderSpec
  import opened Schema
  import opened Building
  import opened FinishedBuffers
  import opened VerifierSpec
  import opened BuildSizes
  import opened UserEvents
  import opened Packets
  import opened WorkerLimits
  import opened Framing

  /** A packet to send: how its event is built, which operation makes it, and its fields. */
  datatype Order = Order(ops: seq<Op>, event: nat, r: nat, socket: nat)

  /** The client can build the packet, within what the server reads. */
  ghost predicate Placed(o: Order) {
    && WellTyped(Events(), o.ops) && AllLegal(o.ops) && IsEvent(o.ops, o.event, o.r) && o.socket < U32
    && RoomOf(o.ops) + PACKET_ROOM + HEADER_ROOM <= MAX_PACKET
  }

  /** What the order means. */
  ghost function Meant(o: Order): Value
    requires Placed(o)
  {
    VTable([VScalar(o.event), Denote(Events(), o.ops, o.r), VScalar(o.socket)])
  }

  /** The server accepts the bytes and reads what was meant. */
  ghost predicate Understood(bytes: seq<Byte>, o: Order)
    requires Placed(o)
  {
    && 1 <= |bytes| <= MAX_PACKET
    && VerifyBuffer(bytes, Events(), SERVER_OPTIONS, DATABASE_PACKET, None)
    && DecodeRoot(bytes, Events(), DATABASE_PACKET, 0) == Some(Meant(o))
  }

  method BuildOne(cfg: Config, o: Order) returns (bytes: seq<Byte>)
    requires Placed(o)
    ensures Understood(bytes, o)
  {
    hide WellTyped, AllLegal, IsEvent, RoomOf, VerifyBuffer, DecodeRoot, Denote;
    bytes := SerializePacket(cfg, o.ops, o.event, o.r, o.socket);
    NotEmpty(bytes);
  }

  lemma NotEmpty(bytes: seq<Byte>)
    requires DecodeRoot(bytes, Events(), DATABASE_PACKET, 0).Some?
    ensures bytes != []
  {
    hide DecodeTable, Events;
  }

  method BuildAll(cfg: Config, orders: seq<Order>) returns (packets: seq<seq<Byte>>)
    requires forall k :: 0 <= k < |orders| ==> Placed(orders[k])
    ensures |packets| == |orders| && forall k :: 0 <= k < |orders| ==> Understood(packets[k], orders[k])
  {
    hide Placed, Understood;
    packets := [];
    while |packets| < |orders|
      invariant |packets| <= |orders|
      invariant forall k :: 0 <= k < |packets| ==> Understood(packets[k], orders[k])
    {
      var bytes := BuildOne(cfg, orders[|packets|]);
      packets := packets + [bytes];
    }
  }

  lemma AllSendable(packets: seq<seq<Byte>>, orders: seq<Order>)
    requires forall k :: 0 <= k < |orders| ==> Placed(orders[k])
    requires |packets| == |orders| && forall k :: 0 <= k < |orders| ==> Understood(packets[k], orders[k])
    ensures Sendable(packets)
  {
    hide Placed, VerifyBuffer, DecodeRoot;
  }

  /** Events in, events out: if the send calls take the frames and the receive calls are in time, what is
      on the queue are packets for the first orders, in order, each accepted and read as it was meant; and
      for all orders if the connection stays, enough events bring bytes, and there is a call for each
      packet and each wait. */
  method Deliver(cfg: Config, orders: seq<Order>, sends: seq<SendEvent>, recvs: seq<RecvEvent>, calls: nat)
    returns (packets: seq<seq<Byte>>, queue: seq<seq<Byte>>)
    requires forall k :: 0 <= k < |orders| ==> Placed(orders[k])
    ensures |packets| == |orders|
    ensures TakesFrames(sends, Sizes(packets)) && InTime(recvs, Sizes(packets), calls) ==>
              && |queue| <= |orders|
              && (forall k :: 0 <= k < |queue| ==> Understood(queue[k], orders[k]))
              && (Open(recvs) && |Frames(packets)| <= Gots(recvs) && |packets| + Blocks(recvs) <= calls ==> |queue| == |orders|)
  {
    hide Placed, Understood, TakesFrames, InTime, Sizes, Open, Gots, Blocks, Frames, Sendable, Deliveries;
    packets := BuildAll(cfg, orders);
    AllSendable(packets, orders);
    var sent, whole;
    queue, sent, whole := Exchange(packets, sends, recvs, calls);
  }
}
