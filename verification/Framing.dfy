/** Length-prefixed packets over a byte stream: how the two ends send and receive them, whatever sizes
    the socket calls return, and exactly when they stay in step. */
module Framing {
  import opened Bytes
  import opened WorkerLimits

  /** htonl. */
  function BE32(n: nat): (s: seq<Byte>)
    ensures |s| == 4
  {
    [n / 0x100_0000 % 256, n / 0x1_0000 % 256, n / 0x100 % 256, n % 256]
  }

  function FromBE32(s: seq<Byte>): (n: nat)
    requires |s| == 4
    ensures n < U32
  {
    var a: int, b: int, c: int := s[0], s[1], s[2];
    a * 0x100_0000 + b * 0x1_0000 + c * 0x100 + s[3]
  }

  lemma HeaderRoundTrip(n: nat)
    requires n < U32
    ensures FromBE32(BE32(n)) == n
  {
    var a, b := n / 0x100, n / 0x1_0000;
    assert a == 0x100 * (a / 0x100) + a % 0x100 && a / 0x100 == b;
    assert b / 0x100 == n / 0x100_0000;
  }

  function Frame(packet: seq<Byte>): seq<Byte> {
    BE32(|packet| % U32) + packet
  }

  function Frames(packets: seq<seq<Byte>>): seq<Byte> {
    if packets == [] then [] else Frame(packets[0]) + Frames(packets[1..])
  }

  lemma {:induction false} FramesAppend(packets: seq<seq<Byte>>, p: seq<Byte>)
    ensures Frames(packets + [p]) == Frames(packets) + Frame(p)
  {
    if packets == [] {
      assert [p][1..] == [];
    } else {
      assert (packets + [p])[1..] == packets[1..] + [p];
      FramesAppend(packets[1..], p);
    }
  }

  predicate Sendable(packets: seq<seq<Byte>>) {
    forall k :: 0 <= k < |packets| ==> 1 <= |packets[k]| <= MAX_PACKET
  }

  // ---- the sockets -----------------------------------------------------------------------------

  /** What a recv call meets: some bytes, how many being any number the caller's buffer and the stream
      allow; nothing yet; the end of the connection, with the error code left from an earlier call; an
      error. */
  datatype RecvEvent = Got(n: nat) | WouldBlock | Closed(staleWouldBlock: bool) | Failed

  datatype Received = Data(bytes: seq<Byte>) | Nothing | End(staleWouldBlock: bool) | Broken

  /** One client's connection at the server: the bytes it sends that were not received so far, what the
      next recv calls meet, whether it is in the list of clients, and the packets put on the queue. */
  datatype Conn = Conn(stream: seq<Byte>, script: seq<RecvEvent>, connected: bool, queue: seq<seq<Byte>>)

  /** The number of bytes a call moves: at least one, at most what is wanted and what is there. */
  function Chunk(n: nat, wanted: nat, there: nat): (k: nat)
    requires 0 < wanted && 0 < there
    ensures 1 <= k <= wanted && k <= there
  {
    1 + n % (if wanted < there then wanted else there)
  }

  function Recv(c: Conn, len: nat): (r: (Conn, Received))
    requires 0 < len
    ensures r.1.Data? ==> 1 <= |r.1.bytes| <= len && r.1.bytes + r.0.stream == c.stream
    ensures !r.1.Data? ==> r.0.stream == c.stream
    ensures r.0.queue == c.queue && r.0.connected == c.connected
  {
    if c.script == [] then (c, Nothing)
    else
      var c' := c.(script := c.script[1..]);
      match c.script[0]
      case Got(n) =>
        if c.stream == [] then (c', Nothing)
        else
          var k := Chunk(n, len, |c.stream|);
          (c'.(stream := c.stream[k..]), Data(c.stream[..k]))
      case WouldBlock => (c', Nothing)
      case Closed(stale) => (c', End(stale))
      case Failed => (c', Broken)
  }

  // ---- the server receives ---------------------------------------------------------------------

  datatype Outcome =
    | NoHeader           // nothing was there
    | PartialHeader      // one to three bytes of a header, dropped
    | EmptyPacket
    | Removed            // the connection ended or broke, or the size was out of range
    | Delivered
    | Incomplete         // the retries ran out, the bytes received were dropped

  function Remove(c: Conn): Conn {
    c.(connected := false)
  }

  /** The loop of ProcessClientData: ends because bytes are left to receive or retries are left. */
  function Body(c: Conn, size: nat, got: seq<Byte>, retries: nat): (Conn, Outcome)
    requires |got| <= size && retries <= MAX_RETRY
    decreases size - |got|, MAX_RETRY - retries
  {
    if |got| == size then (c.(queue := c.queue + [got]), Delivered)
    else if retries == MAX_RETRY then (c, Incomplete)
    else
      var (c', r) := Recv(c, size - |got|);
      match r
      case Data(bytes) => Body(c', size, got + bytes, 0)
      case Nothing => Body(c', size, got, retries + 1)
      case End(_) => (Remove(c'), Removed)
      case Broken => (Remove(c'), Removed)
  }

  function Process(c: Conn): (Conn, Outcome) {
    var (c', r) := Recv(c, 4);
    match r
    case Nothing => (c', NoHeader)
    case End(stale) => if stale then (c', NoHeader) else (Remove(c'), Removed)
    case Broken => (Remove(c'), Removed)
    case Data(bytes) =>
      if |bytes| != 4 then (c', PartialHeader)
      else
        var size := FromBE32(bytes);
        if size == 0 then (c', EmptyPacket)
        else if size > MAX_PACKET then (Remove(c'), Removed)
        else Body(c', size, [], 0)
  }

  /** The next recv calls bring `left` bytes, each some of them. */
  predicate Brings(script: seq<RecvEvent>, left: nat)
    decreases left
  {
    left == 0 || (script != [] && script[0].Got? && Brings(script[1..], left - 1 - script[0].n % left))
  }

  /** What the first recv call brings of a header. */
  function HeaderSize(c: Conn): (r: nat)
    ensures r <= 4 && r <= |c.stream|
  {
    if c.script != [] && c.script[0].Got? && c.stream != [] then Chunk(c.script[0].n, 4, |c.stream|) else 0
  }

  /** When the client's ReceivePacket has a packet to return: some of a header comes, the number it makes
      is in range, and the next calls bring that many bytes of the stream. */
  predicate PacketComes(c: Conn) {
    var h := HeaderSize(c);
    && 0 < h
    && var size := FromBE32(c.stream[..h] + Zeros(4 - h));
    && 1 <= size <= MAX_PACKET && size <= |c.stream| - h && Brings(c.script[1..], size)
  }

  /** ProcessClientData as the source has it. */
  class Endpoint {
    var stream: seq<Byte>
    var script: seq<RecvEvent>
    var connected: bool
    var queue: seq<seq<Byte>>

    function St(): Conn
      reads this
    {
      Conn(stream, script, connected, queue)
    }

    constructor (stream: seq<Byte>, script: seq<RecvEvent>)
      ensures St() == Conn(stream, script, true, [])
    {
      this.stream, this.script, connected, queue := stream, script, true, [];
    }

    method DoRecv(len: nat) returns (r: Received)
      requires 0 < len
      modifies this`stream, this`script
      ensures (St(), r) == Recv(old(St()), len)
      ensures r.Data? ==> 1 <= |r.bytes| <= len && old(stream) == r.bytes + stream
      ensures queue == old(queue) && connected == old(connected)
    {
      if script == [] { return Nothing; }
      var event := script[0];
      script := script[1..];
      match event
      case Got(n) =>
        if stream == [] { return Nothing; }
        var k := Chunk(n, len, |stream|);
        r := Data(stream[..k]);
        stream := stream[k..];
      case WouldBlock => r := Nothing;
      case Closed(stale) => r := End(stale);
      case Failed => r := Broken;
    }

    method ProcessClientData() returns (outcome: Outcome)
      modifies this
      ensures (St(), outcome) == Process(old(St()))
    {
      var header := DoRecv(4);
      match header
      case Nothing => return NoHeader;
      case End(stale) =>
        if stale { return NoHeader; }
        connected := false;
        return Removed;
      case Broken =>
        connected := false;
        return Removed;
      case Data(bytes) =>
        if |bytes| != 4 { return PartialHeader; }
        var size := FromBE32(bytes);
        if size == 0 { return EmptyPacket; }
        if size > MAX_PACKET {
          connected := false;
          return Removed;
        }
        outcome := ReceiveBody(size);
    }

    method ReceiveBody(size: nat) returns (outcome: Outcome)
      modifies this
      ensures (St(), outcome) == Body(old(St()), size, [], 0)
    {
      var data: seq<Byte> := [];
      var retries := 0;
      while |data| < size && retries < MAX_RETRY
        invariant |data| <= size && retries <= MAX_RETRY
        invariant Body(St(), size, data, retries) == Body(old(St()), size, [], 0)
        decreases size - |data|, MAX_RETRY - retries
      {
        var r := DoRecv(size - |data|);
        match r
        case Data(bytes) => data, retries := data + bytes, 0;
        case Nothing => retries := retries + 1;
        case End(_) =>
          connected := false;
          return Removed;
        case Broken =>
          connected := false;
          return Removed;
      }
      if |data| < size { return Incomplete; }
      queue := queue + [data];
      outcome := Delivered;
    }

    /** The client's ReceivePacket: anything but bytes ends the connection, and a header of which only a
        part arrived is used with zeros for the rest: what is received then are as many bytes as that
        number says.  If the stream starts with the frame of a packet and the header arrives whole, the
        result is that packet, or the connection is lost. */
    method ReceivePacket(ghost sent: seq<Byte>, ghost rest: seq<Byte>) returns (packet: seq<Byte>, header: nat)
      requires connected
      modifies this
      ensures queue == old(queue) && (packet == [] <==> !connected)
      ensures header == HeaderSize(old(St()))
      ensures connected <==> PacketComes(old(St()))
      ensures connected ==>
                && 1 <= header <= |old(stream)| && 1 <= |packet| <= MAX_PACKET
                && |packet| == FromBE32(old(stream)[..header] + Zeros(4 - header))
                && old(stream) == old(stream)[..header] + (packet + stream)
      ensures old(stream) == BE32(|sent|) + (sent + rest) && 1 <= |sent| <= MAX_PACKET && header == 4 && connected ==>
                packet == sent && stream == rest
    {
      hide BE32, FromBE32, Brings;
      header, packet := 0, [];
      var first := DoRecv(4);
      if !first.Data? {
        connected := false;
        return;
      }
      header := |first.bytes|;
      assert old(stream)[..header] == first.bytes;
      var size := FromBE32(first.bytes + Zeros(4 - |first.bytes|));
      if size == 0 || size > MAX_PACKET {
        connected := false;
        return;
      }
      ghost var s1 := stream;
      Cut(first.bytes, s1, old(stream), []);
      packet := ReceiveExactly(size);
      if connected && header == 4 && old(stream) == BE32(|sent|) + (sent + rest) && |sent| <= MAX_PACKET {
        WholePacket(first.bytes, s1, size, packet, stream, sent, rest);
      }
    }

    method ReceiveExactly(size: nat) returns (data: seq<Byte>)
      requires connected && 0 < size
      modifies this`stream, this`script, this`connected
      ensures connected <==> size <= |old(stream)| && Brings(old(script), size)
      ensures connected ==> |data| == size && old(stream) == data + stream
      ensures !connected ==> data == []
    {
      data := [];
      while |data| < size
        invariant |data| <= size && connected && old(stream) == data + stream
        invariant size <= |old(stream)| ==> Brings(old(script), size) == Brings(script, size - |data|)
        decreases size - |data|
      {
        var r := DoRecv(size - |data|);
        if !r.Data? {
          connected := false;
          return [];
        }
        assert data + (r.bytes + stream) == (data + r.bytes) + stream;
        data := data + r.bytes;
      }
    }
  }

  /** Receiving a body from any stream: what is put on the queue are the next bytes of it. */
  lemma {:induction false} BodyTakes(c: Conn, size: nat, got: seq<Byte>, retries: nat)
    requires |got| <= size && retries <= MAX_RETRY
    ensures var (r, outcome) := Body(c, size, got, retries);
            var left := size - |got|;
            && (outcome.Delivered? || outcome.Removed? || outcome.Incomplete?)
            && (outcome.Delivered? ==> left <= |c.stream| && r.queue == c.queue + [got + c.stream[..left]] && r.stream == c.stream[left..])
            && (!outcome.Delivered? ==> r.queue == c.queue)
            && r.connected == (c.connected && !outcome.Removed?)
    decreases size - |got|, MAX_RETRY - retries
  {
    if |got| < size && retries < MAX_RETRY {
      var (c', r) := Recv(c, size - |got|);
      match r
      case Data(bytes) =>
        BodyTakes(c', size, got + bytes, 0);
        assert c.stream[..|bytes|] == bytes && c.stream[|bytes|..] == c'.stream;
        if Body(c, size, got, retries).1.Delivered? { TakenTogether(c.stream, |bytes|, size - |got|, got); }
      case Nothing => BodyTakes(c', size, got, retries + 1);
      case _ =>
    } else if |got| == size {
      assert c.stream[..0] == [] && got + [] == got;
    }
  }

  lemma TakenTogether(s: seq<Byte>, k: nat, n: nat, got: seq<Byte>)
    requires k <= n <= |s|
    ensures got + s[..k] + s[k..][..n - k] == got + s[..n] && s[k..][n - k..] == s[n..]
  {
    assert s[..k] + s[k..][..n - k] == s[..n];
  }

  lemma BytesAreHeader(s: seq<Byte>)
    requires |s| == 4
    ensures BE32(FromBE32(s)) == s
  {
    var n := FromBE32(s);
    var a: int, b: int, c: int := s[0], s[1], s[2];
    Quotient(n, 0x100_0000, a, b * 0x1_0000 + c * 0x100 + s[3]);
    Quotient(n, 0x1_0000, a * 0x100 + b, c * 0x100 + s[3]);
    Quotient(n, 0x100, a * 0x1_0000 + b * 0x100 + c, s[3]);
    Quotient(a * 0x100 + b, 0x100, a, b);
    Quotient(a * 0x1_0000 + b * 0x100 + c, 0x100, a * 0x100 + b, c);
  }

  lemma Quotient(n: nat, k: nat, q: nat, r: nat)
    requires n == q * k + r && r < k
    ensures n / k == q && n % k == r
  {
    var d := n / k - q;
    assert n % k == r - d * k;
    assert d >= 1 ==> d * k >= k;
    assert d <= -1 ==> d * k <= -1 * k;
  }

  lemma FrameOf(stream: seq<Byte>, header: seq<Byte>, after: seq<Byte>)
    requires |header| == 4 && stream == header + after && FromBE32(header) <= |after|
    ensures var p := after[..FromBE32(header)]; stream == Frame(p) + after[FromBE32(header)..]
  {
    hide FromBE32, BE32;
    BytesAreHeader(header);
    assert after == after[..FromBE32(header)] + after[FromBE32(header)..];
  }

  /** A call on any stream, in step or not: only frames in the range of sizes are delivered, as they are;
      a whole header out of range loses the connection or is passed over; nothing else is queued. */
  lemma ProcessAnyStream(c: Conn)
    requires c.connected
    ensures var (r, outcome) := Process(c);
            && (outcome.Delivered? ==>
                  exists p: seq<Byte> :: 1 <= |p| <= MAX_PACKET && c.stream == Frame(p) + r.stream && r.queue == c.queue + [p])
            && (!outcome.Delivered? ==> r.queue == c.queue)
            && (r.connected <==> !outcome.Removed?)
            && (outcome.PartialHeader? <==> 0 < HeaderSize(c) < 4)
            && (outcome.EmptyPacket? <==> HeaderSize(c) == 4 && FromBE32(c.stream[..4]) == 0)
            && (HeaderSize(c) == 4 && MAX_PACKET < FromBE32(c.stream[..4]) ==> outcome.Removed?)
  {
    hide BE32, FromBE32, Body, Frame;
    var (c', r) := Recv(c, 4);
    if r.Data? && |r.bytes| == 4 {
      assert c.stream[..4] == r.bytes && c.stream[4..] == c'.stream;
      var size := FromBE32(r.bytes);
      if 1 <= size <= MAX_PACKET {
        BodyTakes(c', size, [], 0);
        if Process(c).1.Delivered? {
          FrameOf(c.stream, r.bytes, c'.stream);
          assert [] + c'.stream[..size] == c'.stream[..size];
        }
      }
    }
  }

  /** What was received is the packet the stream started with. */
  lemma WholePacket(header: seq<Byte>, s1: seq<Byte>, size: nat, packet: seq<Byte>, after: seq<Byte>,
                    sent: seq<Byte>, rest: seq<Byte>)
    requires |header| == 4 && s1 == packet + after && |packet| == size == FromBE32(header + Zeros(0))
    requires header + s1 == BE32(|sent|) + (sent + rest) && |sent| <= MAX_PACKET
    ensures packet == sent && after == rest
  {
    hide FromBE32, BE32;
    assert header + Zeros(0) == header;
    Cut(header, s1, BE32(|sent|), sent + rest);
    assert BE32(|sent|)[..4] == BE32(|sent|) && BE32(|sent|)[4..] + (sent + rest) == sent + rest;
    HeaderRoundTrip(|sent|);
    Cut(packet, after, sent, rest);
    assert sent[..|packet|] == sent && sent[|packet|..] + rest == rest;
  }

  // ---- sending ---------------------------------------------------------------------------------

  /** What a send call meets: some bytes taken, a full buffer, an error. */
  datatype SendEvent = Took(n: nat) | SendBlocked | SendFailed

  /** What the next send call takes of `len` bytes. */
  function Accepts(script: seq<SendEvent>, len: nat): (r: nat)
    requires 0 < len
    ensures r <= len
    ensures 0 < r <==> script != [] && script[0].Took?
  {
    if script != [] && script[0].Took? then Chunk(script[0].n, len, len) else 0
  }

  lemma HeaderShort(script: seq<SendEvent>)
    requires 0 < Accepts(script, 4)
    ensures Accepts(script, 4) < 4 <==> script[0].n % 4 != 3
  {
  }

  /** The next send calls take `left` bytes, each some of them. */
  predicate TakesAll(script: seq<SendEvent>, left: nat)
    decreases left
  {
    left == 0 || (0 < Accepts(script, left) && TakesAll(script[1..], left - Accepts(script, left)))
  }

  function AfterTaking(script: seq<SendEvent>, left: nat): seq<SendEvent>
    requires TakesAll(script, left)
    decreases left
  {
    if left == 0 then script else AfterTaking(script[1..], left - Accepts(script, left))
  }

  /** The send calls take the frames of packets of these sizes, each header at once. */
  predicate TakesFrames(script: seq<SendEvent>, sizes: seq<nat>)
    decreases |sizes|
  {
    sizes == [] ||
    (Accepts(script, 4) == 4 && TakesAll(script[1..], sizes[0]) && TakesFrames(AfterTaking(script[1..], sizes[0]), sizes[1..]))
  }

  // What the send events make of the data: position by position.

  /** How many of `len` bytes are left after the first j events. */
  function Left(script: seq<SendEvent>, len: nat, j: nat): (l: nat)
    requires j <= |script|
    ensures l <= len
  {
    if j == 0 then len
    else
      var l := Left(script, len, j - 1);
      if l > 0 && script[j - 1].Took? then l - 1 - script[j - 1].n % l else l
  }

  /** The last `limit` of the first j events found the buffer full. */
  predicate Blocked(script: seq<SendEvent>, limit: nat, j: nat)
    requires j <= |script|
  {
    limit <= j && forall i :: j - limit <= i < j ==> script[i].SendBlocked?
  }

  /** Sending `len` bytes ends before event j: all are taken, or the buffer was full `limit` times in a
      row, or an error is met. */
  predicate Stops(script: seq<SendEvent>, len: nat, limit: nat, j: nat)
    requires j <= |script|
  {
    Left(script, len, j) == 0 || Blocked(script, limit, j) || j == |script| || script[j].SendFailed?
  }

  /** The first such event from event j on. */
  function Stop(script: seq<SendEvent>, len: nat, limit: nat, j: nat): (r: nat)
    requires j <= |script|
    ensures j <= r <= |script| && Stops(script, len, limit, r)
    ensures forall i :: j <= i < r ==> !Stops(script, len, limit, i)
    decreases |script| - j
  {
    if Stops(script, len, limit, j) then j else Stop(script, len, limit, j + 1)
  }

  /** The bytes that are not sent in the end. */
  function Unsent(script: seq<SendEvent>, len: nat, limit: nat): (r: nat)
    ensures r <= len
  {
    Left(script, len, Stop(script, len, limit, 0))
  }

  /** The end is an error, not success and not giving up. */
  predicate SendBreaks(script: seq<SendEvent>, len: nat, limit: nat) {
    var j := Stop(script, len, limit, 0);
    0 < Left(script, len, j) && !Blocked(script, limit, j)
  }

  /** A sending loop under way: `done` bytes are taken, the last `blocks` events found the buffer full. */
  ghost predicate Sending(events: seq<SendEvent>, script: seq<SendEvent>, len: nat, limit: nat, done: nat, blocks: nat) {
    && |script| <= |events|
    && var j := |events| - |script|;
    && script == events[j..] && done + Left(events, len, j) == len
    && blocks <= j && blocks <= limit && (forall i :: j - blocks <= i < j ==> events[i].SendBlocked?)
    && (blocks < j ==> !events[j - blocks - 1].SendBlocked?)
    && forall i :: 0 <= i < j ==> !Stops(events, len, limit, i)
  }

  lemma SendingStep(events: seq<SendEvent>, script: seq<SendEvent>, len: nat, limit: nat, done: nat, blocks: nat)
    requires Sending(events, script, len, limit, done, blocks) && done < len && blocks < limit
    requires script != [] && !script[0].SendFailed?
    ensures if script[0].Took? then Sending(events, script[1..], len, limit, done + Accepts(script, len - done), 0)
            else Sending(events, script[1..], len, limit, done, blocks + 1)
  {
    var j := |events| - |script|;
    assert script[0] == events[j];
    assert !Stops(events, len, limit, j);
    assert Left(events, len, j + 1) == if events[j].Took? then len - done - 1 - events[j].n % (len - done) else len - done;
  }

  lemma SendingEnds(events: seq<SendEvent>, script: seq<SendEvent>, len: nat, limit: nat, done: nat, blocks: nat)
    requires Sending(events, script, len, limit, done, blocks) && 0 < limit
    requires done == len || blocks == limit || script == [] || script[0].SendFailed?
    ensures Unsent(events, len, limit) == len - done
    ensures SendBreaks(events, len, limit) <==> done < len && blocks < limit
  {
    hide Left;
    var j := |events| - |script|;
    assert script != [] ==> script[0] == events[j];
    assert Blocked(events, limit, j) <==> blocks == limit;
    assert Stops(events, len, limit, j);
    assert Stop(events, len, limit, 0) == j;
  }

  lemma SendingStarts(events: seq<SendEvent>, len: nat, limit: nat)
    ensures Sending(events, events, len, limit, 0, 0)
  {
  }

  /** Where one full buffer is enough to end it. */
  lemma RefusedOnce(events: seq<SendEvent>, script: seq<SendEvent>, len: nat, done: nat)
    requires Sending(events, script, len, 1, done, 0) && done < len && (script == [] || !script[0].Took?)
    ensures Unsent(events, len, 1) == len - done
  {
    hide Sending, Unsent, SendBreaks;
    if script != [] && script[0].SendBlocked? {
      SendingStep(events, script, len, 1, done, 0);
      SendingEnds(events, script[1..], len, 1, done, 1);
    } else {
      SendingEnds(events, script, len, 1, done, 0);
    }
  }

  /** Sending a header and `len` bytes of data meets an error. */
  predicate SendFails(script: seq<SendEvent>, len: nat) {
    script == [] || script[0].SendFailed? || (script[0].Took? && SendBreaks(script[1..], len, MAX_SEND_RETRY))
  }

  predicate TakenBy(script: seq<SendEvent>, len: nat, limit: nat, j: nat)
    requires j <= |script|
  {
    Left(script, len, j) == 0 && forall i :: 0 <= i < j ==> !script[i].SendFailed? && !Blocked(script, limit, i)
  }

  /** Everything is sent exactly if some number of events takes it all, with no error among them and never
      `limit` full buffers in a row before the last. */
  lemma SentExactly(script: seq<SendEvent>, len: nat, limit: nat)
    ensures Unsent(script, len, limit) == 0 <==> exists j :: 0 <= j <= |script| && TakenBy(script, len, limit, j)
  {
    hide Blocked;
    var s := Stop(script, len, limit, 0);
    if Unsent(script, len, limit) == 0 {
      forall i | 0 <= i < s ensures !script[i].SendFailed? && !Blocked(script, limit, i) {
        assert !Stops(script, len, limit, i);
      }
      assert TakenBy(script, len, limit, s);
    }
    if j :| 0 <= j <= |script| && TakenBy(script, len, limit, j) {
      if j < s { assert Stops(script, len, limit, j); }
    }
  }

  /** Two full buffers in a row are waited out, and again after bytes were taken; a third one in a row ends
      the sending with nothing said to the client. */
  lemma TwoBlocksNotThree()
    ensures Unsent(Twice(), 2, MAX_SEND_RETRY) == 0
    ensures Unsent(Thrice(), 1, MAX_SEND_RETRY) == 1 && !SendBreaks(Thrice(), 1, MAX_SEND_RETRY)
  {
    hide Left, Blocked, TakenBy;
    TwiceTaken();
    SentExactly(Twice(), 2, MAX_SEND_RETRY);
    ThriceBlocked();
    var s := Stop(Thrice(), 1, MAX_SEND_RETRY, 0);
    assert s <= 3 by { assert Stops(Thrice(), 1, MAX_SEND_RETRY, 3); }
  }

  function Twice(): seq<SendEvent> {
    [SendBlocked, SendBlocked, Took(0), SendBlocked, SendBlocked, Took(0)]
  }

  function Thrice(): seq<SendEvent> {
    [SendBlocked, SendBlocked, SendBlocked, Took(0)]
  }

  lemma LeftAfter(script: seq<SendEvent>, len: nat, j: nat)
    requires j < |script|
    ensures Left(script, len, 0) == len
    ensures script[j].SendBlocked? ==> Left(script, len, j + 1) == Left(script, len, j)
    ensures script[j] == Took(0) && 0 < Left(script, len, j) ==> Left(script, len, j + 1) == Left(script, len, j) - 1
  {
  }

  lemma TwiceTaken()
    ensures TakenBy(Twice(), 2, MAX_SEND_RETRY, 6)
  {
    hide Left;
    var t := Twice();
    LeftAfter(t, 2, 0);
    LeftAfter(t, 2, 1);
    LeftAfter(t, 2, 2);
    LeftAfter(t, 2, 3);
    LeftAfter(t, 2, 4);
    LeftAfter(t, 2, 5);
    assert t[2].Took?;
  }

  lemma ThriceBlocked()
    ensures var t := Thrice();
            && Blocked(t, MAX_SEND_RETRY, 3) && Left(t, 1, 3) == 1
            && forall j :: 0 <= j < 3 ==> Left(t, 1, j) == 1 && !Blocked(t, MAX_SEND_RETRY, j)
  {
    var t := Thrice();
    assert Left(t, 1, 1) == 1 && Left(t, 1, 2) == 1;
  }

  function Sizes(packets: seq<seq<Byte>>): (r: seq<nat>)
    ensures |r| == |packets| && forall k :: 0 <= k < |r| ==> r[k] == |packets[k]|
  {
    seq(|packets|, k requires 0 <= k < |packets| => |packets[k]|)
  }

  lemma SizesFrom(packets: seq<seq<Byte>>, k: nat)
    requires k < |packets|
    ensures Sizes(packets[k..])[0] == |packets[k]| && Sizes(packets[k..])[1..] == Sizes(packets[k + 1..])
  {
  }

  lemma NextBytes(data: seq<Byte>, i: nat, n: nat)
    requires i + n <= |data|
    ensures data[..i] + data[i..][..n] == data[..i + n]
  {
  }

  /** The sending end of a connection. */
  class Sender {
    var wire: seq<Byte>            // what was handed to the socket so far
    var script: seq<SendEvent>
    var connected: bool

    constructor (script: seq<SendEvent>)
      ensures wire == [] && this.script == script && connected
    {
      wire, this.script, connected := [], script, true;
    }

    /** One send call: how many bytes it took (0: none), and whether it was only blocked. */
    method Send(bytes: seq<Byte>) returns (sent: nat, blocked: bool)
      requires bytes != []
      modifies this`wire, this`script
      ensures sent == Accepts(old(script), |bytes|) && wire == old(wire) + bytes[..sent]
      ensures blocked <==> old(script) != [] && old(script)[0].SendBlocked?
      ensures script == if old(script) == [] then [] else old(script)[1..]
    {
      if script == [] { return 0, false; }
      var event := script[0];
      script := script[1..];
      match event
      case Took(n) =>
        sent, blocked := Chunk(n, |bytes|, |bytes|), false;
        wire := wire + bytes[..sent];
      case SendBlocked => return 0, true;
      case SendFailed => return 0, false;
    }

    /** The client's SendPacket.  What is taken of the header is up to the first send event alone, and a
        header of which only a part was taken goes unnoticed. */
    method SendPacket(packet: seq<Byte>) returns (ok: bool, header: nat)
      modifies this
      ensures header == if old(connected) && packet != [] then Accepts(old(script), 4) else 0
      ensures ok <==> 0 < header && TakesAll(old(script)[1..], |packet|)
      ensures ok ==> connected && wire == old(wire) + BE32(|packet| % U32)[..header] + packet
      ensures ok ==> (header < 4 <==> old(script)[0].n % 4 != 3) && script == AfterTaking(old(script)[1..], |packet|)
      ensures header == 0 ==> wire == old(wire)
      ensures 0 < header ==>
                var taken := |packet| - Unsent(old(script)[1..], |packet|, 1);
                wire == old(wire) + BE32(|packet| % U32)[..header] + packet[..taken] && (ok <==> taken == |packet|)
      ensures connected <==> old(connected) && (packet == [] || ok)
    {
      hide BE32, Accepts, Sending, Unsent;
      header := 0;
      if !connected || packet == [] { return false, 0; }
      var sent, blocked := Send(BE32(|packet| % U32));
      if sent == 0 {
        connected := false;
        return false, 0;
      }
      header := sent;
      HeaderShort(old(script));
      ghost var front, events := wire, script;
      var totalSent := 0;
      SendingStarts(events, |packet|, 1);
      while totalSent < |packet|
        invariant 0 <= totalSent <= |packet| && connected
        invariant wire == front + packet[..totalSent]
        invariant Sending(events, script, |packet|, 1, totalSent, 0)
        invariant TakesAll(events, |packet|) == TakesAll(script, |packet| - totalSent)
        invariant TakesAll(events, |packet|) ==> AfterTaking(events, |packet|) == AfterTaking(script, |packet| - totalSent)
      {
        ghost var next := script;
        sent, blocked := Send(packet[totalSent..]);
        if sent == 0 {
          RefusedOnce(events, next, |packet|, totalSent);
          connected := false;
          return false, header;
        }
        SendingStep(events, next, |packet|, 1, totalSent, 0);
        NextBytes(packet, totalSent, sent);
        totalSent := totalSent + sent;
      }
      SendingEnds(events, script, |packet|, 1, totalSent, 0);
      assert packet[..totalSent] == packet;
      ok := true;
    }

    /** The server's SendToClient: a full buffer is retried a few times, and then the client is kept; it is
        removed from the list exactly when a call meets an error. */
    method SendToClient(data: seq<Byte>, hasClient: bool) returns (ok: bool, header: nat)
      modifies this
      ensures header == if hasClient && data != [] then Accepts(old(script), 4) else 0
      ensures header == 0 ==> !ok && wire == old(wire)
      ensures 0 < header ==>
                var taken := |data| - Unsent(old(script)[1..], |data|, MAX_SEND_RETRY);
                wire == old(wire) + BE32(|data| % U32)[..header] + data[..taken] && (ok <==> taken == |data|)
      ensures connected <==> old(connected) && !(hasClient && data != [] && SendFails(old(script), |data|))
    {
      hide BE32, Accepts, Unsent, SendBreaks;
      header := 0;
      if data == [] { return false, 0; }
      if !hasClient { return false, 0; }
      var sent, blocked := Send(BE32(|data| % U32));
      if sent == 0 {
        if !blocked { connected := false; }
        return false, 0;
      }
      header := sent;
      var totalSent := SendData(data);
      if totalSent < |data| { return false, header; }
      ok := true;
    }

    /** Its loop over the data. */
    method SendData(data: seq<Byte>) returns (totalSent: nat)
      modifies this
      ensures totalSent == |data| - Unsent(old(script), |data|, MAX_SEND_RETRY)
      ensures wire == old(wire) + data[..totalSent]
      ensures connected <==> old(connected) && !SendBreaks(old(script), |data|, MAX_SEND_RETRY)
    {
      hide Accepts, Sending, Unsent, SendBreaks, Left, Stops, Stop, Blocked, Chunk;
      ghost var front, events := wire, script;
      totalSent := 0;
      var retryCount := 0;
      SendingStarts(events, |data|, MAX_SEND_RETRY);
      while totalSent < |data| && retryCount < MAX_SEND_RETRY
        invariant 0 <= totalSent <= |data| && 0 <= retryCount <= MAX_SEND_RETRY && connected == old(connected)
        invariant wire == front + data[..totalSent]
        invariant Sending(events, script, |data|, MAX_SEND_RETRY, totalSent, retryCount)
        decreases |data| - totalSent, MAX_SEND_RETRY - retryCount
      {
        ghost var next := script;
        var sent, blocked := Send(data[totalSent..]);
        if sent > 0 {
          SendingStep(events, next, |data|, MAX_SEND_RETRY, totalSent, retryCount);
          NextBytes(data, totalSent, sent);
          assert wire == front + data[..totalSent + sent];
          totalSent, retryCount := totalSent + sent, 0;
        } else if blocked {
          SendingStep(events, next, |data|, MAX_SEND_RETRY, totalSent, retryCount);
          retryCount := retryCount + 1;
        } else {
          SendingEnds(events, next, |data|, MAX_SEND_RETRY, totalSent, retryCount);
          connected := false;
          return;
        }
      }
      SendingEnds(events, script, |data|, MAX_SEND_RETRY, totalSent, retryCount);
    }

    /** Packets sent one after the other; `whole` says that every header was taken whole.  All frames go
        out exactly if the send calls take them. */
    method SendAll(packets: seq<seq<Byte>>) returns (n: nat, whole: bool)
      requires connected && Sendable(packets)
      modifies this
      ensures n <= |packets| && (n < |packets| ==> !connected)
      ensures whole && n == |packets| ==> wire == old(wire) + Frames(packets)
      ensures whole && n == |packets| <==> TakesFrames(old(script), Sizes(packets))
    {
      hide Frames, BE32, Accepts, TakesAll, AfterTaking, Sizes;
      n, whole := 0, true;
      NoFrames(packets);
      assert packets[0..] == packets && packets[|packets|..] == [];
      while n < |packets|
        invariant 0 <= n <= |packets| && connected
        invariant whole ==> wire == old(wire) + Frames(packets[..n])
        invariant whole ==> TakesFrames(script, Sizes(packets[n..])) == TakesFrames(old(script), Sizes(packets))
        invariant !whole ==> !TakesFrames(old(script), Sizes(packets))
      {
        SizesFrom(packets, n);
        var ok, header := SendPacket(packets[n]);
        if !ok { return; }
        whole := whole && header == 4;
        if whole { OneMoreFrame(packets, n, header); }
        n := n + 1;
      }
      assert packets[..n] == packets;
    }
  }

  lemma NoFrames(packets: seq<seq<Byte>>)
    ensures Frames(packets[..0]) == []
  {
  }

  lemma OneMoreFrame(packets: seq<seq<Byte>>, n: nat, header: nat)
    requires Sendable(packets) && n < |packets| && header == 4
    ensures Frames(packets[..n + 1]) == Frames(packets[..n]) + (BE32(|packets[n]| % U32)[..header] + packets[n])
  {
    FramesAppend(packets[..n], packets[n]);
    assert packets[..n + 1] == packets[..n] + [packets[n]];
    assert BE32(|packets[n]| % U32)[..header] == BE32(|packets[n]| % U32);
  }

  // ---- in step ---------------------------------------------------------------------------------

  /** The first k packets are on the queue and exactly the rest is still in the stream. */
  ghost predicate InStep(c: Conn, packets: seq<seq<Byte>>, k: nat) {
    k <= |packets| && c.queue == packets[..k] && c.stream == Frames(packets[k..])
  }

  /** Receiving the body of the packet that the stream starts with. */
  lemma {:induction false} BodyOutcome(c: Conn, size: nat, got: seq<Byte>, retries: nat, rest: seq<Byte>, after: seq<Byte>)
    requires |got| <= size && retries <= MAX_RETRY && c.connected
    requires |got| + |rest| == size && c.stream == rest + after
    ensures var (r, outcome) := Body(c, size, got, retries);
            match outcome
            case Delivered => r.connected && r.queue == c.queue + [got + rest] && r.stream == after
            case Incomplete => r.connected && r.queue == c.queue && |after| < |r.stream| && |r.stream| <= |c.stream|
            case Removed => !r.connected && r.queue == c.queue
            case _ => false
    decreases size - |got|, MAX_RETRY - retries
  {
    if |got| == size {
      assert rest == [] && got + rest == got && rest + after == after;
    } else if retries < MAX_RETRY {
      var (c', r) := Recv(c, size - |got|);
      match r
      case Data(bytes) =>
        Cut(bytes, c'.stream, rest, after);
        BodyOutcome(c', size, got + bytes, 0, rest[|bytes|..], after);
        assert got + bytes + rest[|bytes|..] == got + rest by { assert rest == bytes + rest[|bytes|..]; }
      case Nothing => BodyOutcome(c', size, got, retries + 1, rest, after);
      case End(_) =>
      case Broken =>
    }
  }

  /** Taking bytes off a stream whose front is `rest`. */
  lemma Cut(bytes: seq<Byte>, stream: seq<Byte>, rest: seq<Byte>, after: seq<Byte>)
    requires bytes + stream == rest + after && |bytes| <= |rest|
    ensures rest[..|bytes|] == bytes && stream == rest[|bytes|..] + after
  {
    assert (bytes + stream)[..|bytes|] == bytes;
    assert (rest + after)[..|bytes|] == rest[..|bytes|];
    assert (bytes + stream)[|bytes|..] == stream;
    assert (rest + after)[|bytes|..] == rest[|bytes|..] + after;
  }

  // ---- what the events decide ------------------------------------------------------------------

  /** The events a recv call meets one after the other; when the script is over nothing comes. */
  function EventAt(script: seq<RecvEvent>, i: nat): RecvEvent {
    if i < |script| then script[i] else WouldBlock
  }

  function Later(script: seq<RecvEvent>): seq<RecvEvent> {
    if script == [] then [] else script[1..]
  }

  predicate Ends(e: RecvEvent) { e.Closed? || e.Failed? }

  /** How many of `size` bytes are missing after the first j events. */
  function Missing(script: seq<RecvEvent>, size: nat, j: nat): nat
    decreases j
  {
    if j == 0 || size == 0 then size
    else
      match EventAt(script, 0)
      case Got(n) => Missing(Later(script), size - 1 - n % size, j - 1)
      case _ => Missing(Later(script), size, j - 1)
  }

  /** Nothing comes for n events from event j on. */
  predicate Waits(script: seq<RecvEvent>, j: nat, n: nat) {
    forall i :: j <= i < j + n ==> EventAt(script, i).WouldBlock?
  }

  predicate Steady(script: seq<RecvEvent>, j: nat) {
    forall i :: 0 <= i < j ==> !Ends(EventAt(script, i))
  }

  predicate StallsAt(script: seq<RecvEvent>, size: nat, j: nat) {
    Steady(script, j) && 0 < Missing(script, size, j) && Waits(script, j, MAX_RETRY)
  }

  /** MAX_RETRY events in a row bring nothing while bytes of the packet are missing. */
  predicate Stalls(script: seq<RecvEvent>, size: nat) {
    exists j :: 0 <= j <= |script| && StallsAt(script, size, j)
  }

  predicate BreaksAt(script: seq<RecvEvent>, size: nat, j: nat) {
    Steady(script, j) && 0 < Missing(script, size, j) && Ends(EventAt(script, j))
  }

  /** The connection ends while bytes of the packet are missing. */
  predicate Breaks(script: seq<RecvEvent>, size: nat) {
    exists j :: 0 <= j <= |script| && BreaksAt(script, size, j)
  }

  /** The events left when `size` bytes have come. */
  function Rest(script: seq<RecvEvent>, size: nat): seq<RecvEvent>
    decreases |script|
  {
    if size == 0 || script == [] then script
    else
      match script[0]
      case Got(n) => Rest(script[1..], size - 1 - n % size)
      case _ => Rest(script[1..], size)
  }

  /** One event later. */
  lemma Shift(script: seq<RecvEvent>, size: nat, j: nat)
    requires script != [] && size > 0
    ensures var left := if script[0].Got? then size - 1 - script[0].n % size else size;
            Missing(script, size, j + 1) == Missing(script[1..], left, j)
    ensures Steady(script, j + 1) <==> !Ends(script[0]) && Steady(script[1..], j)
    ensures forall n: nat :: Waits(script, j + 1, n) == Waits(script[1..], j, n)
    ensures EventAt(script, j + 1) == EventAt(script[1..], j)
  {
    assert forall i: nat {:trigger EventAt(script[1..], i)} :: EventAt(script[1..], i) == EventAt(script, i + 1);
    if Steady(script, j + 1) {
      assert !Ends(EventAt(script, 0));
      forall i | 0 <= i < j ensures !Ends(EventAt(script[1..], i)) { assert !Ends(EventAt(script, i + 1)); }
    }
    if !Ends(script[0]) && Steady(script[1..], j) {
      forall i | 0 <= i < j + 1 ensures !Ends(EventAt(script, i)) {
        if i > 0 { assert EventAt(script[1..], i - 1) == EventAt(script, i); }
      }
    }
    forall n: nat ensures Waits(script, j + 1, n) == Waits(script[1..], j, n) { ShiftWaits(script, j, n); }
  }

  lemma ShiftWaits(script: seq<RecvEvent>, j: nat, n: nat)
    requires script != []
    ensures Waits(script, j + 1, n) == Waits(script[1..], j, n)
  {
    if Waits(script, j + 1, n) {
      forall i | j <= i < j + n ensures EventAt(script[1..], i).WouldBlock? { assert EventAt(script, i + 1).WouldBlock?; }
    }
    if Waits(script[1..], j, n) {
      forall i | j + 1 <= i < j + 1 + n ensures EventAt(script, i).WouldBlock? { assert EventAt(script[1..], i - 1).WouldBlock?; }
    }
  }

  /** What the first event makes of stalling and breaking. */
  lemma FirstEvent(script: seq<RecvEvent>, size: nat)
    requires script != [] && size > 0
    ensures match script[0]
            case Got(n) =>
              && Stalls(script, size) == Stalls(script[1..], size - 1 - n % size)
              && Breaks(script, size) == Breaks(script[1..], size - 1 - n % size)
            case WouldBlock =>
              && Stalls(script, size) == (Waits(script, 0, MAX_RETRY) || Stalls(script[1..], size))
              && Breaks(script, size) == Breaks(script[1..], size)
            case _ => !Stalls(script, size) && Breaks(script, size)
  {
    hide Missing, Steady, Waits;
    var left := if script[0].Got? then size - 1 - script[0].n % size else size;
    Start(script, size);
    forall j | 0 <= j <= |script| - 1
      ensures StallsAt(script, size, j + 1) == (!Ends(script[0]) && StallsAt(script[1..], left, j))
      ensures BreaksAt(script, size, j + 1) == (!Ends(script[0]) && BreaksAt(script[1..], left, j))
    {
      Shift(script, size, j);
    }
    if Stalls(script, size) {
      var j :| 0 <= j <= |script| && StallsAt(script, size, j);
      if j > 0 { assert StallsAt(script[1..], left, j - 1); }
    }
    if Breaks(script, size) {
      var j :| 0 <= j <= |script| && BreaksAt(script, size, j);
      if j > 0 { assert BreaksAt(script[1..], left, j - 1); }
    }
    if !Ends(script[0]) && Stalls(script[1..], left) {
      var j :| 0 <= j <= |script[1..]| && StallsAt(script[1..], left, j);
      assert StallsAt(script, size, j + 1);
    }
    if !Ends(script[0]) && Breaks(script[1..], left) {
      var j :| 0 <= j <= |script[1..]| && BreaksAt(script[1..], left, j);
      assert BreaksAt(script, size, j + 1);
    }
  }

  lemma Start(script: seq<RecvEvent>, size: nat)
    requires script != [] && size > 0
    ensures Missing(script, size, 0) == size && Steady(script, 0)
    ensures StallsAt(script, size, 0) == Waits(script, 0, MAX_RETRY)
    ensures BreaksAt(script, size, 0) == Ends(script[0])
    ensures Waits(script, 0, MAX_RETRY) ==> script[0].WouldBlock?
  {
    if Waits(script, 0, MAX_RETRY) { assert EventAt(script, 0).WouldBlock?; }
  }

  lemma NothingMissing(script: seq<RecvEvent>)
    ensures !Stalls(script, 0) && !Breaks(script, 0)
  {
  }

  lemma ScriptOver(size: nat)
    requires size > 0
    ensures Stalls([], size) && !Breaks([], size) && forall n: nat :: Waits([], 0, n)
  {
    assert StallsAt([], size, 0);
  }

  lemma WaitOne(script: seq<RecvEvent>, n: nat)
    requires script != [] && 0 < n
    ensures Waits(script, 0, n) == (script[0].WouldBlock? && Waits(script[1..], 0, n - 1))
  {
    if Waits(script, 0, n) {
      assert EventAt(script, 0).WouldBlock?;
      forall i | 0 <= i < n - 1 ensures EventAt(script[1..], i).WouldBlock? { assert EventAt(script, i + 1).WouldBlock?; }
    }
    if script[0].WouldBlock? && Waits(script[1..], 0, n - 1) {
      forall i | 0 <= i < n ensures EventAt(script, i).WouldBlock? {
        if i > 0 { assert EventAt(script[1..], i - 1).WouldBlock?; }
      }
    }
  }

  /** How the receive loop ends, from the events alone: `retries` calls in a row brought nothing. */
  function BodyEnds(script: seq<RecvEvent>, left: nat, retries: nat): Outcome
    requires retries <= MAX_RETRY
  {
    if 0 < left && (Waits(script, 0, MAX_RETRY - retries) || Stalls(script, left)) then Incomplete
    else if Breaks(script, left) then Removed
    else Delivered
  }

  lemma BodyEndsFirst(script: seq<RecvEvent>, left: nat, retries: nat)
    requires script != [] && left > 0 && retries < MAX_RETRY
    ensures match script[0]
            case Got(n) => BodyEnds(script, left, retries) == BodyEnds(script[1..], left - 1 - n % left, 0)
            case WouldBlock => BodyEnds(script, left, retries) == BodyEnds(script[1..], left, retries + 1)
            case _ => BodyEnds(script, left, retries) == Removed
  {
    hide Stalls, Breaks, Waits;
    FirstEvent(script, left);
    WaitOne(script, MAX_RETRY - retries);
    match script[0]
    case Got(n) =>
      NothingMissing(script[1..]);
      MoreWaits(script[1..], left - 1 - n % left);
    case WouldBlock =>
      WaitOne(script, MAX_RETRY);
      FewerWaits(script[1..], MAX_RETRY - retries - 1, MAX_RETRY - 1);
    case _ =>
  }

  lemma BodyEndsNow(script: seq<RecvEvent>, left: nat, retries: nat)
    requires retries <= MAX_RETRY
    ensures left == 0 ==> BodyEnds(script, left, retries) == Delivered
    ensures 0 < left && (retries == MAX_RETRY || script == []) ==> BodyEnds(script, left, retries) == Incomplete
  {
    hide Stalls, Breaks, Waits;
    NothingMissing(script);
    NoWait(script);
    if 0 < left { ScriptOver(left); }
  }

  lemma {:induction false} BodyByEvents(c: Conn, size: nat, got: seq<Byte>, retries: nat)
    requires |got| <= size <= |got| + |c.stream| && retries <= MAX_RETRY
    ensures var (r, outcome) := Body(c, size, got, retries);
            && outcome == BodyEnds(c.script, size - |got|, retries)
            && (outcome.Delivered? ==> r.script == Rest(c.script, size - |got|))
    decreases size - |got|, MAX_RETRY - retries
  {
    hide BodyEnds;
    var left := size - |got|;
    BodyEndsNow(c.script, left, retries);
    if left > 0 && retries < MAX_RETRY {
      if c.script == [] {
        BodyEndsNow(c.script, left, retries + 1);
        BodyByEvents(c, size, got, retries + 1);
      } else {
        BodyEndsFirst(c.script, left, retries);
        var (c', r) := Recv(c, left);
        if c.script[0].Got? {
          BodyByEvents(c', size, got + r.bytes, 0);
        } else if c.script[0].WouldBlock? {
          BodyByEvents(c', size, got, retries + 1);
        }
      }
    }
  }

  lemma NoWait(script: seq<RecvEvent>)
    ensures Waits(script, 0, 0)
  {
  }

  lemma FewerWaits(script: seq<RecvEvent>, m: nat, n: nat)
    requires m <= n
    ensures Waits(script, 0, n) ==> Waits(script, 0, m)
  {
  }

  lemma MoreWaits(script: seq<RecvEvent>, size: nat)
    ensures 0 < size && Waits(script, 0, MAX_RETRY) ==> Stalls(script, size)
  {
    if 0 < size && Waits(script, 0, MAX_RETRY) { assert StallsAt(script, size, 0); }
  }

  /** How a call ends when packets of these sizes are to come: a function of the events alone. */
  function Expected(script: seq<RecvEvent>, sizes: seq<nat>): Outcome {
    match EventAt(script, 0)
    case WouldBlock => NoHeader
    case Closed(stale) => if stale then NoHeader else Removed
    case Failed => Removed
    case Got(n) =>
      if sizes == [] then NoHeader
      else if n % 4 != 3 then PartialHeader
      else if Stalls(Later(script), sizes[0]) then Incomplete
      else if Breaks(Later(script), sizes[0]) then Removed
      else Delivered
  }

  /** The events after that call. */
  function After(script: seq<RecvEvent>, sizes: seq<nat>): seq<RecvEvent> {
    if Expected(script, sizes).Delivered? && sizes != [] then Rest(Later(script), sizes[0]) else Later(script)
  }

  /** One call in step: it delivers the next packet, finds nothing, or loses the connection, all in
      order; or it drops bytes it received and is out of step.  Which of these is decided by the events:
      it gets part of a header exactly if the first one brings fewer than four bytes, and gives up inside
      the packet exactly if MAX_RETRY events in a row bring nothing before its last byte. */
  lemma CallOutcome(c: Conn, packets: seq<seq<Byte>>, k: nat)
    requires Sendable(packets) && InStep(c, packets, k) && c.connected
    ensures var (r, outcome) := Process(c);
            match outcome
            case Delivered => k < |packets| && InStep(r, packets, k + 1) && r.connected
            case NoHeader => InStep(r, packets, k) && r.connected
            case Removed => r.queue == packets[..k] && !r.connected
            case PartialHeader => OutOfStep(r, packets) && r.connected
            case Incomplete => OutOfStep(r, packets) && r.connected
            case EmptyPacket => false
    ensures var (r, outcome) := Process(c);
            && outcome == Expected(c.script, Sizes(packets[k..]))
            && (outcome.Delivered? || outcome.NoHeader? ==> r.script == After(c.script, Sizes(packets[k..])))
  {
    hide BE32, FromBE32, Frames, Body, Stalls, Breaks, Waits, Rest, Sizes;
    var (c', r) := Recv(c, 4);
    if k < |packets| { FrameStarts(packets, k); } else { NoFramesLeft(packets); }
    if r.Data? {
      NextFrame(packets, k);
      Shorter(packets, k);
      SizesFrom(packets, k);
      MoreWaits(Later(c.script), |packets[k]|);
      if |r.bytes| == 4 { HeaderRead(c, packets, k); }
    }
  }

  lemma FrameStarts(packets: seq<seq<Byte>>, k: nat)
    requires k < |packets|
    ensures |Frames(packets[k..])| >= 4
  {
  }

  lemma NoFramesLeft(packets: seq<seq<Byte>>)
    ensures Frames(packets[|packets|..]) == []
  {
  }

  /** A stream in step that is not empty starts with the frame of the next packet. */
  lemma NextFrame(packets: seq<seq<Byte>>, k: nat)
    requires Sendable(packets) && k <= |packets| && Frames(packets[k..]) != []
    ensures k < |packets| && Frames(packets[k..]) == BE32(|packets[k]|) + (packets[k] + Frames(packets[k + 1..]))
  {
    hide BE32;
    var rest := packets[k..];
    assert rest[0] == packets[k] && rest[1..] == packets[k + 1..];
  }

  /** A whole header is the length of the next packet, and its body follows. */
  lemma HeaderRead(c: Conn, packets: seq<seq<Byte>>, k: nat)
    requires Sendable(packets) && InStep(c, packets, k) && c.connected && k < |packets|
    requires Frames(packets[k..]) == BE32(|packets[k]|) + (packets[k] + Frames(packets[k + 1..]))
    requires Recv(c, 4).1.Data? && |Recv(c, 4).1.bytes| == 4
    ensures var (r, outcome) := Process(c);
            match outcome
            case Delivered => InStep(r, packets, k + 1) && r.connected
            case Removed => r.queue == packets[..k] && !r.connected
            case Incomplete => r.queue == packets[..k] && |r.stream| < |Frames(packets[k..])| && r.connected
            case _ => false
    ensures var (r, outcome) := Process(c);
            && outcome == BodyEnds(Later(c.script), |packets[k]|, 0)
            && (outcome.Delivered? ==> r.script == Rest(Later(c.script), |packets[k]|))
  {
    hide BE32, FromBE32, Frames, Body, BodyEnds, Rest;
    assert Recv(c, 4).0.script == Later(c.script);
    hide Recv;
    var (c', r) := Recv(c, 4);
    var p, after := packets[k], Frames(packets[k + 1..]);
    Cut(r.bytes, c'.stream, BE32(|p|), p + after);
    assert BE32(|p|)[..4] == BE32(|p|) && BE32(|p|)[4..] + (p + after) == p + after;
    HeaderRoundTrip(|p|);
    BodyOutcome(c', |p|, [], 0, p, after);
    BodyByEvents(c', |p|, [], 0);
    assert [] + p == p;
    assert packets[..k] + [p] == packets[..k + 1];
  }

  ghost predicate OutOfStep(c: Conn, packets: seq<seq<Byte>>) {
    forall k :: 0 <= k <= |packets| ==> !InStep(c, packets, k)
  }

  /** With the first k packets on the queue, a stream shorter than the rest is out of step. */
  lemma Shorter(packets: seq<seq<Byte>>, k: nat)
    requires k < |packets|
    ensures forall c: Conn :: c.queue == packets[..k] && |c.stream| < |Frames(packets[k..])| ==> OutOfStep(c, packets)
  {
    forall c: Conn, j: nat | c.queue == packets[..k] && |c.stream| < |Frames(packets[k..])| && j <= |packets|
      ensures !InStep(c, packets, j)
    {
      assert |packets[..j]| == j && |packets[..k]| == k;
    }
  }

  // ---- whole runs ------------------------------------------------------------------------------

  /** The select loop: one call after another while the client is in the list. */
  function Serve(c: Conn, calls: nat): Conn
    decreases calls
  {
    if calls == 0 || !c.connected then c else Serve(Process(c).0, calls - 1)
  }

  /** Some call drops bytes: part of a header, or a packet for which the retries ran out. */
  predicate DropsBytes(c: Conn, calls: nat)
    decreases calls
  {
    calls > 0 && c.connected
    && (Process(c).1.PartialHeader? || Process(c).1.Incomplete? || DropsBytes(Process(c).0, calls - 1))
  }

  function Deliveries(c: Conn, calls: nat): nat
    decreases calls
  {
    if calls == 0 || !c.connected then 0
    else Deliveries(Process(c).0, calls - 1) + (if Process(c).1.Delivered? then 1 else 0)
  }

  /** Round trip: whatever sizes the calls return and however they are interrupted, if no call drops
      bytes, the queue is at every time the packets sent so far received, in order, each once; as long as
      the client is connected the rest of them is still to come, and once its stream is empty they are
      all there. */
  lemma {:induction false} ServedInStep(c: Conn, packets: seq<seq<Byte>>, k: nat, calls: nat)
    requires Sendable(packets) && InStep(c, packets, k) && !DropsBytes(c, calls)
    ensures var r := Serve(c, calls);
            var n := k + Deliveries(c, calls);
            && n <= |packets| && r.queue == packets[..n] && (r.connected ==> InStep(r, packets, n))
            && (r.connected && r.stream == [] ==> r.queue == packets)
    decreases calls
  {
    hide Process, Expected, After, Frames;
    Drained(packets);
    if calls > 0 && c.connected {
      CallOutcome(c, packets, k);
      var (r, outcome) := Process(c);
      if outcome.Delivered? {
        ServedInStep(r, packets, k + 1, calls - 1);
      } else if outcome.NoHeader? {
        ServedInStep(r, packets, k, calls - 1);
      } else {
        assert outcome.Removed?;
        assert Serve(r, calls - 1) == r;
        assert Deliveries(r, calls - 1) == 0;
      }
    }
  }

  lemma Drained(packets: seq<seq<Byte>>)
    ensures forall c: Conn, k: nat :: InStep(c, packets, k) && c.stream == [] ==> c.queue == packets
  {
    hide Frames;
    forall c: Conn, k: nat | InStep(c, packets, k) && c.stream == [] ensures c.queue == packets {
      if k < |packets| { FrameStarts(packets, k); }
      assert packets[..|packets|] == packets;
    }
  }

  // ---- when bytes are dropped ------------------------------------------------------------------

  /** Said of the events that `calls` calls meet while packets of these sizes are to come: every header
      read brings four bytes, and inside no packet do MAX_RETRY events in a row bring nothing. */
  predicate InTime(script: seq<RecvEvent>, sizes: seq<nat>, calls: nat)
    decreases calls
  {
    calls == 0 ||
    match EventAt(script, 0)
    case WouldBlock => InTime(Later(script), sizes, calls - 1)
    case Closed(stale) => stale ==> InTime(Later(script), sizes, calls - 1)
    case Failed => true
    case Got(n) =>
      if sizes == [] then InTime(Later(script), sizes, calls - 1)
      else
        && n % 4 == 3 && !Stalls(Later(script), sizes[0])
        && (Breaks(Later(script), sizes[0]) || InTime(Rest(Later(script), sizes[0]), sizes[1..], calls - 1))
  }

  /** Bytes are dropped, and the stream is out of step, exactly if the events are not in time. */
  lemma {:induction false} DropsExactly(c: Conn, packets: seq<seq<Byte>>, k: nat, calls: nat)
    requires Sendable(packets) && InStep(c, packets, k) && c.connected
    ensures DropsBytes(c, calls) <==> !InTime(c.script, Sizes(packets[k..]), calls)
    decreases calls
  {
    hide Process, Stalls, Breaks, Rest, Sizes, OutOfStep, InStep;
    if calls > 0 {
      CallOutcome(c, packets, k);
      var (r, outcome) := Process(c);
      if k < |packets| { SizesFrom(packets, k); } else { NoSizes(packets, k); }
      if outcome.Delivered? {
        DropsExactly(r, packets, k + 1, calls - 1);
      } else if outcome.NoHeader? {
        DropsExactly(r, packets, k, calls - 1);
      } else if outcome.Removed? {
        assert !DropsBytes(r, calls - 1);
      }
    }
  }

  lemma NoSizes(packets: seq<seq<Byte>>, k: nat)
    requires k >= |packets|
    ensures k == |packets| ==> Sizes(packets[k..]) == []
  {
  }

  // ---- everything arrives ----------------------------------------------------------------------

  function Gots(script: seq<RecvEvent>): nat {
    if script == [] then 0 else (if script[0].Got? then 1 else 0) + Gots(script[1..])
  }

  function Blocks(script: seq<RecvEvent>): nat {
    if script == [] then 0 else (if script[0].WouldBlock? then 1 else 0) + Blocks(script[1..])
  }

  /** No event ends the connection. */
  predicate Open(script: seq<RecvEvent>) {
    forall i :: 0 <= i < |script| ==> !Ends(script[i])
  }

  lemma {:induction false} RestCounts(script: seq<RecvEvent>, size: nat)
    requires Open(script)
    ensures var rest := Rest(script, size); Open(rest) && Gots(script) <= Gots(rest) + size && Blocks(rest) <= Blocks(script)
    decreases |script|
  {
    if size > 0 && script != [] {
      RestCounts(script[1..], if script[0].Got? then size - 1 - script[0].n % size else size);
    }
  }

  lemma OpenNeverBreaks(script: seq<RecvEvent>, size: nat)
    requires Open(script)
    ensures !Breaks(script, size) && Open(Later(script))
  {
    hide Missing;
  }

  /** An open call in step and in time delivers the next packet, or waits for one event. */
  lemma CallArrives(c: Conn, packets: seq<seq<Byte>>, k: nat, calls: nat)
    requires Sendable(packets) && InStep(c, packets, k) && c.connected && k < |packets| && 0 < calls
    requires Open(c.script) && |c.stream| <= Gots(c.script) && InTime(c.script, Sizes(packets[k..]), calls)
    ensures var (r, outcome) := Process(c);
            && Open(r.script) && |r.stream| <= Gots(r.script) && r.connected
            && if outcome.Delivered? then
                 && InStep(r, packets, k + 1) && Blocks(r.script) <= Blocks(c.script)
                 && InTime(r.script, Sizes(packets[k + 1..]), calls - 1)
               else
                 && InStep(r, packets, k) && Blocks(r.script) < Blocks(c.script)
                 && InTime(r.script, Sizes(packets[k..]), calls - 1)
  {
    hide Process, Stalls, Breaks, Rest, Sizes, OutOfStep, Frames;
    CallOutcome(c, packets, k);
    SizesFrom(packets, k);
    FrameStarts(packets, k);
    OpenNeverBreaks(c.script, 0);
    OpenNeverBreaks(Later(c.script), |packets[k]|);
    RestCounts(Later(c.script), |packets[k]|);
    NextFrame(packets, k);
    assert c.script != [] && !Ends(c.script[0]);
  }

  /** If no event ends the connection, enough of them bring bytes and all are in time, then whatever
      pieces the bytes come in and however often a call has to wait, one call for each packet and each
      wait puts all packets on the queue, in order. */
  lemma {:induction false} AllArrive(c: Conn, packets: seq<seq<Byte>>, k: nat, calls: nat)
    requires Sendable(packets) && InStep(c, packets, k) && c.connected
    requires Open(c.script) && |c.stream| <= Gots(c.script) && InTime(c.script, Sizes(packets[k..]), calls)
    requires |packets| - k + Blocks(c.script) <= calls
    ensures Serve(c, calls).queue == packets && Deliveries(c, calls) == |packets| - k
    decreases calls
  {
    hide Process, InTime, Gots, Blocks, Open, Frames, Sizes, Expected, After;
    if k == |packets| {
      DropsExactly(c, packets, k, calls);
      NothingMore(c, packets, calls);
    } else {
      CallArrives(c, packets, k, calls);
      AllArrive(Process(c).0, packets, if Process(c).1.Delivered? then k + 1 else k, calls - 1);
    }
  }

  lemma {:induction false} NothingMore(c: Conn, packets: seq<seq<Byte>>, calls: nat)
    requires Sendable(packets) && InStep(c, packets, |packets|) && c.connected
    ensures Serve(c, calls).queue == packets && Deliveries(c, calls) == 0
    decreases calls
  {
    hide Process, Expected, After, Frames;
    assert packets[..|packets|] == packets;
    if calls > 0 {
      CallOutcome(c, packets, |packets|);
      var (r, outcome) := Process(c);
      NoneToCome(c, packets);
      if outcome.NoHeader? { NothingMore(r, packets, calls - 1); }
      else { assert Serve(r, calls - 1) == r && Deliveries(r, calls - 1) == 0; }
    }
  }

  lemma NoneToCome(c: Conn, packets: seq<seq<Byte>>)
    ensures var o := Expected(c.script, Sizes(packets[|packets|..])); o.NoHeader? || o.Removed?
  {
    NoSizes(packets, |packets|);
  }

  /** Both ends: the client sends packets, the server receives them.  If the send calls take the frames
      and the receive calls are in time, the queue holds the first packets, in order; and all of them
      if the connection is not ended, enough events bring bytes, and there is a call for each packet and
      each wait. */
  method Exchange(packets: seq<seq<Byte>>, sends: seq<SendEvent>, recvs: seq<RecvEvent>, calls: nat)
    returns (queue: seq<seq<Byte>>, sent: nat, whole: bool)
    requires Sendable(packets)
    ensures whole && sent == |packets| <==> TakesFrames(sends, Sizes(packets))
    ensures TakesFrames(sends, Sizes(packets)) && InTime(recvs, Sizes(packets), calls) ==>
              var n := Deliveries(Conn(Frames(packets), recvs, true, []), calls);
              && n <= |packets| && queue == packets[..n]
              && (Open(recvs) && |Frames(packets)| <= Gots(recvs) && |packets| + Blocks(recvs) <= calls ==> queue == packets)
  {
    hide Process, Frames, DropsBytes, InTime, Open, Gots, Blocks, TakesFrames, Sizes;
    var client := new Sender(sends);
    sent, whole := client.SendAll(packets);
    var wire := client.wire;
    assert [] + Frames(packets) == Frames(packets);
    var server := new Endpoint(wire, recvs);
    ghost var c := Conn(Frames(packets), recvs, true, []);
    var i := 0;
    while i < calls && server.connected
      invariant 0 <= i <= calls
      invariant Serve(server.St(), calls - i) == Serve(Conn(wire, recvs, true, []), calls)
    {
      var _ := server.ProcessClientData();
      i := i + 1;
    }
    queue := server.queue;
    if TakesFrames(sends, Sizes(packets)) && InTime(recvs, Sizes(packets), calls) {
      assert packets[0..] == packets;
      DropsExactly(c, packets, 0, calls);
      ServedInStep(c, packets, 0, calls);
      if Open(recvs) && |Frames(packets)| <= Gots(recvs) && |packets| + Blocks(recvs) <= calls {
        AllArrive(c, packets, 0, calls);
      }
    }
  }

  // ---- what failing leads to -------------------------------------------------------------------

  /** One byte of a header arrives and is dropped: the next header read gives a size of 263, of which
      nothing is there, and the packet is lost while the connection is kept. */
  lemma PartialHeaderMisleads()
    ensures var c := Conn(Frames([[7]]), [Got(0), Got(3)], true, []);
            && Process(c) == (Conn([0, 0, 1, 7], [Got(3)], true, []), PartialHeader)
            && !InTime(c.script, [1], 1)
            && Serve(c, 2) == Conn([], [], true, [])
  {
    hide Body;
    var c := Conn(Frames([[7]]), [Got(0), Got(3)], true, []);
    var c1 := Conn([0, 0, 1, 7], [Got(3)], true, []);
    var c2 := Conn([], [], true, []);
    assert Frames([[7]]) == [0, 0, 0, 1, 7] by { assert [[7]][1..] == []; }
    assert c.stream[..1] == [0] && c.stream[1..] == c1.stream && c.script[1..] == [Got(3)];
    assert Process(c) == (c1, PartialHeader);
    assert c1.stream[..4] == c1.stream && c1.stream[4..] == [] && c1.script[1..] == [];
    assert Recv(c1, 4) == (c2, Data([0, 0, 1, 7]));
    assert FromBE32([0, 0, 1, 7]) == 263;
    NothingComes(c2, 263, 0);
    assert Process(c1) == (c2, Incomplete);
  }

  lemma {:induction false} NothingComes(c: Conn, size: nat, retries: nat)
    requires c.script == [] && 0 < size && retries <= MAX_RETRY
    ensures Body(c, size, [], retries) == (c, Incomplete)
    decreases MAX_RETRY - retries
  {
    if retries < MAX_RETRY { NothingComes(c, size, retries + 1); }
  }

  /** One byte of a header is taken and the packet after it: the client is told that it was sent. */
  method ShortHeaderSent() returns (ok: bool, wire: seq<Byte>)
    ensures ok && wire == [0, 7]
  {
    var client := new Sender([Took(0), Took(0)]);
    var header: nat;
    ok, header := client.SendPacket([7]);
    wire := client.wire;
    assert BE32(1)[..1] == [0];
  }

  /** Out of step: a five-byte packet is sent; its header arrives, then nothing for five calls; the
      remaining bytes are taken for a header and a packet that was never sent. */
  lemma DroppedBytesMislead()
    ensures var sent := [[0, 0, 0, 1, 7]];
            var c := Conn(Frames(sent), Late() + [Got(3), Got(0)], true, []);
            InStep(c, sent, 0) && DropsBytes(c, 2) && !InTime(c.script, Sizes(sent), 2) && Serve(c, 2).queue == [[7]]
  {
    hide Body, Recv, Process;
    var sent: seq<seq<Byte>> := [[0, 0, 0, 1, 7]];
    var c := Conn(Frames(sent), Late() + [Got(3), Got(0)], true, []);
    assert sent[0..] == sent;
    assert Frames(sent) == [0, 0, 0, 5] + [0, 0, 0, 1, 7] by { assert sent[1..] == []; }
    var c1 := Conn([0, 0, 0, 1, 7], [Got(3), Got(0)], true, []);
    LateCall(c, c1);
    ShortCall(c1);
    assert Serve(c, 2) == Serve(c1, 1) == Process(c1).0;
    DropsExactly(c, sent, 0, 2);
  }

  /** A header, then nothing until the retries are used up. */
  function Late(): seq<RecvEvent> {
    [Got(3), WouldBlock, WouldBlock, WouldBlock, WouldBlock, WouldBlock]
  }

  lemma LateCall(c: Conn, c1: Conn)
    requires c == Conn([0, 0, 0, 5] + c1.stream, Late() + c1.script, true, c1.queue) && c1.connected
    ensures Process(c) == (c1, Incomplete)
  {
    hide Body;
    var tail := c1.script;
    var c0 := c.(stream := c1.stream, script := Late()[1..] + tail);
    assert c.script[0] == Got(3) && c.script[1..] == c0.script;
    assert c.stream[..4] == [0, 0, 0, 5] && c.stream[4..] == c1.stream;
    assert Recv(c, 4) == (c0, Data([0, 0, 0, 5]));
    assert FromBE32([0, 0, 0, 5]) == 5;
    BlocksOut(c0, c1, 5, 0);
  }

  lemma {:induction false} BlocksOut(c: Conn, c1: Conn, size: nat, retries: nat)
    requires size > 0 && retries <= MAX_RETRY && c == c1.(script := Late()[1 + retries..] + c1.script)
    ensures Body(c, size, [], retries) == (c1, Incomplete)
    decreases MAX_RETRY - retries
  {
    if retries < MAX_RETRY {
      assert c.script[0] == WouldBlock && c.script[1..] == Late()[2 + retries..] + c1.script;
      BlocksOut(c.(script := c.script[1..]), c1, size, retries + 1);
    } else {
      assert Late()[6..] + c1.script == c1.script;
    }
  }

  lemma ShortCall(c1: Conn)
    requires c1 == Conn([0, 0, 0, 1, 7], [Got(3), Got(0)], true, [])
    ensures Process(c1).0.queue == [[7]]
  {
    var c2 := Conn([7], [Got(0)], true, []);
    assert c1.stream[..4] == [0, 0, 0, 1] && c1.stream[4..] == [7] && c1.script[1..] == [Got(0)];
    assert Recv(c1, 4) == (c2, Data([0, 0, 0, 1]));
    assert FromBE32([0, 0, 0, 1]) == 1;
    assert Body(c2, 1, [], 0).0.queue == [[7]] by {
      assert [7][..1] == [7] && [] + [7] == [7];
      assert Recv(c2, 1).1 == Data([7]);
    }
  }
}
