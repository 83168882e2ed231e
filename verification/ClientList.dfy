/** The worker's list of clients with insertion and removal, one thread at a time, and what happens over
    any sequence of both. */
module ClientList {
  import opened Wrappers
  import opened WorkerLimits

  /** What the worker does to the outside, in order. */
  datatype Event = DisconnectTask(socket: int) | SocketClosed(socket: int)

  // ---- the list as a value ---------------------------------------------------------------------

  /** The first position of a socket. */
  function Find(list: seq<int>, socket: int): (r: Option<nat>)
    ensures r.Some? ==> r.value < |list| && list[r.value] == socket && socket !in list[..r.value]
    ensures r.None? <==> socket !in list
  {
    if list == [] then None
    else if list[0] == socket then Some(0)
    else
      match Find(list[1..], socket)
      case Some(k) =>
        assert list[..k + 1] == [list[0]] + list[1..][..k];
        Some(k + 1)
      case None => None
  }

  function Remove(list: seq<int>, socket: int): seq<int> {
    match Find(list, socket)
    case Some(k) => list[..k] + list[k + 1..]
    case None => list
  }

  /** Removing a client: its disconnect task goes to the queue before its socket is closed. */
  function Farewell(list: seq<int>, socket: int, hasQueue: bool): seq<Event> {
    if socket !in list then []
    else (if hasQueue then [DisconnectTask(socket)] else []) + [SocketClosed(socket)]
  }

  // ---- the list in the heap --------------------------------------------------------------------

  class SocketNode {
    const socket: int
    var next: SocketNode?

    constructor (socket: int)
      ensures this.socket == socket && next == null
    {
      this.socket := socket;
      next := null;
    }
  }

  /** The node at a position, null before the first and after the last. */
  ghost function At(nodes: seq<SocketNode>, k: int): SocketNode? {
    if 0 <= k < |nodes| then nodes[k] else null
  }

  ghost function SocketsOf(nodes: seq<SocketNode>): (r: seq<int>)
    ensures |r| == |nodes| && forall i :: 0 <= i < |r| ==> r[i] == nodes[i].socket
  {
    seq(|nodes|, i requires 0 <= i < |nodes| => nodes[i].socket)
  }

  class WorkerThread {
    var head: SocketNode?
    var tail: SocketNode?
    var clientCount: int
    const hasQueue: bool
    var events: seq<Event>
    ghost var nodes: seq<SocketNode>

    /** head and tail agree with the nodes, each linked to the next and the last one to null. */
    ghost predicate Linked()
      reads this`head, this`tail, this`nodes, nodes
    {
      && (forall i, j :: 0 <= i < j < |nodes| ==> nodes[i] != nodes[j])
      && head == At(nodes, 0)
      && tail == At(nodes, |nodes| - 1)
      && (forall i :: 0 <= i < |nodes| ==> nodes[i].next == At(nodes, i + 1))
    }

    ghost predicate Valid()
      reads this, nodes
    {
      Linked() && clientCount == |nodes|
    }

    ghost function Sockets(): (r: seq<int>)
      reads this
      ensures |r| == |nodes|
    {
      SocketsOf(nodes)
    }

    constructor (socket: int, hasQueue: bool)
      ensures Valid() && Sockets() == [socket] && events == [] && this.hasQueue == hasQueue
      ensures |nodes| == 1 && fresh(nodes[0])
    {
      var node := new SocketNode(socket);
      head, tail, clientCount, events, nodes := node, node, 1, [], [node];
      this.hasQueue := hasQueue;
    }

    /** AddClient without interference: at the end, or into an emptied list; turned away when full. */
    method AddClient(socket: int)
      requires Valid()
      modifies this, nodes
      ensures Valid() && (nodes == old(nodes) || (nodes != [] && nodes == old(nodes) + [tail] && fresh(tail)))
      ensures Sockets() == if |old(Sockets())| < MAX_CLIENT_COUNT then old(Sockets()) + [socket] else old(Sockets())
      ensures events == if |old(Sockets())| < MAX_CLIENT_COUNT then old(events) else old(events) + [SocketClosed(socket)]
    {
      if clientCount >= MAX_CLIENT_COUNT {
        events := events + [SocketClosed(socket)];
        return;
      }
      hide Linked, SocketsOf;
      var node := new SocketNode(socket);
      assert Linked();
      SocketsWith(nodes, node);
      Append(node);
      if clientCount == 0 { clientCount := 1; } else { clientCount := clientCount + 1; }
    }

    method Append(node: SocketNode)
      requires Linked() && node !in nodes && node.next == null
      modifies this`head, this`tail, this`nodes, nodes
      ensures Linked() && nodes == old(nodes) + [node] && tail == node
    {
      if tail == null {
        head, tail := node, node;
      } else {
        tail.next := node;
        tail := node;
      }
      nodes := nodes + [node];
      forall i | 0 <= i < |nodes| ensures nodes[i].next == At(nodes, i + 1) {
        if i < |nodes| - 2 { assert nodes[i] == old(nodes)[i]; }
      }
    }

    method HasClient(socket: int) returns (r: bool)
      requires Valid()
      ensures r <==> socket in Sockets()
    {
      var current := head;
      ghost var k := 0;
      while current != null
        invariant 0 <= k <= |nodes| && current == At(nodes, k)
        invariant forall i :: 0 <= i < k ==> Sockets()[i] != socket
        decreases |nodes| - k
      {
        assert Sockets()[k] == current.socket;
        if current.socket == socket { return true; }
        current := current.next;
        k := k + 1;
      }
      r := false;
    }

    /** The first node with the socket and the one before it. */
    method FindNode(target: int) returns (prev: SocketNode?, current: SocketNode?, ghost k: nat)
      requires Valid()
      ensures k <= |nodes| && current == At(nodes, k) && prev == At(nodes, k - 1)
      ensures current == null <==> k == |nodes|
      ensures current != null ==> current.socket == target
      ensures forall i :: 0 <= i < k ==> Sockets()[i] != target
    {
      prev, current, k := null, head, 0;
      while current != null && current.socket != target
        invariant 0 <= k <= |nodes| && current == At(nodes, k) && prev == At(nodes, k - 1)
        invariant forall i :: 0 <= i < k ==> Sockets()[i] != target
        decreases |nodes| - k
      {
        prev := current;
        current := current.next;
        k := k + 1;
      }
    }

    /** Unlinks the first node with the socket, tells the database thread, closes the socket. */
    method RemoveSocketFromList(target: int)
      requires Valid()
      modifies this, nodes
      ensures Valid() && (forall n :: n in nodes ==> n in old(nodes))
      ensures Sockets() == Remove(old(Sockets()), target)
      ensures events == old(events) + Farewell(old(Sockets()), target, hasQueue)
    {
      hide Linked, Find, SocketsOf, Remove;
      ghost var was := nodes;
      var prev, current, k := FindNode(target);
      Removal(Sockets(), target, k);
      if current == null { return; }
      SocketsWithout(was, k);
      if prev == null { UnlinkFirst(current); } else { UnlinkAfter(prev, current, k); }
      if hasQueue { events := events + [DisconnectTask(current.socket)]; }
      events := events + [SocketClosed(current.socket)];
      clientCount := clientCount - 1;
    }

    method UnlinkFirst(current: SocketNode)
      requires Linked() && nodes != [] && current == nodes[0]
      modifies this`head, this`tail, this`nodes
      ensures Linked() && nodes == old(nodes)[..0] + old(nodes)[1..]
    {
      Without(nodes, 0);
      var next := current.next;
      head := next;
      if next == null { tail := null; }
      nodes := nodes[..0] + nodes[1..];
    }

    method UnlinkAfter(prev: SocketNode, current: SocketNode, ghost k: nat)
      requires Linked() && 0 < k < |nodes| && current == nodes[k] && prev == nodes[k - 1]
      modifies this`tail, this`nodes, prev
      ensures Linked() && nodes == old(nodes)[..k] + old(nodes)[k + 1..]
    {
      Without(nodes, k);
      ghost var was := nodes;
      var next := current.next;
      prev.next := next;
      if current == tail { tail := prev; }
      nodes := nodes[..k] + nodes[k + 1..];
      hide At;
      AtWithout(was, k);
      assert next == At(was, k + 1);
      forall i | 0 <= i < |nodes| ensures nodes[i].next == At(nodes, i + 1) {
        if i < k - 1 {
          assert nodes[i] == was[i] && was[i] != prev && old(was[i].next) == At(was, i + 1);
        } else if i == k - 1 {
          assert nodes[i] == prev;
        } else {
          assert nodes[i] == was[i + 1] && was[i + 1] != prev && old(was[i + 1].next) == At(was, i + 2);
        }
      }
    }
  }

  lemma Without(nodes: seq<SocketNode>, k: nat)
    requires k < |nodes| && forall i, j :: 0 <= i < j < |nodes| ==> nodes[i] != nodes[j]
    ensures var rest := nodes[..k] + nodes[k + 1..];
            && |rest| == |nodes| - 1
            && (forall i :: 0 <= i < |rest| ==> rest[i] == nodes[if i < k then i else i + 1])
            && (forall i, j :: 0 <= i < j < |rest| ==> rest[i] != rest[j])
  {
  }

  lemma AtWithout(nodes: seq<SocketNode>, k: nat)
    requires k < |nodes|
    ensures forall i {:trigger At(nodes[..k] + nodes[k + 1..], i)} ::
              At(nodes[..k] + nodes[k + 1..], i) == At(nodes, if i < k then i else i + 1)
    ensures At(nodes, k) == nodes[k] && (0 < k ==> At(nodes, k - 1) == nodes[k - 1])
  {
  }

  lemma SocketsWith(nodes: seq<SocketNode>, node: SocketNode)
    ensures SocketsOf(nodes + [node]) == SocketsOf(nodes) + [node.socket]
  {
  }

  lemma SocketsWithout(nodes: seq<SocketNode>, k: nat)
    requires k < |nodes|
    ensures SocketsOf(nodes[..k] + nodes[k + 1..]) == SocketsOf(nodes)[..k] + SocketsOf(nodes)[k + 1..]
    ensures forall n :: n in nodes[..k] + nodes[k + 1..] ==> n in nodes
  {
  }

  /** What removing does, given that the search stopped at position k, or at the end. */
  lemma Removal(list: seq<int>, socket: int, k: nat)
    requires k <= |list| && (k < |list| ==> list[k] == socket) && forall i :: 0 <= i < k ==> list[i] != socket
    ensures socket in list <==> k < |list|
    ensures Remove(list, socket) == if k < |list| then list[..k] + list[k + 1..] else list
  {
    if socket in list {
      var f := Find(list, socket).value;
      assert forall i :: 0 <= i < f ==> list[..f][i] == list[i];
    }
  }

  // ---- sequences of additions and removals -----------------------------------------------------

  datatype Op = Add(socket: int) | Drop(socket: int)

  function Apply(list: seq<int>, op: Op): seq<int> {
    match op
    case Add(s) => if |list| < MAX_CLIENT_COUNT then list + [s] else list
    case Drop(s) => Remove(list, s)
  }

  function Announced(list: seq<int>, op: Op, hasQueue: bool): seq<Event> {
    match op
    case Add(s) => if |list| < MAX_CLIENT_COUNT then [] else [SocketClosed(s)]
    case Drop(s) => Farewell(list, s, hasQueue)
  }

  function RunList(list: seq<int>, ops: seq<Op>): seq<int> {
    if ops == [] then list else Apply(RunList(list, ops[..|ops| - 1]), ops[|ops| - 1])
  }

  function RunEvents(list: seq<int>, ops: seq<Op>, hasQueue: bool): seq<Event> {
    if ops == [] then []
    else RunEvents(list, ops[..|ops| - 1], hasQueue)
         + Announced(RunList(list, ops[..|ops| - 1]), ops[|ops| - 1], hasQueue)
  }

  /** The sockets handed to AddClient. */
  function Arrived(ops: seq<Op>): multiset<int> {
    if ops == [] then multiset{}
    else Arrived(ops[..|ops| - 1]) + (match ops[|ops| - 1] case Add(s) => multiset{s} case Drop(_) => multiset{})
  }

  function Closed(events: seq<Event>): multiset<int> {
    if events == [] then multiset{}
    else Closed(events[..|events| - 1])
         + (match events[|events| - 1] case SocketClosed(s) => multiset{s} case DisconnectTask(_) => multiset{})
  }

  function Told(events: seq<Event>): multiset<int> {
    if events == [] then multiset{}
    else Told(events[..|events| - 1])
         + (match events[|events| - 1] case DisconnectTask(s) => multiset{s} case SocketClosed(_) => multiset{})
  }

  lemma ClosedAppend(a: seq<Event>, e: Event)
    ensures Closed(a + [e]) == Closed(a) + (match e case SocketClosed(s) => multiset{s} case DisconnectTask(_) => multiset{})
    ensures Told(a + [e]) == Told(a) + (match e case DisconnectTask(s) => multiset{s} case SocketClosed(_) => multiset{})
  {
    assert (a + [e])[..|a|] == a;
  }

  lemma RemoveTakesOne(list: seq<int>, socket: int)
    requires socket in list
    ensures multiset(Remove(list, socket)) + multiset{socket} == multiset(list)
  {
    var k := Find(list, socket).value;
    assert list == list[..k] + [socket] + list[k + 1..];
  }

  /** The clients taken from the list. */
  function Dropped(list: seq<int>, ops: seq<Op>): multiset<int> {
    if ops == [] then multiset{}
    else Dropped(list, ops[..|ops| - 1]) + Leaves(RunList(list, ops[..|ops| - 1]), ops[|ops| - 1])
  }

  function Leaves(list: seq<int>, op: Op): multiset<int> {
    match op
    case Add(_) => multiset{}
    case Drop(s) => if s in list then multiset{s} else multiset{}
  }

  /** The clients for whom the list was full. */
  function TurnedAway(list: seq<int>, ops: seq<Op>): multiset<int> {
    if ops == [] then multiset{}
    else TurnedAway(list, ops[..|ops| - 1]) + Refused(RunList(list, ops[..|ops| - 1]), ops[|ops| - 1])
  }

  function Refused(list: seq<int>, op: Op): multiset<int> {
    match op
    case Add(s) => if |list| < MAX_CLIENT_COUNT then multiset{} else multiset{s}
    case Drop(_) => multiset{}
  }

  /** Every disconnect task is followed at once by the closing of its socket. */
  predicate ToldFirst(events: seq<Event>) {
    forall j :: 0 <= j < |events| && events[j].DisconnectTask? ==>
      j + 1 < |events| && events[j + 1] == SocketClosed(events[j].socket)
  }

  /** Conservation: every client that was there or arrived is in the list or has had its socket closed,
      once; closed are the clients dropped and those turned away; and with a queue the database is told
      of exactly the clients dropped, of each once and before its socket is closed. */
  lemma {:induction false} RunConserves(list: seq<int>, ops: seq<Op>, hasQueue: bool)
    requires |list| <= MAX_CLIENT_COUNT
    ensures var events := RunEvents(list, ops, hasQueue);
            && |RunList(list, ops)| <= MAX_CLIENT_COUNT
            && multiset(RunList(list, ops)) + Closed(events) == multiset(list) + Arrived(ops)
            && Closed(events) == Dropped(list, ops) + TurnedAway(list, ops)
            && Told(events) == (if hasQueue then Dropped(list, ops) else multiset{})
            && ToldFirst(events)
  {
    hide Closed, Told, Announced, Apply, Leaves, Refused, ToldFirst;
    if ops != [] {
      var front := ops[..|ops| - 1];
      RunConserves(list, front, hasQueue);
      var l, events, op := RunList(list, front), RunEvents(list, front, hasQueue), ops[|ops| - 1];
      StepConserves(l, op, events, hasQueue);
      var arrives := match op case Add(s) => multiset{s} case Drop(_) => multiset{};
      Balance(multiset(Apply(l, op)), Leaves(l, op), Refused(l, op), multiset(l), arrives, Closed(events), multiset(list) + Arrived(front));
    } else {
      NoEvents();
    }
  }

  /** What comes in and goes out keeps the balance. */
  lemma Balance(after: multiset<int>, leaves: multiset<int>, refused: multiset<int>, before: multiset<int>,
                arrives: multiset<int>, closed: multiset<int>, total: multiset<int>)
    requires after + leaves + refused == before + arrives && before + closed == total
    ensures after + (closed + leaves + refused) == total + arrives
  {
    assert after + (closed + leaves + refused) == (after + leaves + refused) + closed;
    assert before + arrives + closed == (before + closed) + arrives;
  }

  lemma NoEvents()
    ensures Closed([]) == Told([]) == multiset{} && ToldFirst([])
  {
  }

  lemma DropConserves(l: seq<int>, s: int, events: seq<Event>, hasQueue: bool)
    requires s in l && ToldFirst(events)
    ensures var r := events + Farewell(l, s, hasQueue);
            && multiset(Remove(l, s)) + multiset{s} == multiset(l)
            && Closed(r) == Closed(events) + multiset{s}
            && Told(r) == Told(events) + (if hasQueue then multiset{s} else multiset{})
            && ToldFirst(r)
  {
    hide Remove, Closed, Told;
    RemoveTakesOne(l, s);
    if hasQueue {
      var told := events + [DisconnectTask(s)];
      ClosedAppend(events, DisconnectTask(s));
      ClosedAppend(told, SocketClosed(s));
      assert events + Farewell(l, s, true) == told + [SocketClosed(s)];
    } else {
      ClosedAppend(events, SocketClosed(s));
      assert events + Farewell(l, s, false) == events + [SocketClosed(s)];
    }
  }

  lemma NoFarewell(l: seq<int>, s: int, hasQueue: bool)
    requires s !in l
    ensures Farewell(l, s, hasQueue) == [] && Remove(l, s) == l
  {
  }

  lemma StepConserves(l: seq<int>, op: Op, events: seq<Event>, hasQueue: bool)
    requires |l| <= MAX_CLIENT_COUNT && ToldFirst(events)
    ensures var r := events + Announced(l, op, hasQueue);
            && |Apply(l, op)| <= MAX_CLIENT_COUNT
            && multiset(Apply(l, op)) + Leaves(l, op) + Refused(l, op)
               == multiset(l) + (match op case Add(s) => multiset{s} case Drop(_) => multiset{})
            && Closed(r) == Closed(events) + Leaves(l, op) + Refused(l, op)
            && Told(r) == Told(events) + (if hasQueue then Leaves(l, op) else multiset{})
            && ToldFirst(r)
  {
    hide Closed, Told, Farewell;
    var s := op.socket;
    match op
    case Add(_) =>
      if |l| < MAX_CLIENT_COUNT { assert events + [] == events; } else { ClosedAppend(events, SocketClosed(s)); }
    case Drop(_) =>
      if s in l {
        DropConserves(l, s, events, hasQueue);
        assert Leaves(l, op) == multiset{s} && Refused(l, op) == multiset{};
        assert multiset(Apply(l, op)) + multiset{s} == multiset(l);
      } else {
        NoFarewell(l, s, hasQueue);
        assert events + [] == events;
      }
  }
}
