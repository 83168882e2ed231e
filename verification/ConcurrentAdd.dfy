/** WorkerThread::AddClient run by several threads at once: every atomic operation is one step, steps of
    different threads interleave in any way, and a weak compare-exchange may fail for no reason. */
module ConcurrentAdd {
  import opened Wrappers
  import opened WorkerLimits

  type Node = nat

  /** Where a thread is in AddClient, with its local variables. */
  datatype Pc =
    | Idle                                                    // between calls
    | Loading(node: Node)                                     // about to load _tail
    | Resetting(node: Node, stage: nat)                       // _tail was null: three stores
    | GotTail(node: Node, tail: Node)                         // about to load tail->next
    | GotNext(node: Node, tail: Node, next: Option<Node>)     // about to load _tail again
    | Linking(node: Node, tail: Node)                         // about to CAS tail->next
    | Helping(node: Node, tail: Node, after: Node)            // about to CAS _tail forward
    | Swinging(node: Node, tail: Node)                        // linked, about to CAS _tail
    | Counting(node: Node)                                    // about to fetch_add

  datatype State = State(
    next: seq<Option<Node>>,      // the next pointer of every node allocated so far
    sockets: seq<int>,            // the socket of every node
    head: Option<Node>,
    tail: Option<Node>,
    count: int,
    pcs: seq<Pc>)

  /** One atomic operation of one thread: `socket` is the argument of a call that begins, `fails` makes
      a compare-exchange fail spuriously. */
  datatype Action = Action(thread: nat, socket: int, fails: bool)

  function Go(s: State, i: nat, pc: Pc): State
    requires i < |s.pcs|
  {
    s.(pcs := s.pcs[i := pc])
  }

  function Step(s: State, a: Action): State
    requires a.thread < |s.pcs|
    requires |s.next| == |s.sockets|
  {
    var i := a.thread;
    match s.pcs[i]
    case Idle =>
      if s.count >= MAX_CLIENT_COUNT then s
      else Go(s.(next := s.next + [None], sockets := s.sockets + [a.socket]), i, Loading(|s.next|))
    case Loading(n) =>
      (match s.tail
       case Some(t) => Go(s, i, GotTail(n, t))
       case None => Go(s.(next := s.next + [None], sockets := s.sockets + [if n < |s.sockets| then s.sockets[n] else 0]), i, Resetting(|s.next|, 0)))
    case Resetting(n, stage) =>
      if stage == 0 then Go(s.(head := Some(n)), i, Resetting(n, 1))
      else if stage == 1 then Go(s.(tail := Some(n)), i, Resetting(n, 2))
      else Go(s.(count := 1), i, Idle)
    case GotTail(n, t) => if t < |s.next| then Go(s, i, GotNext(n, t, s.next[t])) else s
    case GotNext(n, t, x) =>
      if s.tail != Some(t) then Go(s, i, Loading(n))
      else (match x case None => Go(s, i, Linking(n, t)) case Some(y) => Go(s, i, Helping(n, t, y)))
    case Linking(n, t) =>
      if t < |s.next| && s.next[t] == None && !a.fails
      then Go(s.(next := s.next[t := Some(n)]), i, Swinging(n, t))
      else Go(s, i, Loading(n))
    case Helping(n, t, y) =>
      Go(if s.tail == Some(t) && !a.fails then s.(tail := Some(y)) else s, i, Loading(n))
    case Swinging(n, t) =>
      Go(if s.tail == Some(t) && !a.fails then s.(tail := Some(n)) else s, i, Counting(n))
    case Counting(n) => Go(s.(count := s.count + 1), i, Idle)
  }

  // ---- the list --------------------------------------------------------------------------------

  /** What a traversal from `at` visits, as HasClient and the select loop walk the list. */
  function Walk(next: seq<Option<Node>>, at: Option<Node>, fuel: nat): seq<Node>
    decreases fuel
  {
    match at
    case None => []
    case Some(n) => if fuel == 0 || n >= |next| then [] else [n] + Walk(next, next[n], fuel - 1)
  }

  function Listed(s: State): seq<Node> {
    Walk(s.next, s.head, |s.next|)
  }

  // ---- the invariant ---------------------------------------------------------------------------

  /** The chain of nodes: linked one to the next, the last one to null, and no other node linked. */
  ghost predicate Chained(next: seq<Option<Node>>, chain: seq<Node>) {
    && chain != []
    && (forall k :: 0 <= k < |chain| ==> chain[k] < |next|)
    && (forall j, k :: 0 <= j < k < |chain| ==> chain[j] != chain[k])
    && (forall k :: 0 <= k < |chain| - 1 ==> next[chain[k]] == Some(chain[k + 1]))
    && (forall n: Node :: n < |next| && !InChain(chain, n) ==> next[n] == None)
    && next[chain[|chain| - 1]] == None
  }

  ghost predicate InChain(chain: seq<Node>, n: Node) {
    exists k :: 0 <= k < |chain| && chain[k] == n
  }

  /** t lies in the chain, not after position `last`. */
  ghost predicate UpTo(chain: seq<Node>, last: int, t: Node) {
    exists k :: 0 <= k < |chain| && k <= last && chain[k] == t
  }

  /** y directly follows t. */
  ghost predicate Follows(chain: seq<Node>, last: int, t: Node, y: Node) {
    exists k :: 0 <= k < |chain| - 1 && k <= last && chain[k] == t && chain[k + 1] == y
  }

  predicate Owns(pc: Pc, n: Node) {
    match pc
    case Idle => false
    case Swinging(_, _) => false
    case Counting(_) => false
    case _ => pc.node == n
  }

  /** What a thread knows, when _tail is at position p of the chain. */
  ghost predicate PcOk(next: seq<Option<Node>>, chain: seq<Node>, p: int, pc: Pc) {
    match pc
    case Idle => true
    case Loading(n) => n < |next| && !InChain(chain, n)
    case Resetting(_, _) => false
    case GotTail(n, t) => n < |next| && !InChain(chain, n) && UpTo(chain, p, t)
    case GotNext(n, t, x) =>
      && n < |next| && !InChain(chain, n) && UpTo(chain, p, t)
      && (x.Some? ==> Follows(chain, p, t, x.value))
    case Linking(n, t) => n < |next| && !InChain(chain, n) && UpTo(chain, p, t)
    case Helping(n, t, y) => n < |next| && !InChain(chain, n) && Follows(chain, p, t, y)
    case Swinging(n, t) => Follows(chain, p, t, n)
    case Counting(n) => InChain(chain, n)
  }

  function Busy(pcs: seq<Pc>): nat {
    if pcs == [] then 0 else Busy(pcs[1..]) + (if pcs[0].Idle? then 0 else 1)
  }

  /** Threads that have linked their node and not yet counted it. */
  function Uncounted(pcs: seq<Pc>): nat {
    if pcs == [] then 0 else Uncounted(pcs[1..]) + (if pcs[0].Swinging? || pcs[0].Counting? then 1 else 0)
  }

  /** p is the position of _tail: the last or the one before. */
  ghost predicate TailAt(s: State, chain: seq<Node>, p: int) {
    0 <= p < |chain| && |chain| - 2 <= p && s.tail == Some(chain[p])
  }

  ghost predicate Inv(s: State, chain: seq<Node>, p: int) {
    && |s.next| == |s.sockets|
    && Chained(s.next, chain)
    && s.head == Some(chain[0])
    && TailAt(s, chain, p)
    && (forall i :: 0 <= i < |s.pcs| ==> PcOk(s.next, chain, p, s.pcs[i]))
    && (forall i, j, n :: 0 <= i < j < |s.pcs| && Owns(s.pcs[i], n) ==> !Owns(s.pcs[j], n))
    && |chain| == s.count + Uncounted(s.pcs)
    && s.count + Busy(s.pcs) <= MAX_CLIENT_COUNT - 1 + |s.pcs|
  }

  // ---- every step keeps the invariant ----------------------------------------------------------

  lemma {:induction false} BusyUpdate(pcs: seq<Pc>, i: nat, pc: Pc)
    requires i < |pcs|
    ensures Busy(pcs[i := pc]) + (if pcs[i].Idle? then 0 else 1) == Busy(pcs) + (if pc.Idle? then 0 else 1)
    ensures Busy(pcs) <= |pcs| && (pcs[i].Idle? ==> Busy(pcs) < |pcs|)
  {
    BusyBound(pcs[1..]);
    if i == 0 {
      assert pcs[0 := pc][1..] == pcs[1..];
    } else {
      assert pcs[i := pc][1..] == pcs[1..][i - 1 := pc];
      BusyUpdate(pcs[1..], i - 1, pc);
    }
  }

  lemma {:induction false} BusyBound(pcs: seq<Pc>)
    ensures Busy(pcs) <= |pcs|
  {
    if pcs != [] { BusyBound(pcs[1..]); }
  }

  predicate IsUncounted(pc: Pc) {
    pc.Swinging? || pc.Counting?
  }

  lemma {:induction false} UncountedUpdate(pcs: seq<Pc>, i: nat, pc: Pc)
    requires i < |pcs|
    ensures Uncounted(pcs[i := pc]) + (if IsUncounted(pcs[i]) then 1 else 0) == Uncounted(pcs) + (if IsUncounted(pc) then 1 else 0)
  {
    if i == 0 {
      assert pcs[0 := pc][1..] == pcs[1..];
    } else {
      assert pcs[i := pc][1..] == pcs[1..][i - 1 := pc];
      UncountedUpdate(pcs[1..], i - 1, pc);
    }
  }

  lemma {:induction false} UncountedWithinBusy(pcs: seq<Pc>)
    ensures Uncounted(pcs) <= Busy(pcs)
  {
    if pcs != [] { UncountedWithinBusy(pcs[1..]); }
  }

  /** The chain may have grown at its end, by a node the thread does not own, and _tail moved on: what
      the thread knows still holds. */
  lemma PcStays(next: seq<Option<Node>>, chain: seq<Node>, p: int, next': seq<Option<Node>>, chain': seq<Node>, p': int, pc: Pc)
    requires PcOk(next, chain, p, pc) && |next| <= |next'| && p <= p'
    requires chain' == chain || exists m: Node :: chain' == chain + [m] && !Owns(pc, m)
    ensures PcOk(next', chain', p', pc)
  {
    forall t: Node | UpTo(chain, p, t) ensures UpTo(chain', p', t) {
      var k :| 0 <= k < |chain| && k <= p && chain[k] == t;
      assert chain'[k] == t;
    }
    forall t: Node, y: Node | Follows(chain, p, t, y) ensures Follows(chain', p', t, y) {
      var k :| 0 <= k < |chain| - 1 && k <= p && chain[k] == t && chain[k + 1] == y;
      assert chain'[k] == t && chain'[k + 1] == y;
    }
    forall n: Node | Owns(pc, n) && !InChain(chain, n) ensures !InChain(chain', n) {
    }
    if pc.Counting? {
      var k :| 0 <= k < |chain| && chain[k] == pc.node;
      assert chain'[k] == pc.node;
    }
  }

  /** A step that leaves the list alone: one thread moves on, knowing what it may know. */
  lemma OnlyPc(s: State, chain: seq<Node>, p: int, i: nat, pc: Pc)
    requires Inv(s, chain, p) && i < |s.pcs| && PcOk(s.next, chain, p, pc)
    requires forall n :: Owns(pc, n) ==> Owns(s.pcs[i], n)
    requires IsUncounted(pc) == IsUncounted(s.pcs[i]) && pc.Idle? == s.pcs[i].Idle?
    ensures Inv(Go(s, i, pc), chain, p)
  {
    BusyUpdate(s.pcs, i, pc);
    UncountedUpdate(s.pcs, i, pc);
  }

  lemma Begins(s: State, chain: seq<Node>, p: int, a: Action)
    requires Inv(s, chain, p) && a.thread < |s.pcs| && s.pcs[a.thread].Idle?
    ensures Inv(Step(s, a), chain, p)
  {
    var i := a.thread;
    if s.count < MAX_CLIENT_COUNT {
      var r := Step(s, a);
      var n := |s.next|;
      BusyUpdate(s.pcs, i, Loading(n));
      UncountedUpdate(s.pcs, i, Loading(n));
      forall j | 0 <= j < |r.pcs| ensures PcOk(r.next, chain, p, r.pcs[j]) {
        if j != i { PcStays(s.next, chain, p, r.next, chain, p, s.pcs[j]); }
      }
      forall j | 0 <= j < |s.pcs| ensures !Owns(s.pcs[j], n) {
        assert PcOk(s.next, chain, p, s.pcs[j]);
      }
    }
  }

  lemma LastPosition(chain: seq<Node>, last: int, k: nat)
    requires k < |chain| && k <= last
    ensures UpTo(chain, last, chain[k]) && InChain(chain, chain[k])
  {
  }

  lemma Successor(s: State, chain: seq<Node>, p: int, t: Node)
    requires Inv(s, chain, p) && UpTo(chain, p, t)
    ensures t < |s.next|
    ensures match s.next[t] { case Some(y) => Follows(chain, p, t, y) case None => t == chain[|chain| - 1] }
  {
    var k :| 0 <= k < |chain| && k <= p && chain[k] == t;
    if k < |chain| - 1 { assert s.next[chain[k]] == Some(chain[k + 1]); }
  }

  lemma Loads(s: State, chain: seq<Node>, p: int, a: Action)
    requires Inv(s, chain, p) && a.thread < |s.pcs|
    requires var pc := s.pcs[a.thread]; pc.Loading? || pc.GotTail? || pc.GotNext?
    ensures Inv(Step(s, a), chain, p)
  {
    var i := a.thread;
    assert PcOk(s.next, chain, p, s.pcs[i]);
    match s.pcs[i]
    case Loading(n) =>
      LastPosition(chain, p, p);
      OnlyPc(s, chain, p, i, GotTail(n, chain[p]));
    case GotTail(n, t) =>
      Successor(s, chain, p, t);
      OnlyPc(s, chain, p, i, GotNext(n, t, s.next[t]));
    case GotNext(n, t, x) =>
      OnlyPc(s, chain, p, i, Step(s, a).pcs[i]);
  }

  /** Linking: only the true last node has no successor, so the chain grows at its end. */
  lemma Links(s: State, chain: seq<Node>, p: int, a: Action) returns (chain': seq<Node>)
    requires Inv(s, chain, p) && a.thread < |s.pcs| && s.pcs[a.thread].Linking?
    ensures Inv(Step(s, a), chain', p) && chain <= chain'
  {
    var i := a.thread;
    var Linking(n, t) := s.pcs[i];
    assert PcOk(s.next, chain, p, s.pcs[i]);
    Successor(s, chain, p, t);
    if s.next[t] == None && !a.fails {
      chain' := chain + [n];
      var r := Step(s, a);
      AtLast(chain, p, t);
      BusyUpdate(s.pcs, i, Swinging(n, t));
      UncountedUpdate(s.pcs, i, Swinging(n, t));
      ChainGrows(s.next, chain, n);
      forall j | 0 <= j < |r.pcs| ensures PcOk(r.next, chain', p, r.pcs[j]) {
        if j != i {
          assert Owns(s.pcs[i], n);
          assert !Owns(s.pcs[j], n);
          PcStays(s.next, chain, p, r.next, chain', p, s.pcs[j]);
        } else {
          assert chain'[|chain| - 1] == t && chain'[|chain|] == n;
        }
      }
    } else {
      chain' := chain;
      OnlyPc(s, chain, p, i, Loading(n));
    }
  }

  /** A node that is last in the chain and not after _tail is where _tail is. */
  lemma AtLast(chain: seq<Node>, p: int, t: Node)
    requires chain != [] && UpTo(chain, p, t) && t == chain[|chain| - 1] && p < |chain|
    requires forall j, k :: 0 <= j < k < |chain| ==> chain[j] != chain[k]
    ensures p == |chain| - 1
  {
    var k :| 0 <= k < |chain| && k <= p && chain[k] == t;
  }

  lemma NotInGrown(chain: seq<Node>, n: Node, m: Node)
    requires !InChain(chain + [n], m)
    ensures !InChain(chain, m) && m != n
  {
    assert (chain + [n])[|chain|] == n;
    forall k | 0 <= k < |chain| ensures chain[k] != m { assert (chain + [n])[k] == chain[k]; }
  }

  lemma ChainGrows(next: seq<Option<Node>>, chain: seq<Node>, n: Node)
    requires Chained(next, chain) && n < |next| && !InChain(chain, n)
    ensures Chained(next[chain[|chain| - 1] := Some(n)], chain + [n])
  {
    var last := chain[|chain| - 1];
    var next', chain' := next[last := Some(n)], chain + [n];
    assert InChain(chain, last);
    forall j, k | 0 <= j < k < |chain'| ensures chain'[j] != chain'[k] {
      if k == |chain| { assert InChain(chain, chain[j]); }
    }
    forall m: Node | m < |next'| && !InChain(chain', m) ensures next'[m] == None {
      NotInGrown(chain, n, m);
    }
    forall k | 0 <= k < |chain'| - 1 ensures next'[chain'[k]] == Some(chain'[k + 1]) {
    }
  }

  /** Moving _tail: a compare-exchange from t to what follows t. */
  lemma Moves(s: State, chain: seq<Node>, p: int, i: nat, t: Node, y: Node, fails: bool, pc: Pc) returns (p': int)
    requires Inv(s, chain, p) && i < |s.pcs| && Follows(chain, p, t, y)
    requires PcOk(s.next, chain, p, pc) && forall n :: Owns(pc, n) ==> Owns(s.pcs[i], n)
    requires IsUncounted(pc) == IsUncounted(s.pcs[i]) && pc.Idle? == s.pcs[i].Idle?
    ensures Inv(Go(if s.tail == Some(t) && !fails then s.(tail := Some(y)) else s, i, pc), chain, p')
  {
    if s.tail == Some(t) && !fails {
      var k :| 0 <= k < |chain| - 1 && k <= p && chain[k] == t && chain[k + 1] == y;
      p' := k + 1;
      assert k == p;
      var r := Go(s.(tail := Some(y)), i, pc);
      BusyUpdate(s.pcs, i, pc);
      UncountedUpdate(s.pcs, i, pc);
      forall j | 0 <= j < |r.pcs| ensures PcOk(r.next, chain, p', r.pcs[j]) {
        PcStays(s.next, chain, p, r.next, chain, p', if j == i then pc else s.pcs[j]);
      }
    } else {
      p' := p;
      OnlyPc(s, chain, p, i, pc);
    }
  }

  lemma Counts(s: State, chain: seq<Node>, p: int, a: Action)
    requires Inv(s, chain, p) && a.thread < |s.pcs| && s.pcs[a.thread].Counting?
    ensures Inv(Step(s, a), chain, p)
  {
    BusyUpdate(s.pcs, a.thread, Idle);
    UncountedUpdate(s.pcs, a.thread, Idle);
  }

  /** Every atomic step keeps the invariant, and the chain only ever grows at its end. */
  lemma StepKeeps(s: State, chain: seq<Node>, p: int, a: Action) returns (chain': seq<Node>, p': int)
    requires Inv(s, chain, p) && a.thread < |s.pcs|
    ensures Inv(Step(s, a), chain', p') && chain <= chain' && |Step(s, a).pcs| == |s.pcs|
  {
    hide Inv, PcOk, Step;
    chain', p' := chain, p;
    Facts(s, chain, p, a);
    match s.pcs[a.thread]
    case Idle => Begins(s, chain, p, a);
    case Linking(_, _) => chain' := Links(s, chain, p, a);
    case Helping(_, _, _) => p' := Helps(s, chain, p, a);
    case Swinging(_, _) => p' := Swings(s, chain, p, a);
    case Counting(_) => Counts(s, chain, p, a);
    case _ => Loads(s, chain, p, a);
  }

  lemma Facts(s: State, chain: seq<Node>, p: int, a: Action)
    requires Inv(s, chain, p) && a.thread < |s.pcs|
    ensures !s.pcs[a.thread].Resetting? && |Step(s, a).pcs| == |s.pcs|
  {
    hide Chained;
    assert PcOk(s.next, chain, p, s.pcs[a.thread]);
  }

  lemma Helps(s: State, chain: seq<Node>, p: int, a: Action) returns (p': int)
    requires Inv(s, chain, p) && a.thread < |s.pcs| && s.pcs[a.thread].Helping?
    ensures Inv(Step(s, a), chain, p')
  {
    hide Chained;
    var Helping(n, t, y) := s.pcs[a.thread];
    assert PcOk(s.next, chain, p, s.pcs[a.thread]);
    p' := Moves(s, chain, p, a.thread, t, y, a.fails, Loading(n));
  }

  lemma Swings(s: State, chain: seq<Node>, p: int, a: Action) returns (p': int)
    requires Inv(s, chain, p) && a.thread < |s.pcs| && s.pcs[a.thread].Swinging?
    ensures Inv(Step(s, a), chain, p')
  {
    hide Chained;
    var Swinging(n, t) := s.pcs[a.thread];
    assert PcOk(s.next, chain, p, s.pcs[a.thread]);
    FollowerIn(chain, p, t, n);
    p' := Moves(s, chain, p, a.thread, t, n, a.fails, Counting(n));
  }

  lemma FollowerIn(chain: seq<Node>, p: int, t: Node, y: Node)
    requires Follows(chain, p, t, y)
    ensures InChain(chain, y)
  {
  }

  // ---- whole runs ------------------------------------------------------------------------------

  /** A worker with the clients `sockets` and k threads about to add clients. */
  function Init(sockets: seq<int>, k: nat): State
    requires sockets != []
  {
    var m := |sockets|;
    State(seq(m, i requires 0 <= i < m => if i < m - 1 then Some(i + 1) else None), sockets, Some(0), Some(m - 1), m,
          seq(k, i requires 0 <= i < k => Idle))
  }

  predicate Threads(actions: seq<Action>, k: nat) {
    forall i :: 0 <= i < |actions| ==> actions[i].thread < k
  }

  function Run(s: State, actions: seq<Action>): (r: State)
    requires Threads(actions, |s.pcs|) && |s.next| == |s.sockets|
    ensures |r.pcs| == |s.pcs| && |r.next| == |r.sockets|
  {
    if actions == [] then s
    else Step(Run(s, actions[..|actions| - 1]), actions[|actions| - 1])
  }

  ghost predicate Safe(s: State) {
    exists chain, p :: Inv(s, chain, p)
  }

  lemma {:induction false} AllIdle(k: nat)
    ensures var pcs := seq(k, i requires 0 <= i < k => Idle); Busy(pcs) == 0 && Uncounted(pcs) == 0
  {
    var pcs := seq(k, i requires 0 <= i < k => Idle);
    if k > 0 {
      AllIdle(k - 1);
      assert pcs[1..] == seq(k - 1, i requires 0 <= i < k - 1 => Idle);
    }
  }

  lemma InitSafe(sockets: seq<int>, k: nat) returns (chain: seq<Node>)
    requires 1 <= |sockets| <= MAX_CLIENT_COUNT && 1 <= k
    ensures Inv(Init(sockets, k), chain, |sockets| - 1) && |chain| == |sockets|
  {
    var m := |sockets|;
    chain := seq(m, i requires 0 <= i < m => i);
    AllIdle(k);
    forall n: Node | n < m ensures InChain(chain, n) { assert chain[n] == n; }
  }

  /** The list is what a traversal from the head finds. */
  lemma {:induction false} WalkFinds(next: seq<Option<Node>>, chain: seq<Node>, k: nat, fuel: nat)
    requires Chained(next, chain) && k < |chain| && |chain| - k <= fuel
    ensures Walk(next, Some(chain[k]), fuel) == chain[k..]
    decreases fuel
  {
    if k < |chain| - 1 {
      WalkFinds(next, chain, k + 1, fuel - 1);
      assert chain[k..] == [chain[k]] + chain[k + 1..];
    } else {
      assert next[chain[k]] == None;
    }
  }

  /** Different numbers below n are at most n many. */
  lemma {:induction false} FewEnough(chain: seq<Node>, n: nat)
    requires forall k :: 0 <= k < |chain| ==> chain[k] < n
    requires forall j, k :: 0 <= j < k < |chain| ==> chain[j] != chain[k]
    ensures |chain| <= n
    decreases n
  {
    if chain != [] {
      assert chain[0] < n;
      if k :| 0 <= k < |chain| && chain[k] == n - 1 {
        FewEnough(chain[..k] + chain[k + 1..], n - 1);
      } else {
        FewEnough(chain, n - 1);
      }
    }
  }

  lemma ListedIs(s: State, chain: seq<Node>, p: int)
    requires Inv(s, chain, p)
    ensures Listed(s) == chain
  {
    FewEnough(chain, |s.next|);
    WalkFinds(s.next, chain, 0, |s.next|);
  }

  /** What always holds of the list: the count of nodes is bounded, _tail is the last node or the one
      before it. */
  ghost predicate WellListed(s: State) {
    var list := Listed(s);
    && list != [] && |list| <= MAX_CLIENT_COUNT + |s.pcs| - 1
    && (s.tail == Some(list[|list| - 1]) || (|list| >= 2 && s.tail == Some(list[|list| - 2])))
    && (Busy(s.pcs) == 0 ==> s.count == |list|)
  }

  lemma ChainedIsNotEmpty(next: seq<Option<Node>>, chain: seq<Node>)
    requires Chained(next, chain)
    ensures chain != []
  {
  }

  lemma SafeIsWellListed(s: State)
    requires Safe(s)
    ensures WellListed(s)
  {
    hide Chained, PcOk;
    var chain, p :| Inv(s, chain, p);
    ListedIs(s, chain, p);
    UncountedWithinBusy(s.pcs);
    ChainedIsNotEmpty(s.next, chain);
  }

  /** One step: still safe, and every node listed stays listed at its place. */
  lemma SafeStep(s: State, a: Action)
    requires Safe(s) && a.thread < |s.pcs| && |s.next| == |s.sockets|
    ensures Safe(Step(s, a)) && Listed(s) <= Listed(Step(s, a))
  {
    hide Inv, Step;
    var chain, p :| Inv(s, chain, p);
    var chain', p' := StepKeeps(s, chain, p, a);
    ListedIs(s, chain, p);
    ListedIs(Step(s, a), chain', p');
  }

  /** In every interleaving, from a worker with clients and at most the allowed number of them: the list
      never loses a node or exceeds the limit by more than the other threads, _tail stays at its end,
      and whenever no call is under way the count is the length of the list. */
  lemma {:induction false} RunSafe(sockets: seq<int>, k: nat, actions: seq<Action>)
    requires 1 <= |sockets| <= MAX_CLIENT_COUNT && 1 <= k && Threads(actions, k)
    ensures Safe(Run(Init(sockets, k), actions)) && WellListed(Run(Init(sockets, k), actions))
    decreases |actions|
  {
    hide Inv, Step, WellListed;
    var s0 := Init(sockets, k);
    if actions == [] {
      var chain := InitSafe(sockets, k);
    } else {
      RunSafe(sockets, k, actions[..|actions| - 1]);
      SafeStep(Run(s0, actions[..|actions| - 1]), actions[|actions| - 1]);
    }
    SafeIsWellListed(Run(s0, actions));
  }

  /** Nothing is lost: what is listed after some of the steps is listed, at the same place, after more. */
  lemma {:induction false} NothingLost(sockets: seq<int>, k: nat, actions: seq<Action>, n: nat)
    requires 1 <= |sockets| <= MAX_CLIENT_COUNT && 1 <= k && Threads(actions, k) && n <= |actions|
    ensures Listed(Run(Init(sockets, k), actions[..n])) <= Listed(Run(Init(sockets, k), actions))
    decreases |actions|
  {
    hide Safe, Step, Listed, WellListed;
    if n == |actions| {
      assert actions[..n] == actions;
    } else {
      var front := actions[..|actions| - 1];
      NothingLost(sockets, k, front, n);
      assert front[..n] == actions[..n];
      RunSafe(sockets, k, front);
      SafeStep(Run(Init(sockets, k), front), actions[|actions| - 1]);
    }
  }

  /** A node past its linking step is in the list. */
  lemma LinkedIsListed(s: State, i: nat)
    requires Safe(s) && i < |s.pcs| && IsUncounted(s.pcs[i])
    ensures InChain(Listed(s), s.pcs[i].node)
  {
    hide Chained;
    var chain, p :| Inv(s, chain, p);
    ListedIs(s, chain, p);
    assert PcOk(s.next, chain, p, s.pcs[i]);
    if s.pcs[i].Swinging? { FollowerIn(chain, p, s.pcs[i].tail, s.pcs[i].node); }
  }

  // ---- the bound is reached --------------------------------------------------------------------

  function Act(i: nat): Action { Action(i, 0, false) }

  lemma RunOne(s: State, actions: seq<Action>, i: nat)
    requires Threads(actions, |s.pcs|) && |s.next| == |s.sockets| && i < |s.pcs|
    ensures Threads(actions + [Act(i)], |s.pcs|) && Run(s, actions + [Act(i)]) == Step(Run(s, actions), Act(i))
  {
    hide Step;
    assert (actions + [Act(i)])[..|actions|] == actions;
  }

  /** Threads below `j` have finished a call, those from j up to `begun` are past the check of the count. */
  ghost predicate Under(s: State, j: nat, begun: nat, count: int) {
    && |s.next| == |s.sockets| && Safe(s) && j <= begun <= |s.pcs| && s.count == count
    && (forall i :: 0 <= i < |s.pcs| ==> if j <= i < begun then s.pcs[i].Loading? else s.pcs[i] == Idle)
    && s.tail.Some? && s.tail.value < |s.next| && s.next[s.tail.value] == None
  }

  lemma BeginOne(s: State, begun: nat, count: int)
    requires Under(s, 0, begun, count) && begun < |s.pcs| && count < MAX_CLIENT_COUNT
    ensures Under(Step(s, Act(begun)), 0, begun + 1, count)
  {
    hide Safe;
    SafeStep(s, Act(begun));
  }

  /** A thread left alone adds its client, whatever the count has become. */
  lemma AloneAdds(s: State, actions: seq<Action>, j: nat, begun: nat, count: int) returns (more: seq<Action>)
    requires Threads(actions, |s.pcs|) && |s.next| == |s.sockets|
    requires Under(Run(s, actions), j, begun, count) && j < begun
    ensures Threads(more, |s.pcs|) && Under(Run(s, more), j + 1, begun, count + 1)
  {
    hide Safe, Listed;
    var r := Run(s, actions);
    var n, t := r.pcs[j].node, r.tail.value;
    more := actions;
    NodeFresh(r, j);
    more := Advance(s, more, j);
    more := Advance(s, more, j);
    more := Advance(s, more, j);
    var linking := r.(pcs := r.pcs[j := Linking(n, t)]);
    assert Run(s, more) == linking;
    more := Advance(s, more, j);
    more := Advance(s, more, j);
    more := Advance(s, more, j);
    assert Run(s, more) == r.(next := r.next[t := Some(n)], tail := Some(n), count := count + 1, pcs := r.pcs[j := Idle]);
  }

  lemma Advance(s: State, actions: seq<Action>, i: nat) returns (more: seq<Action>)
    requires Threads(actions, |s.pcs|) && |s.next| == |s.sockets| && i < |s.pcs| && Safe(Run(s, actions))
    ensures Threads(more, |s.pcs|) && Run(s, more) == Step(Run(s, actions), Act(i)) && Safe(Run(s, more))
  {
    hide Safe, Step, Listed;
    more := actions + [Act(i)];
    RunOne(s, actions, i);
    SafeStep(Run(s, actions), Act(i));
  }

  lemma NodeFresh(s: State, i: nat)
    requires Safe(s) && i < |s.pcs| && s.pcs[i].Loading?
    requires s.tail.Some? && s.tail.value < |s.next|
    ensures s.pcs[i].node < |s.next| && s.next[s.pcs[i].node] == None && s.pcs[i].node != s.tail.value
  {
    var chain, p :| Inv(s, chain, p);
    assert PcOk(s.next, chain, p, s.pcs[i]);
    LastPosition(chain, p, p);
  }

  lemma {:induction false} AllBegin(s: State, actions: seq<Action>, begun: nat, count: int) returns (more: seq<Action>)
    requires Threads(actions, |s.pcs|) && |s.next| == |s.sockets|
    requires Under(Run(s, actions), 0, 0, count) && begun <= |s.pcs| && count < MAX_CLIENT_COUNT
    ensures Threads(more, |s.pcs|) && Under(Run(s, more), 0, begun, count)
  {
    hide Safe, Step;
    if begun == 0 {
      more := actions;
    } else {
      var front := AllBegin(s, actions, begun - 1, count);
      BeginOne(Run(s, front), begun - 1, count);
      RunOne(s, front, begun - 1);
      more := front + [Act(begun - 1)];
    }
  }

  lemma {:induction false} AllAdd(s: State, actions: seq<Action>, begun: nat, j: nat, count: int) returns (more: seq<Action>)
    requires Threads(actions, |s.pcs|) && |s.next| == |s.sockets|
    requires Under(Run(s, actions), 0, 0, count) && j <= begun <= |s.pcs| && count < MAX_CLIENT_COUNT
    ensures Threads(more, |s.pcs|) && Under(Run(s, more), j, begun, count + j)
    decreases j
  {
    hide Safe, Under, Step;
    if j == 0 {
      more := AllBegin(s, actions, begun, count);
    } else {
      var front := AllAdd(s, actions, begun, j - 1, count);
      more := AloneAdds(s, front, j - 1, begun, count + j - 1);
    }
  }

  /** One thread alone adds clients until one place is left. */
  lemma {:induction false} FillUp(s: State, actions: seq<Action>, count: int) returns (more: seq<Action>)
    requires Threads(actions, |s.pcs|) && |s.next| == |s.sockets| && 1 <= |s.pcs|
    requires Under(Run(s, actions), 0, 0, count) && count < MAX_CLIENT_COUNT
    ensures Threads(more, |s.pcs|) && Under(Run(s, more), 0, 0, MAX_CLIENT_COUNT - 1)
    decreases MAX_CLIENT_COUNT - count
  {
    hide Safe, Under, Step;
    if count == MAX_CLIENT_COUNT - 1 {
      more := actions;
    } else {
      var one := AllAdd(s, actions, 1, 1, count);
      AllIdleAgain(Run(s, one), 1, count + 1);
      more := FillUp(s, one, count + 1);
    }
  }

  lemma AllIdleAgain(s: State, j: nat, count: int)
    requires Under(s, j, j, count)
    ensures Under(s, 0, 0, count)
  {
    hide Safe;
  }

  /** The limit is not kept: once one place is left, k threads that all check the count before any of
      them counts add k clients.  So the bound of RunSafe is reached from every list that is not full. */
  lemma BoundReached(sockets: seq<int>, k: nat) returns (actions: seq<Action>)
    requires 1 <= |sockets| < MAX_CLIENT_COUNT && 1 <= k
    ensures Threads(actions, k) && |Listed(Run(Init(sockets, k), actions))| == MAX_CLIENT_COUNT - 1 + k
  {
    hide Inv, Listed;
    var s := Init(sockets, k);
    var chain := InitSafe(sockets, k);
    assert Safe(s);
    assert Under(s, 0, 0, |sockets|);
    var full := FillUp(s, [], |sockets|);
    actions := AllAdd(s, full, k, k, MAX_CLIENT_COUNT - 1);
    RunSafe(sockets, k, actions);
    NoneBusy(Run(s, actions).pcs);
  }

  lemma {:induction false} FullStays(sockets: seq<int>, k: nat, actions: seq<Action>)
    requires |sockets| == MAX_CLIENT_COUNT && Threads(actions, k)
    ensures Run(Init(sockets, k), actions) == Init(sockets, k)
  {
    if actions != [] { FullStays(sockets, k, actions[..|actions| - 1]); }
  }

  /** Every interleaving keeps the limit exactly if there is only one thread, or the list is full from
      the start. */
  lemma LimitKeptExactly(sockets: seq<int>, k: nat)
    requires 1 <= |sockets| <= MAX_CLIENT_COUNT && 1 <= k
    ensures (forall actions :: Threads(actions, k) ==> |Listed(Run(Init(sockets, k), actions))| <= MAX_CLIENT_COUNT)
            <==> k == 1 || |sockets| == MAX_CLIENT_COUNT
  {
    hide Listed, Inv, Run, Init;
    InitListed(sockets, k);
    if k == 1 || |sockets| == MAX_CLIENT_COUNT {
      forall actions | Threads(actions, k) ensures |Listed(Run(Init(sockets, k), actions))| <= MAX_CLIENT_COUNT {
        RunSafe(sockets, k, actions);
        if |sockets| == MAX_CLIENT_COUNT { FullStays(sockets, k, actions); }
      }
    } else {
      var actions := BoundReached(sockets, k);
    }
  }

  lemma InitListed(sockets: seq<int>, k: nat)
    requires 1 <= |sockets| <= MAX_CLIENT_COUNT && 1 <= k
    ensures var s := Init(sockets, k);
            && |Listed(s)| == |sockets| && |s.pcs| == k && |s.next| == |s.sockets|
  {
    hide Listed, Inv;
    var chain := InitSafe(sockets, k);
    ListedIs(Init(sockets, k), chain, |sockets| - 1);
  }

  lemma {:induction false} NoneBusy(pcs: seq<Pc>)
    requires forall i :: 0 <= i < |pcs| ==> pcs[i] == Idle
    ensures Busy(pcs) == 0
  {
    if pcs != [] { NoneBusy(pcs[1..]); }
  }
}
