/** What concurrent calls of AddClient add up to: every call past its linking step has the socket it was
    given in the list, and when no call is under way the clients listed are those of the start and those
    of the calls that were let in, each once. */
module ConcurrentCalls {
  import opened Wrappers
  import opened WorkerLimits
  import opened ConcurrentAdd

  /** The action begins a call that passes the check of the count. */
  predicate LetIn(s: State, a: Action)
    requires a.thread < |s.pcs|
  {
    s.pcs[a.thread].Idle? && s.count < MAX_CLIENT_COUNT
  }

  /** The sockets of the calls let in, in the order in which they began. */
  function Accepted(s: State, actions: seq<Action>): seq<int>
    requires Threads(actions, |s.pcs|) && |s.next| == |s.sockets|
  {
    if actions == [] then []
    else
      var front, last := actions[..|actions| - 1], actions[|actions| - 1];
      Accepted(s, front) + (if LetIn(Run(s, front), last) then [last.socket] else [])
  }

  /** The socket given to the call that thread i began last. */
  function CallOf(s: State, actions: seq<Action>, i: nat): Option<int>
    requires Threads(actions, |s.pcs|) && |s.next| == |s.sockets|
  {
    if actions == [] then None
    else
      var front, last := actions[..|actions| - 1], actions[|actions| - 1];
      if last.thread == i && LetIn(Run(s, front), last) then Some(last.socket) else CallOf(s, front, i)
  }

  /** What a thread under way works on: the node allocated for its call's socket. */
  ghost predicate Serving(s: State, i: nat, call: Option<int>)
    requires i < |s.pcs|
  {
    !s.pcs[i].Idle? ==> call.Some? && s.pcs[i].node < |s.sockets| && s.sockets[s.pcs[i].node] == call.value
  }

  lemma NeverResets(s: State)
    requires Safe(s)
    ensures forall i :: 0 <= i < |s.pcs| ==> !s.pcs[i].Resetting?
    ensures s.tail.Some?
  {
    hide Chained;
    var chain, p :| Inv(s, chain, p);
    forall i | 0 <= i < |s.pcs| ensures !s.pcs[i].Resetting? { Facts(s, chain, p, Action(i, 0, false)); }
  }

  /** What one step does to the sockets, and to the node a thread works on. */
  lemma StepSockets(s: State, a: Action)
    requires Safe(s) && a.thread < |s.pcs| && |s.next| == |s.sockets|
    ensures var r := Step(s, a);
            && r.sockets == s.sockets + (if LetIn(s, a) then [a.socket] else [])
            && |r.pcs| == |s.pcs| && (forall j :: 0 <= j < |s.pcs| && j != a.thread ==> r.pcs[j] == s.pcs[j])
            && (!r.pcs[a.thread].Idle? ==>
                  r.pcs[a.thread].node == if s.pcs[a.thread].Idle? then |s.sockets| else s.pcs[a.thread].node)
            && (s.pcs[a.thread].Idle? && !r.pcs[a.thread].Idle? ==> LetIn(s, a))
  {
    hide Safe;
    NeverResets(s);
  }

  lemma {:induction false} RunServes(sockets: seq<int>, k: nat, actions: seq<Action>)
    requires 1 <= |sockets| <= MAX_CLIENT_COUNT && 1 <= k && Threads(actions, k)
    ensures var s0 := Init(sockets, k); var r := Run(s0, actions);
            && r.sockets == sockets + Accepted(s0, actions)
            && forall i :: 0 <= i < k ==> Serving(r, i, CallOf(s0, actions, i))
  {
    hide Safe, Step, WellListed;
    var s0 := Init(sockets, k);
    if actions != [] {
      var front, last := actions[..|actions| - 1], actions[|actions| - 1];
      RunServes(sockets, k, front);
      RunSafe(sockets, k, front);
      StepSockets(Run(s0, front), last);
    }
  }

  /** A call past its linking step, counted or not, has a node with the socket it was given in the list. */
  lemma CallAdds(sockets: seq<int>, k: nat, actions: seq<Action>, i: nat)
    requires 1 <= |sockets| <= MAX_CLIENT_COUNT && 1 <= k && Threads(actions, k) && i < k
    requires IsUncounted(Run(Init(sockets, k), actions).pcs[i])
    ensures var s0 := Init(sockets, k); var r := Run(s0, actions);
            exists n: Node :: InChain(Listed(r), n) && n < |r.sockets| && Some(r.sockets[n]) == CallOf(s0, actions, i)
  {
    hide Safe, WellListed, Run, Listed, InChain, CallOf;
    RunServes(sockets, k, actions);
    RunSafe(sockets, k, actions);
    var r := Run(Init(sockets, k), actions);
    LinkedIsListed(r, i);
    assert Serving(r, i, CallOf(Init(sockets, k), actions, i));
    assert InChain(Listed(r), r.pcs[i].node);
  }

  // ---- conservation ----------------------------------------------------------------------------

  ghost predicate Owned(s: State, n: Node) {
    exists i :: 0 <= i < |s.pcs| && Owns(s.pcs[i], n)
  }

  /** Every node allocated is in the list or belongs to a call that has not linked it yet. */
  ghost predicate Accounted(s: State) {
    forall n: Node :: n < |s.next| ==> InChain(Listed(s), n) || Owned(s, n)
  }

  /** A node ceases to be owned only by being linked; a new node is owned. */
  lemma StepOwns(s: State, a: Action, r: State, n: Node)
    requires Safe(s) && a.thread < |s.pcs| == |r.pcs| && |s.next| == |s.sockets| && r == Step(s, a) && n < |r.next|
    requires n < |s.next| ==> Owned(s, n)
    ensures Owned(r, n) || (IsUncounted(r.pcs[a.thread]) && r.pcs[a.thread].node == n)
  {
    hide Safe;
    NeverResets(s);
    if n < |s.next| {
      var i :| 0 <= i < |s.pcs| && Owns(s.pcs[i], n);
      assert i != a.thread ==> Owns(r.pcs[i], n);
      assert Owns(r.pcs[a.thread], n) || i != a.thread || IsUncounted(r.pcs[a.thread]);
    } else {
      assert Owns(r.pcs[a.thread], n);
    }
  }

  lemma StepAccounts(s: State, a: Action)
    requires Safe(s) && a.thread < |s.pcs| && |s.next| == |s.sockets| && Accounted(s)
    ensures Accounted(Step(s, a))
  {
    hide Safe, Listed, Owned, Step;
    var r := Step(s, a);
    SafeStep(s, a);
    StepSockets(s, a);
    forall n: Node | n < |r.next| ensures InChain(Listed(r), n) || Owned(r, n) {
      if n < |s.next| && InChain(Listed(s), n) {
        var j :| 0 <= j < |Listed(s)| && Listed(s)[j] == n;
        assert Listed(r)[j] == n;
      } else {
        StepOwns(s, a, r, n);
        if IsUncounted(r.pcs[a.thread]) { LinkedIsListed(r, a.thread); }
      }
    }
  }

  lemma {:induction false} RunAccounts(sockets: seq<int>, k: nat, actions: seq<Action>)
    requires 1 <= |sockets| <= MAX_CLIENT_COUNT && 1 <= k && Threads(actions, k)
    ensures Accounted(Run(Init(sockets, k), actions))
    decreases |actions|
  {
    hide Safe, Step, WellListed, Accounted;
    if actions == [] {
      StartAccounts(sockets, k);
    } else {
      var front := actions[..|actions| - 1];
      RunAccounts(sockets, k, front);
      RunSafe(sockets, k, front);
      StepAccounts(Run(Init(sockets, k), front), actions[|actions| - 1]);
    }
  }

  lemma StartAccounts(sockets: seq<int>, k: nat)
    requires 1 <= |sockets| <= MAX_CLIENT_COUNT && 1 <= k
    ensures Accounted(Init(sockets, k))
  {
    hide Listed;
    var chain := InitSafe(sockets, k);
    ListedIs(Init(sockets, k), chain, |sockets| - 1);
    forall n: Node | n < |sockets| && !InChain(chain, n) ensures false { EveryNode(chain, |sockets|, n); }
  }

  /** As many different numbers below n as there are: all of them. */
  lemma EveryNode(chain: seq<Node>, n: nat, x: Node)
    requires |chain| == n && x < n && forall j :: 0 <= j < n ==> chain[j] < n
    requires forall i, j :: 0 <= i < j < n ==> chain[i] != chain[j]
    ensures InChain(chain, x)
  {
    if !InChain(chain, x) {
      var more := chain + [x];
      forall i, j | 0 <= i < j < |more| ensures more[i] != more[j] {
        if j == n { assert InChain(chain, more[i]); }
      }
      FewEnough(more, n);
    }
  }

  function SocketsAt(sockets: seq<int>, chain: seq<Node>): (r: seq<int>)
    requires forall j :: 0 <= j < |chain| ==> chain[j] < |sockets|
    ensures |r| == |chain| && forall j :: 0 <= j < |r| ==> r[j] == sockets[chain[j]]
  {
    seq(|chain|, j requires 0 <= j < |chain| => sockets[chain[j]])
  }

  /** All nodes below n, each once. */
  ghost predicate AllNodes(chain: seq<Node>, n: nat) {
    && (forall j :: 0 <= j < |chain| ==> chain[j] < n)
    && (forall i, j :: 0 <= i < j < |chain| ==> chain[i] != chain[j])
    && forall x: Node :: x < n ==> InChain(chain, x)
  }

  lemma WithoutLast(chain: seq<Node>, m: nat, k: nat)
    requires AllNodes(chain, m + 1) && k < |chain| && chain[k] == m
    ensures AllNodes(chain[..k] + chain[k + 1..], m)
  {
    var rest := chain[..k] + chain[k + 1..];
    assert forall j :: 0 <= j < |rest| ==> rest[j] == chain[if j < k then j else j + 1];
    forall j | 0 <= j < |rest| ensures rest[j] < m {
      assert chain[if j < k then j else j + 1] != chain[k];
    }
    forall x: Node | x < m ensures InChain(rest, x) {
      assert InChain(chain, x);
      var j :| 0 <= j < |chain| && chain[j] == x;
      assert rest[if j < k then j else j - 1] == x;
    }
  }

  lemma OneSocket(sockets: seq<int>, chain: seq<Node>, k: nat)
    requires AllNodes(chain, |sockets|) && sockets != [] && k < |chain| && chain[k] == |sockets| - 1
    ensures var m := |sockets| - 1; var rest := chain[..k] + chain[k + 1..];
            && (forall j :: 0 <= j < |rest| ==> rest[j] < m)
            && multiset(SocketsAt(sockets, chain)) == multiset(SocketsAt(sockets[..m], rest)) + multiset{sockets[m]}
  {
    hide InChain;
    var m := |sockets| - 1;
    var rest := chain[..k] + chain[k + 1..];
    WithoutLast(chain, m, k);
    assert forall j :: 0 <= j < |rest| ==> rest[j] < m;
    SocketsWithout(sockets, chain, k, rest);
    OneTaken(SocketsAt(sockets, chain), k);
  }

  lemma SocketsWithout(sockets: seq<int>, chain: seq<Node>, k: nat, rest: seq<Node>)
    requires k < |chain| && sockets != [] && (forall j :: 0 <= j < |chain| ==> chain[j] < |sockets|)
    requires rest == chain[..k] + chain[k + 1..] && forall j :: 0 <= j < |rest| ==> rest[j] < |sockets| - 1
    ensures var all := SocketsAt(sockets, chain);
            SocketsAt(sockets[..|sockets| - 1], rest) == all[..k] + all[k + 1..]
  {
  }

  lemma OneTaken(all: seq<int>, k: nat)
    requires k < |all|
    ensures multiset(all) == multiset(all[..k] + all[k + 1..]) + multiset{all[k]}
  {
    assert all == all[..k] + ([all[k]] + all[k + 1..]);
  }

  /** A list of all nodes, each once, has all sockets, each once. */
  lemma {:induction false} AllSockets(sockets: seq<int>, chain: seq<Node>)
    requires AllNodes(chain, |sockets|)
    ensures multiset(SocketsAt(sockets, chain)) == multiset(sockets)
    decreases |sockets|
  {
    if sockets == [] {
      FewEnough(chain, 0);
    } else {
      var m := |sockets| - 1;
      assert InChain(chain, m);
      var k :| 0 <= k < |chain| && chain[k] == m;
      WithoutLast(chain, m, k);
      OneSocket(sockets, chain, k);
      AllSockets(sockets[..m], chain[..k] + chain[k + 1..]);
      assert sockets == sockets[..m] + [sockets[m]];
    }
  }

  lemma NoneOwned(s: State, n: Node)
    requires Busy(s.pcs) == 0
    ensures !Owned(s, n)
  {
    forall i | 0 <= i < |s.pcs| ensures s.pcs[i].Idle? { BusyUpdate(s.pcs, i, Idle); }
  }

  /** The nodes of a safe list are different ones that were allocated. */
  lemma ListedNodes(s: State)
    requires Safe(s)
    ensures forall j :: 0 <= j < |Listed(s)| ==> Listed(s)[j] < |s.next|
    ensures forall i, j :: 0 <= i < j < |Listed(s)| ==> Listed(s)[i] != Listed(s)[j]
    ensures |s.next| == |s.sockets|
  {
    hide Listed;
    var chain, p :| Inv(s, chain, p);
    ListedIs(s, chain, p);
  }

  /** Conservation: with no call under way, the sockets listed are those of the start and those of the
      calls let in, each as often as it was given. */
  lemma ClientsConserved(sockets: seq<int>, k: nat, actions: seq<Action>)
    requires 1 <= |sockets| <= MAX_CLIENT_COUNT && 1 <= k && Threads(actions, k)
    requires Busy(Run(Init(sockets, k), actions).pcs) == 0
    ensures var s0 := Init(sockets, k); var r := Run(s0, actions);
            && (forall j :: 0 <= j < |Listed(r)| ==> Listed(r)[j] < |r.sockets|)
            && multiset(SocketsAt(r.sockets, Listed(r))) == multiset(sockets) + multiset(Accepted(s0, actions))
  {
    hide Safe, Run, Listed, WellListed, Owned, Serving;
    var r := Run(Init(sockets, k), actions);
    RunSafe(sockets, k, actions);
    RunServes(sockets, k, actions);
    RunAccounts(sockets, k, actions);
    ListedNodes(r);
    forall n: Node | n < |r.sockets| ensures InChain(Listed(r), n) { NoneOwned(r, n); }
    AllSockets(r.sockets, Listed(r));
  }
}
