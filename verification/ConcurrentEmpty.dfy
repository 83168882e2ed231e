/** AddClient from an empty list: a thread alone adds every client it lets in, but two threads that both
    find the list empty each start a list of their own, and the client of the first is lost. */
module ConcurrentEmpty {
  import opened Wrappers
  import opened WorkerLimits
  import opened ConcurrentAdd
  import opened ConcurrentCalls

  function Idlers(k: nat): (r: seq<Pc>)
    ensures |r| == k && forall i :: 0 <= i < k ==> r[i] == Idle
  {
    seq(k, i requires 0 <= i < k => Idle)
  }

  /** No client, k threads between calls. */
  function Empty(k: nat): State {
    State([], [], None, None, 0, Idlers(k))
  }

  // ---- one thread ------------------------------------------------------------------------------

  predicate Links(s: State, r: State, i: nat)
    requires i < |s.pcs| && i < |r.pcs|
  {
    IsUncounted(r.pcs[i]) && !IsUncounted(s.pcs[i])
  }

  lemma GrowsBy(s: State, chain: seq<Node>, p: int, a: Action, chain': seq<Node>, p': int)
    requires Inv(s, chain, p) && a.thread < |s.pcs| && Inv(Step(s, a), chain', p')
    ensures var r := Step(s, a);
            && |r.pcs| == |s.pcs| && |chain'| == |chain| + (if Links(s, r, a.thread) then 1 else 0)
            && (Links(s, r, a.thread) ==> !InChain(chain, r.pcs[a.thread].node))
  {
    hide Chained;
    var i, r := a.thread, Step(s, a);
    Facts(s, chain, p, a);
    assert PcOk(s.next, chain, p, s.pcs[i]);
    assert r.pcs == s.pcs[i := r.pcs[i]];
    UncountedUpdate(s.pcs, i, r.pcs[i]);
  }

  lemma NewIsLast(chain: seq<Node>, longer: seq<Node>, n: Node)
    requires chain <= longer && |longer| == |chain| + 1 && InChain(longer, n) && !InChain(chain, n)
    ensures longer == chain + [n]
  {
    forall j | 0 <= j < |chain| ensures longer[j] != n { assert chain[j] == longer[j]; }
  }

  /** A list grows exactly by the step that links a node, and by that node. */
  lemma StepListed(s: State, a: Action)
    requires Safe(s) && a.thread < |s.pcs| && |s.next| == |s.sockets|
    ensures var i, r := a.thread, Step(s, a);
            && |r.pcs| == |s.pcs|
            && Listed(r) == Listed(s) + (if Links(s, r, i) then [r.pcs[i].node] else [])
  {
    hide Listed, Inv, Step;
    var i, r := a.thread, Step(s, a);
    var chain, p :| Inv(s, chain, p);
    var chain', p' := StepKeeps(s, chain, p, a);
    GrowsBy(s, chain, p, a, chain', p');
    ListedIs(s, chain, p);
    ListedIs(r, chain', p');
    assert Safe(r);
    if Links(s, r, i) {
      LinkedIsListed(r, i);
      NewIsLast(chain, chain', r.pcs[i].node);
    }
  }

  /** The only thread adds the first client. */
  predicate Starting(s: State, accepted: seq<int>) {
    if accepted == [] then s == Empty(1)
    else
      var a := accepted[0];
      && |accepted| == 1
      && (|| s == State([None], [a], None, None, 0, [Loading(0)])
          || s == State([None, None], [a, a], None, None, 0, [Resetting(1, 0)])
          || s == State([None, None], [a, a], Some(1), None, 0, [Resetting(1, 1)])
          || s == State([None, None], [a, a], Some(1), Some(1), 0, [Resetting(1, 2)]))
  }

  /** The clients let in are listed, but for the one whose node the thread has not linked yet. */
  ghost predicate Following(s: State, accepted: seq<int>) {
    && Safe(s) && |s.pcs| == 1 && |s.next| == |s.sockets|
    && (forall j :: 0 <= j < |Listed(s)| ==> Listed(s)[j] < |s.sockets|)
    && var pc := s.pcs[0];
    if pc.Idle? || IsUncounted(pc) then accepted == SocketsAt(s.sockets, Listed(s))
    else pc.node < |s.sockets| && accepted == SocketsAt(s.sockets, Listed(s)) + [s.sockets[pc.node]]
  }

  lemma FirstSettles(a: int)
    ensures Following(State([None, None], [a, a], Some(1), Some(1), 1, [Idle]), [a])
  {
    var s := State([None, None], [a, a], Some(1), Some(1), 1, [Idle]);
    var chain: seq<Node> := [1];
    assert Busy(s.pcs) == 0 && Uncounted(s.pcs) == 0;
    assert InChain(chain, 1) by { assert chain[0] == 1; }
    assert Inv(s, chain, 0);
    ListedIs(s, chain, 0);
  }

  lemma FollowingStep(s: State, accepted: seq<int>, a: Action)
    requires Following(s, accepted) && a.thread == 0
    ensures Following(Step(s, a), accepted + if LetIn(s, a) then [a.socket] else [])
  {
    hide Safe, Listed;
    var r := Step(s, a);
    SafeStep(s, a);
    StepListed(s, a);
    StepSockets(s, a);
    NeverResets(s);
    ListedNodes(r);
    var before, after := SocketsAt(s.sockets, Listed(s)), SocketsAt(r.sockets, Listed(r));
    assert after[..|before|] == before;
    assert |Listed(r)| == |Listed(s)| ==> after == before;
    assert |Listed(r)| == |Listed(s)| + 1 ==> after == before + [r.sockets[r.pcs[0].node]];
  }

  lemma EmptyStarts()
    ensures Starting(Empty(1), [])
  {
  }

  lemma StartingStep(s: State, accepted: seq<int>, a: Action)
    requires Starting(s, accepted) && a.thread == 0
    ensures |s.pcs| == 1 && |s.next| == |s.sockets|
    ensures var more := accepted + if LetIn(s, a) then [a.socket] else [];
            Starting(Step(s, a), more) || Following(Step(s, a), more)
  {
    hide Safe, Listed, Following;
    var r := Step(s, a);
    var none: Option<Node> := None;
    if accepted == [] {
      assert Idlers(1) == [Idle];
      assert r == State([none], [a.socket], None, None, 0, [Loading(0)]);
      assert accepted + [a.socket] == [a.socket];
    } else {
      var x := accepted[0];
      assert accepted == [x] && accepted + [] == [x];
      FirstSettles(x);
      if s.pcs[0].Loading? {
        assert r == State([none, none], [x, x], None, None, 0, [Resetting(1, 0)]);
      } else if s.pcs[0].stage == 0 {
        assert r == State([none, none], [x, x], Some(1), None, 0, [Resetting(1, 1)]);
      } else if s.pcs[0].stage == 1 {
        assert r == State([none, none], [x, x], Some(1), Some(1), 0, [Resetting(1, 2)]);
      } else {
        assert r == State([none, none], [x, x], Some(1), Some(1), 1, [Idle]);
      }
    }
  }

  lemma {:induction false} OneThread(actions: seq<Action>)
    requires Threads(actions, 1)
    ensures var s0 := Empty(1); var r, accepted := Run(s0, actions), Accepted(s0, actions);
            Starting(r, accepted) || Following(r, accepted)
  {
    hide Safe, Listed, Following, Starting, Step;
    if actions == [] {
      EmptyStarts();
    } else {
      var front, last := actions[..|actions| - 1], actions[|actions| - 1];
      OneThread(front);
      var s, accepted := Run(Empty(1), front), Accepted(Empty(1), front);
      if Starting(s, accepted) {
        StartingStep(s, accepted, last);
      } else {
        FollowingStep(s, accepted, last);
      }
    }
  }

  // ---- two threads -----------------------------------------------------------------------------

  /** Threads 0 and 1 at these places, the others between calls. */
  function At(k: nat, next: seq<Option<Node>>, sockets: seq<int>, head: Option<Node>, tail: Option<Node>, count: int, a: Pc, b: Pc): State
    requires 2 <= k
  {
    State(next, sockets, head, tail, count, Idlers(k)[0 := a][1 := b])
  }

  lemma RunMore(s: State, actions: seq<Action>, a: Action)
    requires Threads(actions, |s.pcs|) && |s.next| == |s.sockets| && a.thread < |s.pcs|
    ensures Threads(actions + [a], |s.pcs|) && Run(s, actions + [a]) == Step(Run(s, actions), a)
    ensures Accepted(s, actions + [a]) == Accepted(s, actions) + if LetIn(Run(s, actions), a) then [a.socket] else []
  {
    assert (actions + [a])[..|actions|] == actions;
  }

  /** Both find no tail before either stores one. */
  lemma BothStart(k: nat, x: int, y: int) returns (actions: seq<Action>)
    requires 2 <= k
    ensures Threads(actions, k) && Accepted(Empty(k), actions) == [x, y]
    ensures Run(Empty(k), actions)
         == At(k, [None, None, None, None], [x, y, x, y], None, None, 0, Resetting(2, 0), Resetting(3, 0))
  {
    var s := Empty(k);
    assert Idlers(k)[0 := Idle][1 := Idle] == Idlers(k);
    actions := [];
    RunMore(s, actions, Action(0, x, false));
    actions := actions + [Action(0, x, false)];
    assert Run(s, actions) == At(k, [None], [x], None, None, 0, Loading(0), Idle) by { assert Idlers(k)[0 := Loading(0)][1 := Idle] == Idlers(k)[0 := Loading(0)]; }
    RunMore(s, actions, Action(1, y, false));
    actions := actions + [Action(1, y, false)];
    assert Run(s, actions) == At(k, [None, None], [x, y], None, None, 0, Loading(0), Loading(1));
    RunMore(s, actions, Act(0));
    actions := actions + [Act(0)];
    assert Run(s, actions) == At(k, [None, None, None], [x, y, x], None, None, 0, Resetting(2, 0), Loading(1));
    RunMore(s, actions, Act(1));
    actions := actions + [Act(1)];
  }

  /** The one that stores last has the list for itself. */
  lemma FirstIsLost(k: nat, x: int, y: int) returns (actions: seq<Action>)
    requires 2 <= k
    ensures Threads(actions, k) && Accepted(Empty(k), actions) == [x, y]
    ensures Run(Empty(k), actions) == At(k, [None, None, None, None], [x, y, x, y], Some(3), Some(3), 1, Idle, Idle)
  {
    hide Accepted;
    var s := Empty(k);
    actions := BothStart(k, x, y);
    actions := Thrice(s, actions, 0);
    assert Run(s, actions) == At(k, [None, None, None, None], [x, y, x, y], Some(2), Some(2), 1, Idle, Resetting(3, 0));
    actions := Thrice(s, actions, 1);
  }

  lemma Thrice(s: State, actions: seq<Action>, i: nat) returns (more: seq<Action>)
    requires Threads(actions, |s.pcs|) && |s.next| == |s.sockets| && i < |s.pcs|
    requires Run(s, actions).pcs[i].Resetting? && Run(s, actions).pcs[i].stage == 0
    ensures Threads(more, |s.pcs|) && Accepted(s, more) == Accepted(s, actions)
    ensures var r := Run(s, actions); var n := r.pcs[i].node;
            Run(s, more) == r.(head := Some(n), tail := Some(n), count := 1, pcs := r.pcs[i := Idle])
  {
    var r := Run(s, actions);
    RunMore(s, actions, Act(i));
    more := actions + [Act(i)];
    RunMore(s, more, Act(i));
    more := more + [Act(i)];
    RunMore(s, more, Act(i));
    more := more + [Act(i)];
    var n := r.pcs[i].node;
    assert r.pcs[i := Resetting(n, 1)][i := Resetting(n, 2)][i := Idle] == r.pcs[i := Idle];
  }

  /** Of two clients let in one is listed. */
  lemma TwoThreadsLose(k: nat, x: int, y: int) returns (actions: seq<Action>)
    requires 2 <= k
    ensures Threads(actions, k) && Accepted(Empty(k), actions) == [x, y]
    ensures var r := Run(Empty(k), actions); Busy(r.pcs) == 0 && Listed(r) == [3] && |r.sockets| == 4 && r.sockets[3] == y && r.count == 1
  {
    hide Run, Accepted;
    actions := FirstIsLost(k, x, y);
    var r := Run(Empty(k), actions);
    assert r.next[3] == None && r.head == Some(3);
    NoneBusy(r.pcs);
    assert Walk(r.next, None, 3) == [];
    assert Walk(r.next, Some(3), 4) == [3];
  }

  /** What is let in from an empty list is listed, with no call under way, in every interleaving exactly if
      there is only one thread. */
  lemma EmptyKeptExactly(k: nat)
    requires 1 <= k
    ensures (forall actions :: Threads(actions, k) && Busy(Run(Empty(k), actions).pcs) == 0 ==>
               |Listed(Run(Empty(k), actions))| == |Accepted(Empty(k), actions)|)
            <==> k == 1
  {
    hide Run, Listed, Accepted;
    if k == 1 {
      forall actions | Threads(actions, k) && Busy(Run(Empty(k), actions).pcs) == 0
        ensures |Listed(Run(Empty(k), actions))| == |Accepted(Empty(k), actions)|
      {
        OneThread(actions);
        IdleIsListed(Run(Empty(k), actions), Accepted(Empty(k), actions));
      }
    } else {
      var actions := TwoThreadsLose(k, 7, 8);
      assert |Listed(Run(Empty(k), actions))| == 1;
    }
  }

  lemma IdleIsListed(s: State, accepted: seq<int>)
    requires (Starting(s, accepted) || Following(s, accepted)) && Busy(s.pcs) == 0
    ensures |Listed(s)| == |accepted|
  {
    hide Safe;
    if Following(s, accepted) {
      BusyUpdate(s.pcs, 0, Idle);
      assert s.pcs[0].Idle?;
    }
  }
}
