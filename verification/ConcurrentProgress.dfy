/** What helping is for: wherever the other threads stand still, a thread that is left alone and whose
    compare-exchanges do not fail spuriously finishes its call, and its client is listed. */
module ConcurrentProgress {
  import opened Wrappers
  import opened WorkerLimits
  import opened ConcurrentAdd
  import opened ConcurrentCalls

  /** Thread i alone takes up to n steps, until its call is over. */
  function Alone(s: State, i: nat, n: nat): State
    requires i < |s.pcs| && |s.next| == |s.sockets|
    decreases n
  {
    if n == 0 || s.pcs[i].Idle? then s
    else
      var r := Step(s, Act(i));
      if i < |r.pcs| && |r.next| == |r.sockets| then Alone(r, i, n - 1) else r
  }

  /** _tail is not at the last node. */
  predicate Lags(s: State) {
    s.tail.Some? && s.tail.value < |s.next| && s.next[s.tail.value].Some?
  }

  function FromLoading(s: State): nat {
    if Lags(s) then 10 else 6
  }

  /** The number of steps a thread alone has left. */
  function StepsLeft(s: State, pc: Pc): (r: nat)
    ensures r <= 12
  {
    match pc
    case Idle => 0
    case Loading(_) => FromLoading(s)
    case Resetting(_, _) => 0
    case GotTail(_, t) => if s.tail != Some(t) then 2 + FromLoading(s) else if Lags(s) then 9 else 5
    case GotNext(_, t, x) =>
      if s.tail != Some(t) then 1 + FromLoading(s) else if x.Some? then 8 else if Lags(s) then 12 else 4
    case Linking(_, t) => if t < |s.next| && s.next[t] == None then 3 else 1 + FromLoading(s)
    case Helping(_, t, _) => if s.tail == Some(t) then 7 else 1 + FromLoading(s)
    case Swinging(_, _) => 2
    case Counting(_) => 1
  }

  /** Helping brings _tail to the last node. */
  lemma HelpingCatchesUp(s: State, i: nat)
    requires Safe(s) && i < |s.pcs| && s.pcs[i].Helping? && s.tail == Some(s.pcs[i].tail)
    ensures var y := s.pcs[i].after; y < |s.next| && s.next[y] == None
  {
    var chain, p :| Inv(s, chain, p);
    assert PcOk(s.next, chain, p, s.pcs[i]);
    var k :| 0 <= k < |chain| - 1 && k <= p && chain[k] == s.pcs[i].tail && chain[k + 1] == s.pcs[i].after;
    assert chain[p] == chain[k];
  }

  lemma TailsAreNodes(s: State, i: nat)
    requires Safe(s) && i < |s.pcs|
    ensures s.tail.Some? && s.tail.value < |s.next|
    ensures s.pcs[i].GotTail? || s.pcs[i].Linking? ==> s.pcs[i].tail < |s.next|
  {
    var chain, p :| Inv(s, chain, p);
    assert PcOk(s.next, chain, p, s.pcs[i]);
  }

  /** Every step of a thread alone brings it nearer to the end of its call. */
  lemma StepNearer(s: State, i: nat)
    requires Safe(s) && i < |s.pcs| && |s.next| == |s.sockets| && !s.pcs[i].Idle?
    ensures var r := Step(s, Act(i)); |r.pcs| == |s.pcs| && StepsLeft(r, r.pcs[i]) < StepsLeft(s, s.pcs[i])
  {
    hide Safe;
    NeverResets(s);
    TailsAreNodes(s, i);
    if s.pcs[i].Helping? && s.tail == Some(s.pcs[i].tail) { HelpingCatchesUp(s, i); }
  }

  /** From here on the thread brings _tail to the end: it has a node to link, or is about to move _tail to
      the node it linked, or that is done. */
  predicate CatchesUp(s: State, pc: Pc) {
    match pc
    case Idle => !Lags(s)
    case Counting(_) => !Lags(s)
    case Swinging(n, t) => s.tail == Some(t) && n < |s.next| && s.next[n] == None
    case _ => true
  }

  lemma NotBehind(s: State, i: nat)
    requires i < |s.pcs|
    ensures s.pcs[i].Idle? ==> (CatchesUp(s, s.pcs[i]) <==> !Lags(s))
    ensures !s.pcs[i].Idle? && !IsUncounted(s.pcs[i]) ==> CatchesUp(s, s.pcs[i])
  {
  }

  lemma LinkedBehindTail(s: State, i: nat)
    requires Safe(s) && i < |s.pcs| && s.pcs[i].Linking?
    ensures var Linking(n, t) := s.pcs[i];
            n < |s.next| && s.next[n] == None && t < |s.next| && (s.next[t] == None ==> s.tail == Some(t) && n != t)
  {
    var chain, p :| Inv(s, chain, p);
    var Linking(n, t) := s.pcs[i];
    assert PcOk(s.next, chain, p, s.pcs[i]);
    Successor(s, chain, p, t);
    if s.next[t] == None { AtLast(chain, p, t); }
  }

  lemma StepCatchesUp(s: State, i: nat)
    requires Safe(s) && i < |s.pcs| && |s.next| == |s.sockets| && !s.pcs[i].Idle? && CatchesUp(s, s.pcs[i])
    ensures var r := Step(s, Act(i)); |r.pcs| == |s.pcs| && CatchesUp(r, r.pcs[i])
  {
    hide Safe;
    NeverResets(s);
    if s.pcs[i].Linking? { LinkedBehindTail(s, i); }
  }

  lemma {:induction false} AloneEnds(s: State, i: nat, n: nat)
    requires Safe(s) && i < |s.pcs| && |s.next| == |s.sockets| && StepsLeft(s, s.pcs[i]) <= n
    ensures var r := Alone(s, i, n);
            && |r.pcs| == |s.pcs| && r.pcs[i] == Idle && r.sockets == s.sockets && Safe(r) && Listed(s) <= Listed(r)
            && (forall j :: 0 <= j < |s.pcs| && j != i ==> r.pcs[j] == s.pcs[j])
            && (!s.pcs[i].Idle? ==> InChain(Listed(r), s.pcs[i].node))
            && (CatchesUp(s, s.pcs[i]) ==> !Lags(r))
    decreases n
  {
    hide Safe, Listed, Step, StepsLeft, InChain, CatchesUp;
    NotBehind(s, i);
    if !s.pcs[i].Idle? {
      var r := Step(s, Act(i));
      StepNearer(s, i);
      SafeStep(s, Act(i));
      SafeSizes(r);
      StepSockets(s, Act(i));
      if CatchesUp(s, s.pcs[i]) { StepCatchesUp(s, i); }
      AloneEnds(r, i, n - 1);
      if r.pcs[i].Idle? {
        LastIsCounting(s, i);
        LinkedIsListed(s, i);
        StillListed(Listed(s), Listed(r), s.pcs[i].node);
      }
    }
  }

  lemma SafeSizes(s: State)
    requires Safe(s)
    ensures |s.next| == |s.sockets|
  {
    var chain, p :| Inv(s, chain, p);
  }

  lemma LastIsCounting(s: State, i: nat)
    requires Safe(s) && i < |s.pcs| && |s.next| == |s.sockets| && !s.pcs[i].Idle?
    requires |Step(s, Act(i)).pcs| == |s.pcs| && Step(s, Act(i)).pcs[i].Idle?
    ensures IsUncounted(s.pcs[i])
  {
    hide Safe;
    NeverResets(s);
  }

  lemma StillListed(before: seq<Node>, after: seq<Node>, n: Node)
    requires before <= after && InChain(before, n)
    ensures InChain(after, n)
  {
    var k :| 0 <= k < |before| && before[k] == n;
    assert after[k] == n;
  }

  /** In every interleaving, wherever it has come to: a thread in a call that from then on runs alone has
      finished it within twelve steps, whatever the others left half-done, and its socket is listed; if it
      linked its node on the way, _tail is at the end of the list then. */
  lemma AloneFinishes(sockets: seq<int>, k: nat, actions: seq<Action>, i: nat)
    requires 1 <= |sockets| <= MAX_CLIENT_COUNT && 1 <= k && Threads(actions, k) && i < k
    requires !Run(Init(sockets, k), actions).pcs[i].Idle?
    ensures var s0 := Init(sockets, k); var r := Alone(Run(s0, actions), i, 12);
            && i < |r.pcs| && r.pcs[i] == Idle
            && (!IsUncounted(Run(s0, actions).pcs[i]) ==> !Lags(r))
            && exists n: Node :: InChain(Listed(r), n) && n < |r.sockets| && Some(r.sockets[n]) == CallOf(s0, actions, i)
  {
    hide Safe, WellListed, Listed, InChain, CallOf, Alone, StepsLeft;
    var s0 := Init(sockets, k);
    var s := Run(s0, actions);
    RunServes(sockets, k, actions);
    RunSafe(sockets, k, actions);
    NotBehind(s, i);
    AloneEnds(s, i, 12);
    var r := Alone(s, i, 12);
    assert Serving(s, i, CallOf(s0, actions, i));
    assert InChain(Listed(r), s.pcs[i].node);
  }
}
