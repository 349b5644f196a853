/** What the dequeues of the CAS queue return: the CAS on head decides which value it will be,
    and the read of that value comes later. */
module CasQueueReturns {
  import opened Basics
  import opened CasQueue
  import opened CasQueueRuns

  /** v is the value of node n, and thread t holds n to return it, or it has been returned. */
  predicate ReturnsValue(s: State, n: Node, t: nat, v: int) {
    && n in s.value && s.value[n] == v
    && if n in s.results then s.results[n] == v else t < |s.threads| && s.threads[t] == DReturn(n)
  }

  /** So it is with the k-th node taken and the thread that took it. */
  predicate Settled(s: State, k: nat)
    requires k < |s.taken| == |s.takers|
  {
    s.taken[k] in s.value && ReturnsValue(s, s.taken[k], s.takers[k], s.value[s.taken[k]])
  }

  predicate IsTaken(s: State, n: Node) {
    n in s.place && s.place[n].Linked? && s.place[n].k < |s.taken|
  }

  predicate Returns(s: State) {
    && |s.takers| == |s.taken|
    && (forall k :: 0 <= k < |s.taken| ==> Settled(s, k))
    && (forall n :: n in s.results ==> IsTaken(s, n))
    && (forall t :: 0 <= t < |s.threads| && s.threads[t].DReturn? ==> Holds(s, t, s.threads[t].p))
  }

  predicate Holds(s: State, t: nat, n: Node)
    requires |s.takers| == |s.taken|
  {
    IsTaken(s, n) && s.takers[s.place[n].k] == t && n !in s.results
  }

  /** A linked node is where its place says, so two taken nodes are the same only at the same
      position. */
  lemma TakenAt(s: State, k: nat)
    requires Inv(s) && k < |s.taken|
    ensures s.taken[k] == s.chain[k] && IsTaken(s, s.taken[k]) && s.place[s.taken[k]] == Linked(k)
  {
    assert LinkAt(s, k);
  }

  lemma PlaceOfTaken(s: State, n: Node)
    requires Inv(s) && IsTaken(s, n)
    ensures s.taken[s.place[n].k] == n
  {
    assert InPlace(s, n, s.place[n]);
  }

  lemma StepKeepsReturns(s: State, step: Step)
    requires Inv(s) && Returns(s) && Can(s, step)
    ensures Returns(Next(s, step))
  {
    if step.Enqueue? {
      AllocKeepsReturns(s, step);
    } else if step.Execute? && s.threads[step.t].ELink? && s.next[s.threads[step.t].p] == None {
      LinkKeepsReturns(s, step.t);
    } else if step.Execute? && s.threads[step.t].DSwing? && s.head == Some(s.threads[step.t].p) {
      TakeKeepsReturns(s, step.t);
    } else if step.Execute? && s.threads[step.t].DReturn? {
      ReturnKeepsReturns(s, step.t);
    } else {
      OthersKeepReturns(s, Next(s, step), step.t);
    }
  }

  lemma AllocKeepsReturns(s: State, step: Step)
    requires Inv(s) && Returns(s) && Can(s, step) && step.Enqueue?
    ensures Returns(Next(s, step))
  {
    var s' := Next(s, step);
    forall k | 0 <= k < |s'.taken| ensures Settled(s', k) {
      assert Settled(s, k);
    }
    forall t | 0 <= t < |s'.threads| && s'.threads[t].DReturn? ensures Holds(s', t, s'.threads[t].p) {
      assert Holds(s, t, s.threads[t].p);
    }
  }

  lemma LinkKeepsReturns(s: State, t: nat)
    requires Inv(s) && Returns(s) && Can(s, Execute(t)) && s.threads[t].ELink?
    requires s.next[s.threads[t].p] == None
    ensures Returns(Statement(s, t))
  {
    var s' := Statement(s, t);
    assert Remembers(s, t, s.threads[t]);
    forall k | 0 <= k < |s'.taken| ensures Settled(s', k) {
      assert Settled(s, k);
    }
    forall u | 0 <= u < |s'.threads| && s'.threads[u].DReturn? ensures Holds(s', u, s'.threads[u].p) {
      assert Holds(s, u, s.threads[u].p);
    }
  }

  /** The node taken is new, so nothing has been returned for it. */
  lemma TakeKeepsReturns(s: State, t: nat)
    requires Inv(s) && Returns(s) && Can(s, Execute(t)) && s.threads[t].DSwing?
    requires s.head == Some(s.threads[t].p)
    ensures Returns(Statement(s, t))
  {
    var s', p := Statement(s, t), s.threads[t].p;
    TakeKeepsInv(s, t);
    assert LinkAt(s, |s.taken|);
    assert p !in s.results;
    forall k | 0 <= k < |s'.taken| ensures Settled(s', k) {
      if k < |s.taken| { assert Settled(s, k); }
    }
    forall u | 0 <= u < |s'.threads| && s'.threads[u].DReturn? ensures Holds(s', u, s'.threads[u].p) {
      if u != t { assert Holds(s, u, s.threads[u].p); }
    }
  }

  lemma ReturnKeepsReturns(s: State, t: nat)
    requires Inv(s) && Returns(s) && Can(s, Execute(t)) && s.threads[t].DReturn?
    ensures Returns(Statement(s, t))
  {
    var s', p := Statement(s, t), s.threads[t].p;
    assert Holds(s, t, p);
    PlaceOfTaken(s, p);
    forall k | 0 <= k < |s'.taken| ensures Settled(s', k) {
      assert Settled(s, k);
      TakenAt(s, k);
    }
    forall u | 0 <= u < |s'.threads| && s'.threads[u].DReturn? ensures Holds(s', u, s'.threads[u].p) {
      assert Holds(s, u, s.threads[u].p);
    }
  }

  lemma OthersKeepReturns(s: State, s': State, t: nat)
    requires Inv(s) && Returns(s) && t < |s.threads|
    requires s'.taken == s.taken && s'.takers == s.takers && s'.results == s.results
    requires s'.value == s.value && s'.place == s.place
    requires |s'.threads| == |s.threads| && s'.threads == s.threads[t := s'.threads[t]]
    requires !s.threads[t].DReturn? && !s'.threads[t].DReturn?
    ensures Returns(s')
  {
    forall k | 0 <= k < |s'.taken| ensures Settled(s', k) {
      assert Settled(s, k);
    }
    forall u | 0 <= u < |s'.threads| && s'.threads[u].DReturn? ensures Holds(s', u, s'.threads[u].p) {
      assert Holds(s, u, s.threads[u].p);
    }
  }

  // ----------------------------------------------------------- values dequeued

  /** The values of the dequeues of a history, in their order. */
  function Dequeues(events: seq<Event>): seq<int> {
    if events == [] then []
    else (if events[0].Dequeued? then [events[0].v] else []) + Dequeues(events[1..])
  }

  lemma StepDequeues(s: State, step: Step)
    requires Inv(s) && Can(s, step)
    ensures Values(Next(s, step).value, Next(s, step).taken)
         == Values(s.value, s.taken) + Dequeues([EventOf(s, step)])
  {
    var s' := Next(s, step);
    TakenHasValues(s);
    if step.Execute? && s.threads[step.t].DSwing? && s.head == Some(s.threads[step.t].p) {
      TakeKeepsInv(s, step.t);
      var p := s.threads[step.t].p;
      assert LinkAt(s, |s.taken|);
      assert EventOf(s, step) == Dequeued(s.value[p]);
      ValuesOfMore(s.value, s.taken, p);
    } else {
      assert s'.taken == s.taken;
      ValuesSame(s.value, s'.value, s.taken);
    }
  }

  lemma TakenHasValues(s: State)
    requires Inv(s)
    ensures forall k :: 0 <= k < |s.taken| ==> s.taken[k] in s.value
  {
    ChainHasValues(s);
    assert forall k :: 0 <= k < |s.taken| ==> s.taken[k] == s.chain[k];
  }

  lemma ValuesOfMore(value: map<Node, int>, nodes: seq<Node>, n: Node)
    requires n in value
    ensures Values(value, nodes + [n]) == Values(value, nodes) + [value[n]]
  {
  }

  lemma ValuesSame(value: map<Node, int>, value': map<Node, int>, nodes: seq<Node>)
    requires forall n :: n in nodes ==> n in value && n in value' && value'[n] == value[n]
    ensures Values(value', nodes) == Values(value, nodes)
  {
  }

  lemma {:induction false} RunKeepsReturns(s: State, steps: seq<Step>)
    requires Inv(s) && Returns(s) && Runs(s, steps)
    ensures Inv(Run(s, steps)) && Returns(Run(s, steps))
    decreases |steps|
  {
    if steps != [] {
      KeepsInv(s, steps[0]);
      StepKeepsReturns(s, steps[0]);
      RunKeepsReturns(Next(s, steps[0]), steps[1..]);
    }
  }

  lemma DequeuesFirst(e: Event, events: seq<Event>)
    ensures Dequeues([e] + events) == Dequeues([e]) + Dequeues(events)
  {
    assert ([e] + events)[1..] == events;
    assert [e][1..] == [];
  }

  lemma {:induction false} RunDequeues(s: State, steps: seq<Step>)
    requires Inv(s) && Runs(s, steps)
    ensures Values(Run(s, steps).value, Run(s, steps).taken)
         == Values(s.value, s.taken) + Dequeues(Events(s, steps))
    decreases |steps|
  {
    if steps != [] {
      var s' := Next(s, steps[0]);
      KeepsInv(s, steps[0]);
      RunDequeues(s', steps[1..]);
      StepDequeues(s, steps[0]);
      DequeuesFirst(EventOf(s, steps[0]), Events(s', steps[1..]));
    }
  }

  /** In every run: the k-th dequeue in the linearization has a thread of its own that will
      return, or has returned, the value the linearization gives it. Nothing else is returned
      or about to be returned. */
  lemma ReturnsLinearizedValues(s0: State, steps: seq<Step>)
    requires Init(s0) && Runs(s0, steps)
    ensures var s, ds := Run(s0, steps), Dequeues(Events(s0, steps));
            && |ds| == |s.taken| == |s.takers|
            && (forall k :: 0 <= k < |ds| ==> ReturnsValue(s, s.taken[k], s.takers[k], ds[k]))
            && (forall n :: n in s.results ==> n in s.taken)
            && (forall t :: 0 <= t < |s.threads| && s.threads[t].DReturn? ==>
                  && s.threads[t].p !in s.results
                  && exists k :: 0 <= k < |ds| && s.taken[k] == s.threads[t].p && s.takers[k] == t)
  {
    InitHolds(s0);
    RunKeepsReturns(s0, steps);
    RunDequeues(s0, steps);
    var s, ds := Run(s0, steps), Dequeues(Events(s0, steps));
    assert Values(s.value, s.taken) == ds;
    forall k | 0 <= k < |ds| ensures ReturnsValue(s, s.taken[k], s.takers[k], ds[k]) {
      assert Settled(s, k);
    }
    forall n | n in s.results ensures n in s.taken { PlaceOfTaken(s, n); }
    forall t | 0 <= t < |s.threads| && s.threads[t].DReturn?
      ensures s.threads[t].p !in s.results
      ensures exists k :: 0 <= k < |ds| && s.taken[k] == s.threads[t].p && s.takers[k] == t
    {
      assert Holds(s, t, s.threads[t].p);
      PlaceOfTaken(s, s.threads[t].p);
    }
  }
}
