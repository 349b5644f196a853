/** Whole runs of the CAS queue. Every run is a linearizable first-in first-out queue with its
    links intact, also one that drains the queue; but once a dequeue has swung head to nil,
    head stays nil, what is enqueued then is lost, and the dequeues that follow fault. */
module CasQueueRuns {
  import opened Basics
  import opened CasQueue

  predicate Can(s: State, step: Step) { Enabled(s, step) && !Faults(s, s.threads[step.t]) }

  predicate Runs(s: State, steps: seq<Step>)
    decreases |steps|
  {
    steps == [] || (Can(s, steps[0]) && Runs(Next(s, steps[0]), steps[1..]))
  }

  function Run(s: State, steps: seq<Step>): State
    requires Runs(s, steps)
    decreases |steps|
  {
    if steps == [] then s else Run(Next(s, steps[0]), steps[1..])
  }

  /** No step of the run is the CAS to nil, as if dequeue tested the next field first. */
  predicate Guarded(s: State, steps: seq<Step>)
    requires Runs(s, steps)
    decreases |steps|
  {
    steps == [] || (!SwingsToNil(s, steps[0]) && Guarded(Next(s, steps[0]), steps[1..]))
  }

  // --------------------------------------------------------- linearization

  datatype Event = Enqueued(v: int) | Dequeued(v: int) | Nothing

  /** Where an operation takes effect: enqueue at its successful CAS on next, dequeue at its
      successful CAS on head, with the value it will return. */
  function EventOf(s: State, step: Step): Event
    requires Can(s, step)
  {
    if !step.Execute? then Nothing
    else
      match s.threads[step.t]
      case ELink(q, p) => if s.next[p] == None then Enqueued(s.value[q]) else Nothing
      case DSwing(p, _) =>
        if s.head == Some(p) && p in s.value then Dequeued(s.value[p]) else Nothing
      case _ => Nothing
  }

  function Events(s: State, steps: seq<Step>): seq<Event>
    requires Runs(s, steps)
    decreases |steps|
  {
    if steps == [] then [] else [EventOf(s, steps[0])] + Events(Next(s, steps[0]), steps[1..])
  }

  /** A plain queue; None if a dequeue returns anything but the oldest value. */
  function Fifo(queue: seq<int>, events: seq<Event>): Option<seq<int>>
    decreases |events|
  {
    if events == [] then Some(queue)
    else
      match events[0]
      case Nothing => Fifo(queue, events[1..])
      case Enqueued(v) => Fifo(queue + [v], events[1..])
      case Dequeued(v) => if queue != [] && queue[0] == v then Fifo(queue[1..], events[1..]) else None
  }

  function Values(value: map<Node, int>, nodes: seq<Node>): (vs: seq<int>)
    ensures |vs| == |nodes|
    ensures forall k :: 0 <= k < |vs| && nodes[k] in value ==> vs[k] == value[nodes[k]]
  {
    seq(|nodes|, k requires 0 <= k < |nodes| => if nodes[k] in value then value[nodes[k]] else 0)
  }

  /** The values from head on, along the links. */
  function Queue(s: State): seq<int> {
    if |s.taken| <= |s.chain| then Values(s.value, s.chain[|s.taken|..]) else []
  }

  lemma ChainHasValues(s: State)
    requires Inv(s)
    ensures forall k :: 0 <= k < |s.chain| ==> s.chain[k] in s.value
  {
    forall k | 0 <= k < |s.chain| ensures s.chain[k] in s.value { assert LinkAt(s, k); }
  }

  lemma LinkEnqueues(s: State, t: nat)
    requires Inv(s) && t < |s.threads| && s.threads[t].ELink?
    requires !Faults(s, s.threads[t]) && s.next[s.threads[t].p] == None
    ensures Queue(Statement(s, t)) == Queue(s) + [s.value[s.threads[t].q]]
  {
    QueueGrows(s.value, s.chain, |s.taken|, s.threads[t].q);
  }

  lemma QueueGrows(value: map<Node, int>, chain: seq<Node>, h: nat, q: Node)
    requires h <= |chain| && q in value
    ensures Values(value, (chain + [q])[h..]) == Values(value, chain[h..]) + [value[q]]
  {
    assert (chain + [q])[h..] == chain[h..] + [q];
  }

  lemma TakeDequeues(s: State, t: nat)
    requires Inv(s) && t < |s.threads| && s.threads[t].DSwing? && s.head == Some(s.threads[t].p)
    ensures s.threads[t].p in s.value
    ensures Queue(s) == [s.value[s.threads[t].p]] + Queue(Statement(s, t))
  {
    TakeKeepsInv(s, t);
    assert LinkAt(s, |s.taken|);
    QueueShrinks(s.value, s.chain, |s.taken|);
    QueueAt(s, |s.taken|);
    QueueAt(Statement(s, t), |s.taken| + 1);
  }

  lemma QueueAt(s: State, h: nat)
    requires h == |s.taken| <= |s.chain|
    ensures Queue(s) == Values(s.value, s.chain[h..])
  {
  }

  lemma QueueShrinks(value: map<Node, int>, chain: seq<Node>, h: nat)
    requires h < |chain| && chain[h] in value
    ensures Values(value, chain[h..]) == [value[chain[h]]] + Values(value, chain[h + 1..])
  {
    assert chain[h..] == [chain[h]] + chain[h + 1..];
  }

  lemma OthersKeepQueue(s: State, step: Step)
    requires Inv(s) && Can(s, step) && EventOf(s, step) == Nothing
    ensures Queue(Next(s, step)) == Queue(s)
  {
    ChainHasValues(s);
    var rest := s.chain[|s.taken|..];
    assert forall k :: 0 <= k < |rest| ==> rest[k] == s.chain[|s.taken| + k];
    if step.Enqueue? {
      assert Values(s.value[step.q := step.v], rest) == Values(s.value, rest);
    } else if step.Execute? {
      assert Remembers(s, step.t, s.threads[step.t]);
    }
  }

  lemma StepIsFifo(s: State, step: Step, events: seq<Event>)
    requires Inv(s) && Can(s, step)
    ensures Fifo(Queue(s), [EventOf(s, step)] + events) == Fifo(Queue(Next(s, step)), events)
  {
    var e := EventOf(s, step);
    assert ([e] + events)[1..] == events;
    if e.Enqueued? {
      LinkEnqueues(s, step.t);
    } else if e.Dequeued? {
      TakeDequeues(s, step.t);
      assert Queue(s)[1..] == Queue(Next(s, step));
    } else {
      OthersKeepQueue(s, step);
    }
  }

  lemma {:induction false} RunIsFifo(s: State, steps: seq<Step>)
    requires Inv(s) && Runs(s, steps)
    ensures Inv(Run(s, steps))
    ensures Fifo(Queue(s), Events(s, steps)) == Some(Queue(Run(s, steps)))
    decreases |steps|
  {
    if steps != [] {
      KeepsInv(s, steps[0]);
      StepIsFifo(s, steps[0], Events(Next(s, steps[0]), steps[1..]));
      RunIsFifo(Next(s, steps[0]), steps[1..]);
    }
  }

  // ------------------------------------------------------------ main results

  /** Linearizability: in every run, the operations in the order of their successful CASes are
      a run of a plain queue that starts with the value of the initial node, and the values of
      the linked nodes not dequeued are its contents. No node is dequeued twice. */
  lemma Linearizable(s0: State, steps: seq<Step>)
    requires Init(s0) && Runs(s0, steps)
    ensures var s := Run(s0, steps);
            && Fifo([s0.value[s0.chain[0]]], Events(s0, steps)) == Some(Queue(s))
            && (forall a, b :: 0 <= a < b < |s.taken| ==> s.taken[a] != s.taken[b])
  {
    InitHolds(s0);
    RunIsFifo(s0, steps);
    assert Queue(s0) == [s0.value[s0.chain[0]]];
    var s := Run(s0, steps);
    forall a, b | 0 <= a < b < |s.taken| ensures s.taken[a] != s.taken[b] {
      assert LinkAt(s, a) && LinkAt(s, b);
    }
  }

  /** The linked nodes are one nil-terminated chain; tail is the last of them, or the last but
      one exactly while one enqueuer is between its CASes; an enqueuer's saved p is a linked
      node at or before tail; and the CAS that swings tail is about to succeed. */
  predicate Structured(s: State) {
    && s.chain != []
    && (forall k :: 0 <= k < |s.chain| ==> s.chain[k] in s.next && s.next[s.chain[k]] == After(s.chain, k))
    && (s.swinger == None ==> s.tail == s.chain[|s.chain| - 1])
    && (s.swinger.Some? ==> |s.chain| >= 2 && s.tail == s.chain[|s.chain| - 2])
    && (forall t :: 0 <= t < |s.threads| ==> (s.threads[t].ESwing? <==> s.swinger == Some(t)))
    && (forall t :: 0 <= t < |s.threads| && s.threads[t].ESwing? ==> s.tail == s.threads[t].p)
    && (forall t :: 0 <= t < |s.threads| && s.threads[t].ELink? ==>
          s.threads[t].p in s.chain[..TailIndex(s) + 1])
  }

  lemma SavedNodeIsLinked(s: State, t: nat)
    requires Inv(s) && t < |s.threads| && s.threads[t].ELink?
    ensures s.threads[t].p in s.chain[..TailIndex(s) + 1]
  {
    var p := s.threads[t].p;
    assert Remembers(s, t, s.threads[t]);
    assert InPlace(s, p, s.place[p]);
    assert s.chain[..TailIndex(s) + 1][s.place[p].k] == p;
  }

  lemma InvIsStructured(s: State)
    requires Inv(s)
    ensures Structured(s)
  {
    forall k | 0 <= k < |s.chain| ensures s.chain[k] in s.next && s.next[s.chain[k]] == After(s.chain, k) {
      assert LinkAt(s, k);
    }
    forall t | 0 <= t < |s.threads|
      ensures s.threads[t].ESwing? <==> s.swinger == Some(t)
      ensures s.threads[t].ESwing? ==> s.tail == s.threads[t].p
    {
      assert Remembers(s, t, s.threads[t]);
    }
    forall t | 0 <= t < |s.threads| && s.threads[t].ELink?
      ensures s.threads[t].p in s.chain[..TailIndex(s) + 1]
    {
      SavedNodeIsLinked(s, t);
    }
  }

  /** Every reachable state is structured, and the threads that fault next are exactly those
      that read nil from head. */
  lemma StructureKept(s0: State, steps: seq<Step>)
    requires Init(s0) && Runs(s0, steps)
    ensures var s := Run(s0, steps);
            && Structured(s)
            && forall t :: 0 <= t < |s.threads| ==> (Faults(s, s.threads[t]) <==> s.threads[t] == DReadNext(None))
  {
    InitHolds(s0);
    RunIsFifo(s0, steps);
    var s := Run(s0, steps);
    InvIsStructured(s);
    forall t | 0 <= t < |s.threads|
      ensures Faults(s, s.threads[t]) <==> s.threads[t] == DReadNext(None)
    {
      FaultsIff(s, t);
    }
  }

  // ------------------------------------------------------------- losing head

  lemma {:induction false} HeadIff(s: State, steps: seq<Step>)
    requires Inv(s) && Runs(s, steps)
    ensures Run(s, steps).head.Some? <==> s.head.Some? && Guarded(s, steps)
    decreases |steps|
  {
    if steps != [] {
      KeepsInv(s, steps[0]);
      HeadIff(Next(s, steps[0]), steps[1..]);
    }
  }

  /** Head is kept exactly by the runs without a CAS to nil. In them head is the oldest node
      not dequeued, so the queue is never empty, and no thread faults. */
  lemma HeadKeptIff(s0: State, steps: seq<Step>)
    requires Init(s0) && Runs(s0, steps)
    ensures var s := Run(s0, steps);
            && (s.head.Some? <==> Guarded(s0, steps))
            && (Guarded(s0, steps) ==>
                  && |s.taken| < |s.chain| && s.head.value == s.chain[|s.taken|] && Queue(s) != []
                  && forall t :: 0 <= t < |s.threads| ==> !Faults(s, s.threads[t]))
  {
    InitHolds(s0);
    RunIsFifo(s0, steps);
    HeadIff(s0, steps);
    var s := Run(s0, steps);
    if Guarded(s0, steps) {
      forall t | 0 <= t < |s.threads| ensures !Faults(s, s.threads[t]) {
        FaultsIff(s, t);
        assert Remembers(s, t, s.threads[t]);
      }
    }
  }

  /** After a CAS to nil, in every continuation: head stays nil, nothing more is dequeued, so
      what is in the queue or enqueued later stays there, and a dequeue that stands before
      the next field of nil never gets past it. */
  lemma {:induction false} HeadLostForGood(s: State, steps: seq<Step>)
    requires Inv(s) && s.head == None && Runs(s, steps)
    ensures var s' := Run(s, steps);
            && s'.head == None && s'.taken == s.taken && Queue(s) <= Queue(s')
            && |s'.threads| == |s.threads|
            && forall t :: 0 <= t < |s.threads| && s.threads[t] == DReadNext(None) ==> s'.threads[t] == DReadNext(None)
    decreases |steps|
  {
    if steps != [] {
      KeepsInv(s, steps[0]);
      OnlyGrows(s, steps[0]);
      StuckStays(s, steps[0]);
      HeadLostForGood(Next(s, steps[0]), steps[1..]);
    }
  }

  lemma OthersStay(s: State, step: Step, u: nat)
    requires Enabled(s, step) && !Faults(s, s.threads[step.t]) && u < |s.threads| && u != step.t
    ensures |Next(s, step).threads| == |s.threads| && Next(s, step).threads[u] == s.threads[u]
  {
    if step.Execute? {
      match s.threads[step.t]
      case EReadTail(_) =>
      case ELink(_, _) =>
      case ESwing(_, _) =>
      case DReadHead =>
      case DReadNext(_) =>
      case DSwing(_, _) =>
      case DReturn(_) =>
    }
  }

  /** A dequeue that reads head now comes to stand before the next field of nil. */
  lemma StuckStays(s: State, step: Step)
    requires s.head == None && Can(s, step)
    ensures |Next(s, step).threads| == |s.threads|
    ensures forall t :: 0 <= t < |s.threads| && s.threads[t] == DReadNext(None) ==>
                          Next(s, step).threads[t] == DReadNext(None)
    ensures step.Execute? && s.threads[step.t] == DReadHead ==>
              Next(s, step).threads[step.t] == DReadNext(None)
  {
    forall t | 0 <= t < |s.threads| && s.threads[t] == DReadNext(None)
      ensures Next(s, step).threads[t] == DReadNext(None)
    {
      OthersStay(s, step, t);
    }
  }

  lemma OnlyGrows(s: State, step: Step)
    requires Inv(s) && s.head == None && Can(s, step)
    ensures Next(s, step).taken == s.taken && Queue(s) <= Queue(Next(s, step))
  {
    if EventOf(s, step).Enqueued? {
      LinkEnqueues(s, step.t);
    } else {
      OthersKeepQueue(s, step);
    }
  }

  /** Such a run: one thread dequeues the only node, swinging head to nil, and then enqueues v.
      The node of v is linked, but head is still nil, and the next dequeue dereferences it. */
  function Draining(v: int): seq<Step> {
    [Dequeue(0), Execute(0), Execute(0), Execute(0), Execute(0),
     Enqueue(0, v, 1), Execute(0), Execute(0), Execute(0),
     Dequeue(0), Execute(0)]
  }

  function Lost(v0: int, v: int): State {
    State(map[0 := Some(1), 1 := None], map[0 := v0, 1 := v], None, 1, [DReadNext(None)],
          [0, 1], map[0 := Linked(0), 1 := Linked(1)], [0], [0], map[0 := v0], None)
  }

  lemma DrainingLosesTheQueue(v0: int, v: int)
    ensures var s0 := Single(0, v0, [Idle]);
            && Init(s0) && Runs(s0, Draining(v)) && Run(s0, Draining(v)) == Lost(v0, v)
            && Queue(Lost(v0, v)) == [v] && Faults(Lost(v0, v), DReadNext(None))
  {
    var steps := Draining(v);
    LastPart(v0, v, steps);
    LinkPart(v0, v, steps, Lost(v0, v));
    AllocPart(v0, v, steps, Lost(v0, v));
    FirstPart(v0, steps, Lost(v0, v));
    assert steps[0..] == steps;
    OnlyLostValue(v0, v);
  }

  lemma OnlyLostValue(v0: int, v: int)
    ensures Queue(Lost(v0, v)) == [v]
  {
    assert Lost(v0, v).chain[1..] == [1];
  }

  /** After the dequeue, before the link, and after the enqueue. */
  function Emptied(v0: int): State {
    Single(0, v0, [Idle]).(head := None, taken := [0], takers := [0], results := map[0 := v0])
  }

  function Linking(v0: int, v: int): State {
    State(map[0 := None, 1 := None], map[0 := v0, 1 := v], None, 0, [ELink(1, 0)],
          [0], map[0 := Linked(0), 1 := Private(0)], [0], [0], map[0 := v0], None)
  }

  function Refilled(v0: int, v: int): State { Lost(v0, v).(threads := [Idle]) }

  lemma FirstPart(v0: int, steps: seq<Step>, end: State)
    requires |steps| > 5 && steps[0] == Dequeue(0)
    requires steps[1] == steps[2] == steps[3] == steps[4] == Execute(0)
    requires Runs(Emptied(v0), steps[5..]) && Run(Emptied(v0), steps[5..]) == end
    ensures Runs(Single(0, v0, [Idle]), steps[0..]) && Run(Single(0, v0, [Idle]), steps[0..]) == end
  {
    var s0 := Single(0, v0, [Idle]);
    var s1 := Next(s0, steps[0]);
    var s2 := Next(s1, steps[1]);
    var s3 := Next(s2, steps[2]);
    var s4 := Next(s3, steps[3]);
    assert Next(s4, steps[4]) == Emptied(v0);
    Tail(s4, steps, 4, end);
    Tail(s3, steps, 3, end);
    Tail(s2, steps, 2, end);
    Tail(s1, steps, 1, end);
    Tail(s0, steps, 0, end);
  }

  lemma AllocPart(v0: int, v: int, steps: seq<Step>, end: State)
    requires |steps| > 7 && steps[5] == Enqueue(0, v, 1) && steps[6] == Execute(0)
    requires Runs(Linking(v0, v), steps[7..]) && Run(Linking(v0, v), steps[7..]) == end
    ensures Runs(Emptied(v0), steps[5..]) && Run(Emptied(v0), steps[5..]) == end
  {
    var s5 := Emptied(v0);
    var s6 := Next(s5, steps[5]);
    assert Next(s6, steps[6]) == Linking(v0, v);
    Tail(s6, steps, 6, end);
    Tail(s5, steps, 5, end);
  }

  lemma LinkPart(v0: int, v: int, steps: seq<Step>, end: State)
    requires |steps| > 9 && steps[7] == steps[8] == Execute(0)
    requires Runs(Refilled(v0, v), steps[9..]) && Run(Refilled(v0, v), steps[9..]) == end
    ensures Runs(Linking(v0, v), steps[7..]) && Run(Linking(v0, v), steps[7..]) == end
  {
    LinkStep(v0, v);
    SwingStep(v0, v);
    Tail(Swinging(v0, v), steps, 8, end);
    Tail(Linking(v0, v), steps, 7, end);
  }

  function Swinging(v0: int, v: int): State {
    Refilled(v0, v).(tail := 0, threads := [ESwing(1, 0)], swinger := Some(0))
  }

  lemma LinkStep(v0: int, v: int)
    ensures Can(Linking(v0, v), Execute(0)) && Next(Linking(v0, v), Execute(0)) == Swinging(v0, v)
  {
    var s, s' := Next(Linking(v0, v), Execute(0)), Swinging(v0, v);
    assert s.next == s'.next && s.place == s'.place;
  }

  lemma SwingStep(v0: int, v: int)
    ensures Can(Swinging(v0, v), Execute(0)) && Next(Swinging(v0, v), Execute(0)) == Refilled(v0, v)
  {
  }

  lemma LastPart(v0: int, v: int, steps: seq<Step>)
    requires |steps| == 11 && steps[9] == Dequeue(0) && steps[10] == Execute(0)
    ensures Runs(Refilled(v0, v), steps[9..]) && Run(Refilled(v0, v), steps[9..]) == Lost(v0, v)
  {
    var s9 := Refilled(v0, v);
    Tail(Next(s9, steps[9]), steps, 10, Lost(v0, v));
    Tail(s9, steps, 9, Lost(v0, v));
  }

  lemma Tail(s: State, steps: seq<Step>, k: nat, end: State)
    requires k < |steps| && Can(s, steps[k])
    requires k + 1 == |steps| ==> Next(s, steps[k]) == end
    requires k + 1 < |steps| ==>
               Runs(Next(s, steps[k]), steps[k + 1..]) && Run(Next(s, steps[k]), steps[k + 1..]) == end
    ensures Runs(s, steps[k..]) && Run(s, steps[k..]) == end
  {
    assert steps[k..][1..] == steps[k + 1..];
    assert steps[|steps|..] == [];
  }
}
