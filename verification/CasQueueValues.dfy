/** Where the values of the CAS queue come from: every value enqueued, dequeued or returned is
    the initial one or the argument of an enqueue call. And what an operation does that runs
    alone. */
module CasQueueValues {
  import opened Basics
  import opened CasQueue
  import opened CasQueueRuns
  import opened CasQueueReturns

  /** The arguments of the enqueue calls, by the nodes they allocated. */
  function Stored(steps: seq<Step>): map<Node, int> {
    if steps == [] then map[]
    else (if steps[0].Enqueue? then map[steps[0].q := steps[0].v] else map[]) + Stored(steps[1..])
  }

  /** An enqueue call with the argument v has allocated node n. */
  ghost predicate CalledWith(steps: seq<Step>, n: Node, v: int) {
    exists i :: 0 <= i < |steps| && steps[i].Enqueue? && steps[i].q == n && steps[i].v == v
  }

  lemma {:induction false} StoredByCall(steps: seq<Step>, n: Node)
    requires n in Stored(steps)
    ensures CalledWith(steps, n, Stored(steps)[n])
    decreases |steps|
  {
    if n in Stored(steps[1..]) {
      StoredByCall(steps[1..], n);
      var i :| 0 <= i < |steps[1..]| && steps[1..][i].Enqueue? && steps[1..][i].q == n
               && steps[1..][i].v == Stored(steps[1..])[n];
      assert steps[i + 1] == steps[1..][i];
    } else {
      assert steps[0].Enqueue? && steps[0].q == n;
    }
  }

  lemma StepStores(s: State, step: Step)
    requires Can(s, step)
    ensures Next(s, step).value == if step.Enqueue? then s.value[step.q := step.v] else s.value
  {
    if step.Execute? {
      match s.threads[step.t]
      case EReadTail(_) =>
      case ELink(_, _) =>
      case ESwing(_, _) =>
      case DReadHead =>
      case DReadNext(_) =>
      case DSwing(_, _) =>
      case DReturn(_) =>
    }
  }

  lemma {:induction false} RunStores(s: State, steps: seq<Step>)
    requires Runs(s, steps)
    ensures Run(s, steps).value == s.value + Stored(steps)
    decreases |steps|
  {
    if steps != [] {
      StepStores(s, steps[0]);
      RunStores(Next(s, steps[0]), steps[1..]);
    }
  }

  /** Nodes are never freed, so a stored value stays. */
  lemma {:induction false} ValueStays(s: State, steps: seq<Step>, n: Node)
    requires Inv(s) && Runs(s, steps) && n in s.value
    ensures n in Run(s, steps).value && Run(s, steps).value[n] == s.value[n]
    decreases |steps|
  {
    if steps != [] {
      KeepsInv(s, steps[0]);
      StepStores(s, steps[0]);
      ValueStays(Next(s, steps[0]), steps[1..], n);
    }
  }

  lemma {:induction false} CallStores(s: State, steps: seq<Step>, i: nat)
    requires Inv(s) && Runs(s, steps) && i < |steps| && steps[i].Enqueue?
    ensures steps[i].q in Run(s, steps).value && Run(s, steps).value[steps[i].q] == steps[i].v
    decreases |steps|
  {
    KeepsInv(s, steps[0]);
    if i == 0 {
      StepStores(s, steps[0]);
      ValueStays(Next(s, steps[0]), steps[1..], steps[0].q);
    } else {
      CallStores(Next(s, steps[0]), steps[1..], i - 1);
    }
  }

  // ------------------------------------------------------------- values enqueued

  /** The values of the enqueues of a history, in their order. */
  function Enqueues(events: seq<Event>): seq<int> {
    if events == [] then []
    else (if events[0].Enqueued? then [events[0].v] else []) + Enqueues(events[1..])
  }

  lemma EnqueuesFirst(e: Event, events: seq<Event>)
    ensures Enqueues([e] + events) == Enqueues([e]) + Enqueues(events)
  {
    assert ([e] + events)[1..] == events;
    assert [e][1..] == [];
  }

  lemma StepEnqueues(s: State, step: Step)
    requires Inv(s) && Can(s, step)
    ensures Values(Next(s, step).value, Next(s, step).chain)
         == Values(s.value, s.chain) + Enqueues([EventOf(s, step)])
  {
    var s' := Next(s, step);
    ChainHasValues(s);
    StepStores(s, step);
    if step.Execute? && s.threads[step.t].ELink? && s.next[s.threads[step.t].p] == None {
      var q := s.threads[step.t].q;
      assert EventOf(s, step) == Enqueued(s.value[q]);
      ValuesOfMore(s.value, s.chain, q);
    } else {
      SameChain(s, step);
      ValuesSame(s.value, s'.value, s.chain);
    }
  }

  lemma SameChain(s: State, step: Step)
    requires Inv(s) && Can(s, step)
    requires step.Execute? && s.threads[step.t].ELink? ==> s.next[s.threads[step.t].p] != None
    ensures Next(s, step).chain == s.chain && !EventOf(s, step).Enqueued?
  {
    if step.Execute? {
      match s.threads[step.t]
      case EReadTail(_) =>
      case ELink(_, _) =>
      case ESwing(_, _) =>
      case DReadHead =>
      case DReadNext(_) =>
      case DSwing(_, _) =>
      case DReturn(_) =>
    }
  }

  lemma {:induction false} RunEnqueues(s: State, steps: seq<Step>)
    requires Inv(s) && Runs(s, steps)
    ensures Values(Run(s, steps).value, Run(s, steps).chain)
         == Values(s.value, s.chain) + Enqueues(Events(s, steps))
    decreases |steps|
  {
    if steps != [] {
      var s' := Next(s, steps[0]);
      KeepsInv(s, steps[0]);
      RunEnqueues(s', steps[1..]);
      StepEnqueues(s, steps[0]);
      EnqueuesFirst(EventOf(s, steps[0]), Events(s', steps[1..]));
    }
  }

  // ------------------------------------------------------------ main results

  /** In every run: the node of every enqueue call holds the argument of the call, for good; the
      k-th enqueue of the linearization has the argument of the call that allocated the k-th
      node linked; and a value returned is the initial one or the argument of a call. */
  lemma ValuesComeFromCalls(s0: State, steps: seq<Step>)
    requires Init(s0) && Runs(s0, steps)
    ensures var s, es := Run(s0, steps), Enqueues(Events(s0, steps));
            && (forall i :: 0 <= i < |steps| && steps[i].Enqueue? ==>
                  steps[i].q in s.value && s.value[steps[i].q] == steps[i].v)
            && |s.chain| == 1 + |es| && s.chain[0] == s0.chain[0]
            && (forall k :: 0 <= k < |es| ==> CalledWith(steps, s.chain[k + 1], es[k]))
            && (forall n :: n in s.results ==>
                  (n == s0.chain[0] && s.results[n] == s0.value[n]) || CalledWith(steps, n, s.results[n]))
  {
    InitHolds(s0);
    RunStores(s0, steps);
    RunEnqueues(s0, steps);
    RunIsFifo(s0, steps);
    ChainGrows(s0, steps);
    var s, es := Run(s0, steps), Enqueues(Events(s0, steps));
    forall i | 0 <= i < |steps| && steps[i].Enqueue?
      ensures steps[i].q in s.value && s.value[steps[i].q] == steps[i].v
    {
      CallStores(s0, steps, i);
    }
    forall n | n in s.value
      ensures (n == s0.chain[0] && s.value[n] == s0.value[n]) || CalledWith(steps, n, s.value[n])
    {
      if n in Stored(steps) { StoredByCall(steps, n); }
    }
    forall k | 0 <= k < |es| ensures CalledWith(steps, s.chain[k + 1], es[k]) {
      LinkedByCall(s0, steps, s, es, k);
    }
    ResultsAreValues(s0, steps);
  }

  lemma {:induction false} ChainGrows(s: State, steps: seq<Step>)
    requires Inv(s) && Runs(s, steps)
    ensures s.chain <= Run(s, steps).chain
    decreases |steps|
  {
    if steps != [] {
      KeepsInv(s, steps[0]);
      if steps[0].Execute? && s.threads[steps[0].t].ELink? && s.next[s.threads[steps[0].t].p] == None {
        LinkKeepsInv(s, steps[0].t);
      } else {
        SameChain(s, steps[0]);
      }
      ChainGrows(Next(s, steps[0]), steps[1..]);
    }
  }

  lemma LinkedByCall(s0: State, steps: seq<Step>, s: State, es: seq<int>, k: nat)
    requires Init(s0) && Inv(s) && s.value == s0.value + Stored(steps) && s0.chain <= s.chain
    requires Values(s.value, s.chain) == Values(s0.value, s0.chain) + es && k < |es|
    ensures |s.chain| == 1 + |es| && CalledWith(steps, s.chain[k + 1], es[k])
  {
    var n := s.chain[k + 1];
    ChainHasValues(s);
    assert LinkAt(s, 0) && LinkAt(s, k + 1);
    assert Values(s.value, s.chain)[k + 1] == es[k] == s.value[n];
    assert n != s0.chain[0] && n in Stored(steps);
    StoredByCall(steps, n);
  }

  lemma ResultsAreValues(s0: State, steps: seq<Step>)
    requires Init(s0) && Runs(s0, steps)
    ensures var s := Run(s0, steps); forall n :: n in s.results ==> n in s.value && s.results[n] == s.value[n]
  {
    InitHolds(s0);
    RunKeepsReturns(s0, steps);
    var s := Run(s0, steps);
    forall n | n in s.results ensures n in s.value && s.results[n] == s.value[n] {
      PlaceOfTaken(s, n);
      assert Settled(s, s.place[n].k);
    }
  }

  // ------------------------------------------------------------- running alone

  /** A call of thread t and its next n statements, no other thread in between. */
  function Solo(call: Step, n: nat): seq<Step> { [call] + seq(n, _ => Execute(call.t)) }

  predicate Leads(s: State, step: Step, s': State) { Can(s, step) && Next(s, step) == s' }

  lemma {:induction false} PathRuns(path: seq<State>, steps: seq<Step>)
    requires |path| == |steps| + 1
    requires forall i :: 0 <= i < |steps| ==> Leads(path[i], steps[i], path[i + 1])
    ensures Runs(path[0], steps) && Run(path[0], steps) == path[|steps|]
    decreases |steps|
  {
    if steps != [] {
      assert Leads(path[0], steps[0], path[1]);
      forall i | 0 <= i < |steps[1..]| ensures Leads(path[1..][i], steps[1..][i], path[1..][i + 1]) {
        assert Leads(path[i + 1], steps[i + 1], path[i + 2]);
      }
      PathRuns(path[1..], steps[1..]);
    }
  }

  lemma FourSteps(s0: State, s1: State, s2: State, s3: State, s4: State, steps: seq<Step>)
    requires |steps| == 4 && Leads(s0, steps[0], s1) && Leads(s1, steps[1], s2)
    requires Leads(s2, steps[2], s3) && Leads(s3, steps[3], s4)
    ensures Runs(s0, steps) && Run(s0, steps) == s4
  {
    PathRuns([s0, s1, s2, s3, s4], steps);
  }

  lemma FiveSteps(s0: State, s1: State, s2: State, s3: State, s4: State, s5: State, steps: seq<Step>)
    requires |steps| == 5 && Leads(s0, steps[0], s1) && Leads(s1, steps[1], s2)
    requires Leads(s2, steps[2], s3) && Leads(s3, steps[3], s4) && Leads(s4, steps[4], s5)
    ensures Runs(s0, steps) && Run(s0, steps) == s5
  {
    PathRuns([s0, s1, s2, s3, s4, s5], steps);
  }

  /** An enqueue that runs alone, while no other is between its CASes, links its node behind
      the last one and moves tail to it. */
  lemma EnqueueAlone(s: State, t: nat, v: int, q: Node)
    requires Inv(s) && Enabled(s, Enqueue(t, v, q)) && s.swinger == None
    ensures var steps := Solo(Enqueue(t, v, q), 3);
            && Runs(s, steps)
            && var s' := Run(s, steps);
            && t < |s'.threads| && s'.threads[t] == Idle && s'.chain == s.chain + [q] && s'.tail == q
            && q in s'.value && s'.value[q] == v && s'.swinger == None && s'.head == s.head
  {
    var s1 := Next(s, Enqueue(t, v, q));
    EnqueueKeepsInv(s, Enqueue(t, v, q));
    var s2 := Next(s1, Execute(t));
    ExecuteKeepsInv(s1, t);
    LinksAlone(s2, t, q, s.tail);
    var s3 := Next(s2, Execute(t));
    FourSteps(s, s1, s2, s3, Next(s3, Execute(t)), Solo(Enqueue(t, v, q), 3));
  }

  lemma LinksAlone(s2: State, t: nat, q: Node, p: Node)
    requires Inv(s2) && t < |s2.threads| && s2.threads[t] == ELink(q, p) && p == s2.tail && s2.swinger == None
    ensures Can(s2, Execute(t))
    ensures var s3 := Next(s2, Execute(t));
            && Can(s3, Execute(t)) && s3.threads[t] == ESwing(q, p) && s3.tail == p
            && s3.chain == s2.chain + [q] && s3.value == s2.value && s3.head == s2.head
  {
    LinkSucceeds(s2, t);
    FaultsIff(s2, t);
  }

  /** A dequeue that runs alone while head is a node takes that node and returns its value;
      head is then what the next field was. */
  lemma DequeueAlone(s: State, t: nat)
    requires Inv(s) && Enabled(s, Dequeue(t)) && s.head.Some?
    ensures var steps, n := Solo(Dequeue(t), 4), s.head.value;
            && Runs(s, steps) && n in s.next && n in s.value
            && var s' := Run(s, steps);
            && t < |s'.threads| && s'.threads[t] == Idle
            && s'.taken == s.taken + [n] && s'.head == s.next[n]
            && n in s'.results && s'.results[n] == s.value[n]
  {
    assert LinkAt(s, |s.taken|);
    var n := s.head.value;
    var s2 := s.(threads := s.threads[t := DReadNext(s.head)]);
    var s4 := s.(threads := s.threads[t := DReturn(n)], head := s.next[n],
                 taken := s.taken + [n], takers := s.takers + [t]);
    var s1 := ReadsHead(s, t, s2);
    var s3 := TakesHead(s2, t, n, s4);
    var s5 := ReturnsAlone(s4, t, n);
    FiveSteps(s, s1, s2, s3, s4, s5, Solo(Dequeue(t), 4));
  }

  lemma ReturnsAlone(s4: State, t: nat, n: Node) returns (s5: State)
    requires t < |s4.threads| && s4.threads[t] == DReturn(n) && n in s4.value
    ensures Leads(s4, Execute(t), s5)
    ensures t < |s5.threads| && s5.threads[t] == Idle && s5.taken == s4.taken && s5.head == s4.head
    ensures n in s5.results && s5.results[n] == s4.value[n]
  {
    s5 := Next(s4, Execute(t));
  }

  lemma ReadsHead(s: State, t: nat, s2: State) returns (s1: State)
    requires t < |s.threads| && s.threads[t] == Idle
    requires s2 == s.(threads := s.threads[t := DReadNext(s.head)])
    ensures Leads(s, Dequeue(t), s1) && Leads(s1, Execute(t), s2)
  {
    s1 := Next(s, Dequeue(t));
    assert s.threads[t := DReadHead][t := DReadNext(s.head)] == s2.threads;
  }

  lemma TakesHead(s2: State, t: nat, n: Node, s4: State) returns (s3: State)
    requires t < |s2.threads| && s2.threads[t] == DReadNext(Some(n)) && s2.head == Some(n) && n in s2.next
    requires s4 == s2.(threads := s2.threads[t := DReturn(n)], head := s2.next[n],
                       taken := s2.taken + [n], takers := s2.takers + [t])
    ensures Leads(s2, Execute(t), s3) && Leads(s3, Execute(t), s4)
  {
    s3 := Next(s2, Execute(t));
    assert s2.threads[t := DSwing(n, s2.next[n])][t := DReturn(n)] == s4.threads;
  }

  /** Nothing is in the way of thread t: for an enqueue, no other is between its CASes; for a
      dequeue, head is a node until it has taken one. */
  predicate Unhindered(s: State, t: nat) {
    && t < |s.threads|
    && match s.threads[t] {
         case Idle => true
         case EReadTail(_) => s.swinger == None
         case ELink(_, _) => s.swinger == None
         case ESwing(_, _) => true
         case DReadHead => s.head.Some?
         case DReadNext(p) => s.head.Some? && p.Some?
         case DSwing(_, _) => s.head.Some?
         case DReturn(_) => true
       }
  }

  /** The statements left if t runs alone; a CAS that will fail costs another round. */
  function Left(s: State, t: nat): nat
    requires t < |s.threads|
  {
    match s.threads[t]
    case Idle => 0
    case EReadTail(_) => 3
    case ELink(_, p) => if p in s.next && s.next[p] == None then 2 else 4
    case ESwing(_, _) => 1
    case DReadHead => 4
    case DReadNext(p) => if p == s.head then 3 else 6
    case DSwing(p, _) => if s.head == Some(p) then 2 else 5
    case DReturn(_) => 1
  }

  lemma UnhinderedMoves(s: State, t: nat)
    requires Inv(s) && Unhindered(s, t) && s.threads[t] != Idle
    ensures Can(s, Execute(t)) && Inv(Next(s, Execute(t))) && Unhindered(Next(s, Execute(t)), t)
    ensures Left(Next(s, Execute(t)), t) + 1 == Left(s, t)
  {
    FaultsIff(s, t);
    ExecuteKeepsInv(s, t);
    var s' := Next(s, Execute(t));
    if s.threads[t].EReadTail? {
      LinkSucceeds(s', t);
    } else if s.threads[t].ELink? {
      LinkSucceeds(s, t);
    }
  }

  /** Obstruction freedom: from any reachable point of a call, a thread that nothing is in the
      way of finishes its call in at most six statements of its own. */
  lemma {:induction false} FinishesAlone(s: State, t: nat)
    requires Inv(s) && Unhindered(s, t)
    ensures Left(s, t) <= 6
    ensures var steps := seq(Left(s, t), _ => Execute(t));
            && Runs(s, steps) && t < |Run(s, steps).threads| && Run(s, steps).threads[t] == Idle
    decreases Left(s, t)
  {
    var steps := seq(Left(s, t), _ => Execute(t));
    if s.threads[t] != Idle {
      UnhinderedMoves(s, t);
      var s' := Next(s, Execute(t));
      FinishesAlone(s', t);
      assert steps[1..] == seq(Left(s', t), _ => Execute(t));
    }
  }
}
