/** Main results about the work queue, over every run of any number of threads. */
module WorkQueueDelivery {
  import opened Basics
  import opened WorkQueue
  import opened WorkQueueRuns

  ghost predicate Inv(s: State) { Structure(s) && Messages(s) && LIFO(s) && NoLostWakeup(s) }

  ghost predicate Can(s: State, step: Step) { Enabled(s, step) && !Faults(s, s.threads[step.t]) }

  ghost predicate Runs(s: State, steps: seq<Step>)
    decreases |steps|
  {
    steps == [] || (Can(s, steps[0]) && Runs(Next(s, steps[0]), steps[1..]))
  }

  ghost function Run(s: State, steps: seq<Step>): State
    requires Runs(s, steps)
    decreases |steps|
  {
    if steps == [] then s else Run(Next(s, steps[0]), steps[1..])
  }

  lemma InitHolds(s: State)
    requires Init(s)
    ensures Inv(s)
  {
    assert Contents(s.heap, s.list) == [];
  }

  lemma StepKeepsInv(s: State, step: Step)
    requires Inv(s) && Enabled(s, step)
    ensures Can(s, step) && Inv(Next(s, step))
  {
    KeepsStructure(s, step);
    KeepsMessages(s, step);
    KeepsLIFO(s, step);
    if step.Signal? {
      SignalKeepsWakeup(s, step);
    } else {
      StepPays(s, step);
      PaidKeepsWakeup(s, Next(s, step), step.t);
    }
  }

  lemma {:induction false} RunKeepsInv(s: State, steps: seq<Step>)
    requires Inv(s) && Runs(s, steps)
    ensures Inv(Run(s, steps))
    decreases |steps|
  {
    if steps != [] {
      StepKeepsInv(s, steps[0]);
      RunKeepsInv(Next(s, steps[0]), steps[1..]);
    }
  }

  // ------------------------------------------------ what the statements have done

  /** The messages passed to enqueue_msg, from the steps alone. */
  function Calls(steps: seq<Step>): nat {
    if steps == [] then 0 else (if steps[0].Call? then 1 else 0) + Calls(steps[1..])
  }

  /** The change of workq a step makes, and the message it prints. */
  function ChangeOf(s: State, step: Step): seq<Event>
    requires step.t < |s.threads| && !Faults(s, s.threads[step.t])
  {
    if !step.Execute? then []
    else
      match s.threads[step.t]
      case PPublish(mp) => [Pushed(s.heap[mp].data)]
      case CAdvance(mp) => [Popped(s.heap[mp].data)]
      case _ => []
  }

  function PrintOf(s: State, step: Step): seq<nat>
    requires step.t < |s.threads| && !Faults(s, s.threads[step.t])
  {
    if step.Execute? && s.threads[step.t].CPrint? then [s.heap[s.threads[step.t].mp].data] else []
  }

  ghost function Changes(s: State, steps: seq<Step>): seq<Event>
    requires Runs(s, steps)
    decreases |steps|
  {
    if steps == [] then [] else ChangeOf(s, steps[0]) + Changes(Next(s, steps[0]), steps[1..])
  }

  ghost function Prints(s: State, steps: seq<Step>): seq<nat>
    requires Runs(s, steps)
    decreases |steps|
  {
    if steps == [] then [] else PrintOf(s, steps[0]) + Prints(Next(s, steps[0]), steps[1..])
  }

  lemma StatementRecords(s: State, t: nat)
    requires t < |s.threads| && Enabled(s, Execute(t)) && !Faults(s, s.threads[t])
    ensures var s' := Statement(s, t);
            && s'.issued == s.issued && s'.log == s.log + ChangeOf(s, Execute(t))
            && s'.printed == s.printed + PrintOf(s, Execute(t))
  {
    match s.threads[t]
    case PLock(_) =>
    case PLink(_) =>
    case PPublish(_) =>
    case PUnlock =>
    case CLock =>
    case CWoken =>
    case CTest =>
    case CTake =>
    case CAdvance(_) =>
    case CUnlock(_) =>
    case CPrint(_) =>
    case CFree(_) =>
  }

  lemma {:induction false} RunRecords(s: State, steps: seq<Step>)
    requires Runs(s, steps)
    ensures var s' := Run(s, steps);
            && s'.issued == s.issued + Calls(steps) && s'.log == s.log + Changes(s, steps)
            && s'.printed == s.printed + Prints(s, steps)
    decreases |steps|
  {
    if steps != [] {
      var step, s1 := steps[0], Next(s, steps[0]);
      if step.Execute? { StatementRecords(s, step.t); }
      assert s1.log == s.log + ChangeOf(s, step) && s1.printed == s.printed + PrintOf(s, step);
      RunRecords(s1, steps[1..]);
      Associative(s.log, ChangeOf(s, step), Changes(s1, steps[1..]));
      Associative(s.printed, PrintOf(s, step), Prints(s1, steps[1..]));
    }
  }

  /** A signal wakes the threads chosen for it and no other. */
  lemma SignalWakesOnly(s: State, step: Step, t: nat)
    requires Can(s, step) && step.Signal?
    ensures Asleep(Next(s, step), t) <==> Asleep(s, t) && t !in step.woken
    ensures Next(s, step).threads[step.t] == Outside
  {
  }

  // ------------------------------------------------------------- main results

  /** Memory safety and shape: in every reachable state workq is a NULL-terminated list in
      which no node occurs twice, no node is both on the list and in the hands of a thread or
      in two hands, and whatever thread goes next touches live memory only. */
  lemma MemorySafe(s0: State, steps: seq<Step>, step: Step)
    requires Init(s0) && Runs(s0, steps)
    ensures var s := Run(s0, steps);
            && IsList(s.heap, s.workq, s.list)
            && (forall a, b :: 0 <= a < b < |s.list| ==> s.list[a] != s.list[b])
            && (forall t :: 0 <= t < |s.threads| && Holds(s.threads[t]).Some? ==>
                  Holds(s.threads[t]).value in s.heap && Holds(s.threads[t]).value !in s.list)
            && (forall t, u :: 0 <= t < u < |s.threads| && Holds(s.threads[t]).Some? ==>
                  Holds(s.threads[t]) != Holds(s.threads[u]))
            && (Enabled(s, step) ==> !Faults(s, s.threads[step.t]))
  {
    InitHolds(s0);
    RunKeepsInv(s0, steps);
    var s := Run(s0, steps);
    if Enabled(s, step) { NoFault(s, step); }
    forall t, u | 0 <= t < u < |s.threads| && Holds(s.threads[t]).Some?
      ensures Holds(s.threads[t]) != Holds(s.threads[u])
    {
      OneHolder(s, t, u);
    }
  }

  lemma LiveIsHeld(s: State, n: Node)
    requires Owned(s) && n in s.heap
    ensures n in s.list || exists t :: 0 <= t < |s.threads| && Holds(s.threads[t]) == Some(n)
  {
    assert InPlace(s, n, s.place[n]);
  }

  /** Conservation: every message passed to enqueue_msg, one per call, has been printed, exactly
      once, or is still carried by a live node, by exactly one; every live node is on the list
      or in the hands of a thread, so none is lost; and workq is the stack of the changes in
      lock order. */
  lemma EachMessageOnce(s0: State, steps: seq<Step>)
    requires Init(s0) && Runs(s0, steps)
    ensures var s := Run(s0, steps);
            && s.printed == Prints(s0, steps)
            && (forall k :: 0 <= k < Calls(steps) ==> k in s.printed || k in Data(s.heap).Values)
            && (forall k :: k in s.printed || k in Data(s.heap).Values ==> k < Calls(steps))
            && (forall a, b :: 0 <= a < b < |s.printed| ==> s.printed[a] != s.printed[b])
            && (forall n, m :: n in s.heap && m in s.heap && n != m ==> s.heap[n].data != s.heap[m].data)
            && (forall k :: 0 <= k < |s.list| ==> s.list[k] in s.heap && s.heap[s.list[k]].data !in s.printed)
            && (forall n :: n in s.heap ==>
                  n in s.list || exists t :: 0 <= t < |s.threads| && Holds(s.threads[t]) == Some(n))
            && Replay(Changes(s0, steps)) == Some(Contents(s.heap, s.list))
  {
    InitHolds(s0);
    RunKeepsInv(s0, steps);
    RunRecords(s0, steps);
    assert [] + Changes(s0, steps) == Changes(s0, steps);
    assert [] + Prints(s0, steps) == Prints(s0, steps);
    var s := Run(s0, steps);
    ListIsLive(s);
    forall n | n in s.heap
      ensures n in s.list || exists t :: 0 <= t < |s.threads| && Holds(s.threads[t]) == Some(n)
    {
      LiveIsHeld(s, n);
    }
    forall n, m | n in s.heap && m in s.heap && n != m ensures s.heap[n].data != s.heap[m].data {
      assert Data(s.heap)[n] != Data(s.heap)[m];
    }
    forall k | 0 <= k < |s.list| ensures s.heap[s.list[k]].data !in s.printed {
      var n := s.list[k];
      forall t | 0 <= t < |s.threads| && s.threads[t].CFree? ensures s.threads[t].mp != n {
        assert Holds(s.threads[t]) == Some(s.threads[t].mp);
      }
      assert n !in Done(s.threads);
      assert Data(s.heap)[n] == s.heap[n].data;
    }
  }

  /** No lost wakeup. While some consumer sleeps, the messages on the list do not outnumber
      the signals still to come and the consumers awake together; so when every consumer
      sleeps and no signal is due, workq is NULL. */
  lemma NoMessageForgotten(s0: State, steps: seq<Step>, sleeper: nat)
    requires Init(s0) && Runs(s0, steps)
    requires Asleep(Run(s0, steps), sleeper)
    ensures var s := Run(s0, steps);
            && |s.list| <= Sum(s.threads, Pending) + Sum(s.threads, Awake)
            && ((forall t :: 0 <= t < |s.threads| ==> Pending(s.threads[t]) == Awake(s.threads[t]) == 0)
                ==> s.workq == None)
  {
    InitHolds(s0);
    RunKeepsInv(s0, steps);
    var s := Run(s0, steps);
    if forall t :: 0 <= t < |s.threads| ==> Pending(s.threads[t]) == Awake(s.threads[t]) == 0 {
      SumZero(s.threads, Pending);
      SumZero(s.threads, Awake);
    }
  }

  // --------------------------------------------------------------- progress

  /** How much a thread can still do, if nothing new is enqueued and no wakeup is spurious. */
  function Rank(n: nat): PC -> nat {
    (pc: PC) =>
      match pc
      case Outside => 0
      case PLock(_) => 4 * n + 13
      case PLink(_) => 4 * n + 12
      case PPublish(_) => 4 * n + 11
      case PUnlock => 4 * n + 2
      case PSignal => 4 * n + 1
      case CAsleep => 0
      case CAdvance(_) => 1
      case CTake => 2
      case CTest => 3
      case CLock => 4
      case CWoken => 4
      case CFree(_) => 5
      case CPrint(_) => 6
      case CUnlock(_) => 7
  }

  function Work(s: State): nat { Sum(s.threads, Rank(|s.threads|)) + 7 * |s.list| }

  predicate Internal(step: Step) { step.Execute? || step.Signal? }

  /** The statement moves thread t to a lower rank, also counting the list. */
  predicate Works(s: State, s': State, t: nat, n: nat) {
    && t < |s.threads| == |s'.threads|
    && s'.threads == s.threads[t := s'.threads[t]]
    && Rank(n)(s'.threads[t]) + 7 * |s'.list| < Rank(n)(s.threads[t]) + 7 * |s.list|
  }

  lemma AdvanceWorks(s: State, t: nat, n: nat)
    requires Structure(s) && t < |s.threads| && s.threads[t].CAdvance? && !Faults(s, s.threads[t])
    ensures Works(s, Statement(s, t), t, n)
  {
    AdvanceKeepsShape(s, t, s.threads[t].mp);
  }

  lemma ProducerWorks(s: State, t: nat, n: nat)
    requires t < |s.threads| && !IsConsumer(s.threads[t]) && !Faults(s, s.threads[t])
    requires s.threads[t] != Outside && s.threads[t] != PSignal
    ensures Works(s, Statement(s, t), t, n)
  {
  }

  lemma ConsumerWorks(s: State, t: nat, n: nat)
    requires t < |s.threads| && IsConsumer(s.threads[t]) && !Faults(s, s.threads[t])
    requires s.threads[t] != CAsleep && !s.threads[t].CAdvance?
    ensures Works(s, Statement(s, t), t, n)
  {
  }

  lemma ExecuteWorks(s: State, t: nat, n: nat)
    requires Structure(s) && t < |s.threads| && !Faults(s, s.threads[t])
    requires s.threads[t] != Outside && s.threads[t] != PSignal && s.threads[t] != CAsleep
    ensures Works(s, Statement(s, t), t, n)
  {
    if !IsConsumer(s.threads[t]) {
      ProducerWorks(s, t, n);
    } else if s.threads[t].CAdvance? {
      AdvanceWorks(s, t, n);
    } else {
      ConsumerWorks(s, t, n);
    }
  }

  lemma StepWorks(s: State, step: Step)
    requires Structure(s) && Enabled(s, step) && Internal(step) && !Faults(s, s.threads[step.t])
    ensures Work(Next(s, step)) < Work(s) && |Next(s, step).threads| == |s.threads|
  {
    var s', w := Next(s, step), Rank(|s.threads|);
    if step.Execute? {
      ExecuteWorks(s, step.t, |s.threads|);
      SumUpdate(s.threads, step.t, s'.threads[step.t], w);
    } else {
      var ts := Wake(s.threads, step.woken);
      SumMonotone(s.threads, ts, w, 4);
      assert ts[step.t] == PSignal;
      SumUpdate(ts, step.t, Outside, w);
    }
  }

  /** Without new messages and spurious wakeups every run is finite, whatever the schedule. */
  lemma {:induction false} RunsAreFinite(s: State, steps: seq<Step>)
    requires Inv(s) && Runs(s, steps)
    requires forall k :: 0 <= k < |steps| ==> Internal(steps[k])
    ensures |steps| <= Work(s)
    decreases |steps|
  {
    if steps != [] {
      StepWorks(s, steps[0]);
      StepKeepsInv(s, steps[0]);
      RunsAreFinite(Next(s, steps[0]), steps[1..]);
    }
  }

  ghost predicate Quiescent(s: State) { forall step: Step :: Enabled(s, step) ==> !Internal(step) }

  lemma QuiescentThreads(s: State)
    requires Exclusive(s) && Quiescent(s)
    ensures forall t :: 0 <= t < |s.threads| ==> s.threads[t] == Outside || s.threads[t] == CAsleep
  {
    var owner := if s.lock.Some? then s.lock.value else 0;
    assert !Enabled(s, Execute(owner));
    assert s.lock == None;
    forall t | 0 <= t < |s.threads| ensures s.threads[t] == Outside || s.threads[t] == CAsleep {
      assert !Enabled(s, Execute(t));
      var asleep := set u | 0 <= u < |s.threads| && s.threads[u] == CAsleep;
      assert forall u :: Asleep(s, u) ==> u in asleep;
      assert !Enabled(s, Signal(t, asleep));
    }
  }

  lemma NothingLeft(s0: State, steps: seq<Step>, consumer: nat)
    requires Init(s0) && Runs(s0, steps) && consumer < |Run(s0, steps).threads|
    requires IsConsumer(Run(s0, steps).threads[consumer])
    requires Quiescent(Run(s0, steps))
    ensures var s := Run(s0, steps);
            && s.workq == None && s.heap == map[]
            && multiset(s.printed) == multiset(seq(s.issued, k => k))
  {
    InitHolds(s0);
    RunKeepsInv(s0, steps);
    var s := Run(s0, steps);
    QuiescentThreads(s);
    assert Asleep(s, consumer);
    NoMessageForgotten(s0, steps, consumer);
    assert s.heap == map[] by {
      forall n ensures n !in s.heap {
        if n in s.heap { LiveIsHeld(s, n); }
      }
    }
    AllPrinted(s);
  }

  lemma AllPrinted(s: State)
    requires Messages(s) && s.heap == map[]
    ensures multiset(s.printed) == multiset(seq(s.issued, k => k))
  {
    assert Data(s.heap).Values == {};
    PermutationOfRange(s.printed, s.issued);
  }

  /** A run that cannot go on has done everything: if there is a consumer at all, the queue is
      empty, every node has been freed, and the messages of the calls are exactly the messages
      printed, once each. */
  lemma EverythingProcessed(s0: State, steps: seq<Step>, consumer: nat)
    requires Init(s0) && Runs(s0, steps) && consumer < |Run(s0, steps).threads|
    requires IsConsumer(Run(s0, steps).threads[consumer])
    requires Quiescent(Run(s0, steps))
    ensures var s := Run(s0, steps);
            && s.workq == None && s.heap == map[]
            && multiset(Prints(s0, steps)) == multiset(seq(Calls(steps), k => k))
  {
    NothingLeft(s0, steps, consumer);
    RunRecords(s0, steps);
    assert [] + Prints(s0, steps) == Prints(s0, steps);
  }

  lemma PermutationOfRange(xs: seq<nat>, n: nat)
    requires forall a, b :: 0 <= a < b < |xs| ==> xs[a] != xs[b]
    requires forall a :: 0 <= a < |xs| ==> xs[a] < n
    requires forall k :: 0 <= k < n ==> k in xs
    ensures multiset(xs) == multiset(seq(n, k => k))
  {
    var range := seq(n, k => k);
    forall k: nat ensures multiset(xs)[k] == multiset(range)[k] {
      OnceInDistinct(xs, k);
      OnceInDistinct(range, k);
      assert k in range <==> k < n by { if k < n { assert range[k] == k; } }
    }
  }

  lemma {:induction false} OnceInDistinct(xs: seq<nat>, k: nat)
    requires forall a, b :: 0 <= a < b < |xs| ==> xs[a] != xs[b]
    ensures multiset(xs)[k] == if k in xs then 1 else 0
  {
    if xs != [] {
      var rest := xs[..|xs| - 1];
      OnceInDistinct(rest, k);
      assert xs == rest + [xs[|xs| - 1]];
    }
  }
}
