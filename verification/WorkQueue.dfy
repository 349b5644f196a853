/** The work queue of pthread_create.c: enqueue_msg and process_msg, run by any number of
    threads. One step is one statement of one thread; threads interleave freely. An address
    may be reused by malloc as soon as it has been freed. */
module WorkQueue {
  import opened Basics

  type Node = nat

  /** A live struct msg. The message itself is named by the order of the enqueue_msg calls. */
  datatype Msg = Msg(m_next: Option<Node>, data: nat)

  /** The statement a thread executes next; P in enqueue_msg, C in process_msg. */
  datatype PC =
    | Outside               // a producer between two calls
    | PLock(mp: Node)
    | PLink(mp: Node)       // mp->m_next = workq
    | PPublish(mp: Node)    // workq = mp
    | PUnlock
    | PSignal
    | CLock
    | CTest                 // while (workq == NULL)
    | CAsleep               // in pthread_cond_wait, the mutex released
    | CWoken                // in pthread_cond_wait, about to take the mutex again
    | CTake                 // mp = workq
    | CAdvance(mp: Node)    // workq = mp->m_next
    | CUnlock(mp: Node)
    | CPrint(mp: Node)
    | CFree(mp: Node)

  datatype Event = Pushed(data: nat) | Popped(data: nat)

  /** Who is responsible for a live node. The list is counted from its NULL end. */
  datatype Place = OnList(k: nat) | With(t: nat)

  /** Program state, and history: the nodes on the list from its NULL end to workq, the place
      of every live node, how many messages were passed to enqueue_msg, the changes of workq
      in order, and the messages printed. */
  datatype State = State(
    workq: Option<Node>,
    heap: map<Node, Msg>,
    lock: Option<nat>,
    threads: seq<PC>,
    list: seq<Node>,
    place: map<Node, Place>,
    issued: nat,
    log: seq<Event>,
    printed: seq<nat>)

  datatype Step =
    | Call(t: nat, node: Node, garbage: Option<Node>)  // malloc, then enqueue_msg(node)
    | Execute(t: nat)
    | Signal(t: nat, woken: set<nat>)                  // pthread_cond_signal
    | Spurious(t: nat)                                 // pthread_cond_wait returns by itself

  predicate Asleep(s: State, t: nat) { t < |s.threads| && s.threads[t] == CAsleep }

  /** POSIX: signal unblocks at least one of the threads that are blocked, if any are. */
  ghost predicate Enabled(s: State, step: Step) {
    && step.t < |s.threads|
    && var pc := s.threads[step.t];
       match step {
         case Call(_, node, _) => pc == Outside && node !in s.heap
         case Execute(_) =>
           && pc != Outside && pc != PSignal && pc != CAsleep
           && (pc.PLock? || pc == CLock || pc == CWoken ==> s.lock == None)
         case Signal(_, woken) =>
           && pc == PSignal
           && (forall t :: t in woken ==> Asleep(s, t))
           && ((exists t :: Asleep(s, t)) ==> woken != {})
         case Spurious(_) => pc == CAsleep
       }
  }

  /** The next statement of the thread dereferences or frees memory that is not live. */
  predicate Faults(s: State, pc: PC) {
    match pc
    case PLink(mp) => mp !in s.heap
    case PPublish(mp) => mp !in s.heap
    case CTake => s.workq == None
    case CAdvance(mp) => mp !in s.heap
    case CPrint(mp) => mp !in s.heap
    case CFree(mp) => mp !in s.heap
    case _ => false
  }

  function Wake(ts: seq<PC>, woken: set<nat>): (ts': seq<PC>)
    ensures |ts'| == |ts|
    ensures forall t :: 0 <= t < |ts| ==> ts'[t] == if t in woken then CWoken else ts[t]
  {
    seq(|ts|, t requires 0 <= t < |ts| => if t in woken then CWoken else ts[t])
  }

  function Goto(s: State, t: nat, pc: PC): State
    requires t < |s.threads|
  {
    s.(threads := s.threads[t := pc])
  }

  /** One statement of thread t. Signalling and sleeping are steps of their own. */
  function Statement(s: State, t: nat): State
    requires t < |s.threads| && !Faults(s, s.threads[t])
  {
    match s.threads[t]
    case PLock(mp) => Goto(s, t, PLink(mp)).(lock := Some(t))
    case PLink(mp) => Goto(s, t, PPublish(mp)).(heap := s.heap[mp := Msg(s.workq, s.heap[mp].data)])
    case PPublish(mp) =>
      Goto(s, t, PUnlock).(
        workq := Some(mp),
        list := s.list + [mp],
        place := s.place[mp := OnList(|s.list|)],
        log := s.log + [Pushed(s.heap[mp].data)])
    case PUnlock => Goto(s, t, PSignal).(lock := None)
    case CLock => Goto(s, t, CTest).(lock := Some(t))
    case CWoken => Goto(s, t, CTest).(lock := Some(t))
    case CTest => if s.workq == None then Goto(s, t, CAsleep).(lock := None) else Goto(s, t, CTake)
    case CTake => Goto(s, t, CAdvance(s.workq.value))
    case CAdvance(mp) =>
      Goto(s, t, CUnlock(mp)).(
        workq := s.heap[mp].m_next,
        list := if s.list == [] then [] else s.list[..|s.list| - 1],
        place := s.place[mp := With(t)],
        log := s.log + [Popped(s.heap[mp].data)])
    case CUnlock(mp) => Goto(s, t, CPrint(mp)).(lock := None)
    case CPrint(mp) => Goto(s, t, CFree(mp)).(printed := s.printed + [s.heap[mp].data])
    case CFree(mp) => Goto(s, t, CLock).(heap := s.heap - {mp}, place := s.place - {mp})
    case _ => s
  }

  function Next(s: State, step: Step): State
    requires step.t < |s.threads| && !Faults(s, s.threads[step.t])
  {
    match step
    case Call(t, node, garbage) =>
      Goto(s, t, PLock(node)).(
        heap := s.heap[node := Msg(garbage, s.issued)],
        place := s.place[node := With(t)],
        issued := s.issued + 1)
    case Execute(t) => Statement(s, t)
    case Signal(t, woken) => s.(threads := Wake(s.threads, woken)[t := Outside])
    case Spurious(t) => Goto(s, t, CWoken)
  }

  /** Any number of threads, at the start of their loops, and an empty queue. */
  predicate Init(s: State) {
    && s == State(None, map[], None, s.threads, [], map[], 0, [], [])
    && (forall t :: 0 <= t < |s.threads| ==> s.threads[t] == Outside || s.threads[t] == CLock)
  }

  // ---------------------------------------------------------- the invariants

  predicate Inside(pc: PC) {
    pc.PLink? || pc.PPublish? || pc.PUnlock? || pc.CTest? || pc.CTake? || pc.CAdvance? || pc.CUnlock?
  }

  /** Mutual exclusion: exactly the owner of the lock is inside. */
  predicate Exclusive(s: State) {
    && (forall t :: 0 <= t < |s.threads| ==> (Inside(s.threads[t]) <==> s.lock == Some(t)))
    && (s.lock.Some? ==> s.lock.value < |s.threads|)
  }

  function Below(nodes: seq<Node>, k: nat): Option<Node>
    requires k <= |nodes|
  {
    if k == 0 then None else Some(nodes[k - 1])
  }

  /** The m_next links from p on lead through exactly the given nodes, last to first, to NULL. */
  predicate IsList(heap: map<Node, Msg>, p: Option<Node>, nodes: seq<Node>) {
    && p == Below(nodes, |nodes|)
    && forall k :: 0 <= k < |nodes| ==> LinkAt(heap, nodes, k)
  }

  predicate LinkAt(heap: map<Node, Msg>, nodes: seq<Node>, k: nat)
    requires k < |nodes|
  {
    nodes[k] in heap && heap[nodes[k]].m_next == Below(nodes, k)
  }

  /** What a thread inside has learnt about workq. */
  predicate Knows(s: State, pc: PC) {
    match pc
    case PPublish(mp) => mp in s.heap && s.heap[mp].m_next == s.workq
    case CTake => s.workq != None
    case CAdvance(mp) => s.workq == Some(mp)
    case _ => true
  }

  predicate Shape(s: State) {
    && IsList(s.heap, s.workq, s.list)
    && (forall t :: 0 <= t < |s.threads| ==> Knows(s, s.threads[t]))
  }

  /** The node a thread holds outside the list. */
  function Holds(pc: PC): Option<Node> {
    if pc.PLock? || pc.PLink? || pc.PPublish? || pc.CUnlock? || pc.CPrint? || pc.CFree?
    then Some(pc.mp) else None
  }

  predicate InPlace(s: State, n: Node, place: Place) {
    match place
    case OnList(k) => k < |s.list| && s.list[k] == n
    case With(t) => t < |s.threads| && Holds(s.threads[t]) == Some(n)
  }

  /** Every live node has one place, and is there: at one position of the list or in the
      hands of one thread. */
  predicate Owned(s: State) {
    && s.place.Keys == s.heap.Keys
    && (forall k :: 0 <= k < |s.list| ==>
          s.list[k] in s.place && s.place[s.list[k]] == OnList(k))
    && (forall t :: 0 <= t < |s.threads| && Holds(s.threads[t]).Some? ==>
          Holds(s.threads[t]).value in s.place && s.place[Holds(s.threads[t]).value] == With(t))
    && (forall n :: n in s.place ==> InPlace(s, n, s.place[n]))
  }

  predicate Structure(s: State) { Exclusive(s) && Shape(s) && Owned(s) }

  /** No reachable statement touches freed memory or frees twice. */
  lemma NoFault(s: State, step: Step)
    requires Structure(s) && step.t < |s.threads|
    ensures !Faults(s, s.threads[step.t])
  {
    var pc := s.threads[step.t];
    assert Knows(s, pc);
    assert Holds(pc).Some? ==> Holds(pc).value in s.place;
  }

  lemma KeepsExclusive(s: State, step: Step)
    requires Exclusive(s) && Enabled(s, step) && !Faults(s, s.threads[step.t])
    ensures Exclusive(Next(s, step))
  {
    if !step.Signal? {
      LockEffect(s, step);
      MoveKeepsExclusive(s, Next(s, step), step.t);
    }
  }

  /** A statement takes the free lock and is inside, gives up its lock and is outside, or
      neither. */
  predicate LockMoves(s: State, s': State, t: nat)
    requires t < |s.threads| == |s'.threads|
  {
    var before, after := Inside(s.threads[t]), Inside(s'.threads[t]);
    || (s'.lock == s.lock && (before <==> after))
    || (s.lock == None && s'.lock == Some(t) && after)
    || (s.lock == Some(t) && s'.lock == None && !after)
  }

  lemma LockEffect(s: State, step: Step)
    requires Exclusive(s) && Enabled(s, step) && !Faults(s, s.threads[step.t]) && !step.Signal?
    ensures var s' := Next(s, step);
            && |s'.threads| == |s.threads| && s'.threads == s.threads[step.t := s'.threads[step.t]]
            && LockMoves(s, s', step.t)
  {
    if step.Execute? { StatementMovesLock(s, step.t); }
  }

  lemma StatementMovesLock(s: State, t: nat)
    requires Exclusive(s) && t < |s.threads| && Enabled(s, Execute(t)) && !Faults(s, s.threads[t])
    ensures var s' := Statement(s, t);
            && |s'.threads| == |s.threads| && s'.threads == s.threads[t := s'.threads[t]]
            && LockMoves(s, s', t)
  {
  }

  lemma MoveKeepsExclusive(s: State, s': State, t: nat)
    requires Exclusive(s) && t < |s.threads| == |s'.threads|
    requires s'.threads == s.threads[t := s'.threads[t]] && LockMoves(s, s', t)
    ensures Exclusive(s')
  {
  }

  /** Steps that change neither the list nor the nodes on it. */
  predicate Quiet(pc: PC) { !pc.PLink? && !pc.PPublish? && !pc.CAdvance? && !pc.CFree? }

  lemma QuietKeepsShape(s: State, step: Step)
    requires Structure(s) && Enabled(s, step) && Quiet(s.threads[step.t])
    requires !Faults(s, s.threads[step.t])
    ensures Shape(Next(s, step))
  {
    var s' := Next(s, step);
    QuietKeepsKnows(s, step);
    forall k | 0 <= k < |s'.list| ensures LinkAt(s'.heap, s'.list, k) {
      assert LinkAt(s.heap, s.list, k);
    }
  }

  lemma QuietKeepsKnows(s: State, step: Step)
    requires Shape(s) && Enabled(s, step) && Quiet(s.threads[step.t])
    requires !Faults(s, s.threads[step.t])
    ensures var s' := Next(s, step);
            s'.workq == s.workq && s'.list == s.list && forall t :: 0 <= t < |s.threads| ==> Knows(s', s'.threads[t])
  {
    var s' := Next(s, step);
    forall t | 0 <= t < |s.threads| ensures Knows(s', s'.threads[t]) {
      assert Knows(s, s.threads[t]);
    }
  }

  lemma LinkKeepsShape(s: State, t: nat, mp: Node)
    requires Structure(s) && t < |s.threads| && s.threads[t] == PLink(mp) && mp in s.heap
    ensures Shape(Statement(s, t))
  {
    var s' := Statement(s, t);
    assert Holds(s.threads[t]) == Some(mp);
    assert mp !in s.list;
    forall k | 0 <= k < |s'.list| ensures LinkAt(s'.heap, s'.list, k) {
      assert LinkAt(s.heap, s.list, k);
    }
    forall u | 0 <= u < |s.threads| ensures Knows(s', s'.threads[u]) {
      assert u != t ==> !Inside(s.threads[u]);
    }
  }

  lemma PublishKeepsShape(s: State, t: nat, mp: Node)
    requires Structure(s) && t < |s.threads| && s.threads[t] == PPublish(mp) && mp in s.heap
    ensures Shape(Statement(s, t))
  {
    var s' := Statement(s, t);
    assert Knows(s, s.threads[t]);
    forall k | 0 <= k < |s'.list| ensures LinkAt(s'.heap, s'.list, k) {
      assert k < |s.list| ==> LinkAt(s.heap, s.list, k);
    }
    forall u | 0 <= u < |s.threads| ensures Knows(s', s'.threads[u]) {
      assert u != t ==> !Inside(s.threads[u]);
    }
  }

  lemma AdvanceKeepsShape(s: State, t: nat, mp: Node)
    requires Structure(s) && t < |s.threads| && s.threads[t] == CAdvance(mp) && mp in s.heap
    ensures s.list != [] && s.list[|s.list| - 1] == mp
    ensures Shape(Statement(s, t))
  {
    var s' := Statement(s, t);
    assert Knows(s, s.threads[t]);
    assert LinkAt(s.heap, s.list, |s.list| - 1);
    forall k | 0 <= k < |s'.list| ensures LinkAt(s'.heap, s'.list, k) {
      assert LinkAt(s.heap, s.list, k);
    }
    forall u | 0 <= u < |s.threads| ensures Knows(s', s'.threads[u]) {
      assert u != t ==> !Inside(s.threads[u]);
    }
  }

  lemma FreeKeepsShape(s: State, t: nat, mp: Node)
    requires Structure(s) && t < |s.threads| && s.threads[t] == CFree(mp) && mp in s.heap
    ensures Shape(Statement(s, t))
  {
    var s' := Statement(s, t);
    assert Holds(s.threads[t]) == Some(mp);
    assert mp !in s.list;
    forall k | 0 <= k < |s'.list| ensures LinkAt(s'.heap, s'.list, k) {
      assert LinkAt(s.heap, s.list, k);
    }
    forall u | 0 <= u < |s.threads| ensures Knows(s', s'.threads[u]) {
      assert Knows(s, s.threads[u]);
      assert u != t ==> Holds(s.threads[u]) != Some(mp);
    }
  }

  lemma QuietEffect(s: State, step: Step)
    requires Enabled(s, step) && Quiet(s.threads[step.t])
    requires !step.Call? && !Faults(s, s.threads[step.t])
    ensures var s' := Next(s, step);
            && s'.workq == s.workq && s'.heap == s.heap && s'.list == s.list && s'.place == s.place
            && s'.issued == s.issued && s'.log == s.log
            && |s'.threads| == |s.threads|
            && forall t :: 0 <= t < |s.threads| ==> Holds(s'.threads[t]) == Holds(s.threads[t])
  {
    if step.Execute? {
      var pc' := Next(s, step).threads[step.t];
      assert Holds(pc') == Holds(s.threads[step.t]);
      assert Next(s, step).threads == s.threads[step.t := pc'];
    }
  }

  lemma OwnedFrame(s: State, s': State)
    requires Owned(s) && s'.heap == s.heap && s'.list == s.list && s'.place == s.place
    requires |s'.threads| == |s.threads|
    requires forall t :: 0 <= t < |s.threads| ==> Holds(s'.threads[t]) == Holds(s.threads[t])
    ensures Owned(s')
  {
    forall n | n in s'.place ensures InPlace(s', n, s'.place[n]) {
      assert InPlace(s, n, s.place[n]);
    }
  }

  lemma CallKeepsOwned(s: State, step: Step)
    requires Structure(s) && Enabled(s, step) && step.Call?
    ensures Owned(Next(s, step))
  {
    var s' := Next(s, step);
    forall n | n in s'.place ensures InPlace(s', n, s'.place[n]) {
      assert n != step.node ==> InPlace(s, n, s.place[n]);
    }
  }

  lemma LinkKeepsOwned(s: State, t: nat, mp: Node)
    requires Structure(s) && t < |s.threads| && s.threads[t] == PLink(mp) && mp in s.heap
    ensures Owned(Statement(s, t))
  {
    var s' := Statement(s, t);
    forall n | n in s'.place ensures InPlace(s', n, s'.place[n]) {
      assert InPlace(s, n, s.place[n]);
    }
  }

  lemma PublishKeepsOwned(s: State, t: nat, mp: Node)
    requires Structure(s) && t < |s.threads| && s.threads[t] == PPublish(mp) && mp in s.heap
    ensures Owned(Statement(s, t))
  {
    var s' := Statement(s, t);
    assert Holds(s.threads[t]) == Some(mp);
    forall n | n in s'.place ensures InPlace(s', n, s'.place[n]) {
      assert n != mp ==> InPlace(s, n, s.place[n]);
    }
  }

  lemma AdvanceKeepsOwned(s: State, t: nat, mp: Node)
    requires Structure(s) && t < |s.threads| && s.threads[t] == CAdvance(mp) && mp in s.heap
    ensures Owned(Statement(s, t))
  {
    var s' := Statement(s, t);
    AdvanceKeepsShape(s, t, mp);
    AdvanceKeepsPlaces(s, t, mp);
    forall u | 0 <= u < |s.threads| && Holds(s'.threads[u]).Some?
      ensures Holds(s'.threads[u]).value in s'.place && s'.place[Holds(s'.threads[u]).value] == With(u)
    {
      assert u != t ==> Holds(s.threads[u]) == Holds(s'.threads[u]) && Holds(s.threads[u]) != Some(mp);
    }
  }

  lemma AdvanceKeepsPlaces(s: State, t: nat, mp: Node)
    requires Structure(s) && t < |s.threads| && s.threads[t] == CAdvance(mp) && mp in s.heap
    requires s.list != [] && s.list[|s.list| - 1] == mp
    ensures forall n :: n in Statement(s, t).place ==> InPlace(Statement(s, t), n, Statement(s, t).place[n])
  {
    var s' := Statement(s, t);
    forall n | n in s'.place ensures InPlace(s', n, s'.place[n]) {
      assert n != mp ==> InPlace(s, n, s.place[n]);
    }
  }

  lemma FreeKeepsOwned(s: State, t: nat, mp: Node)
    requires Structure(s) && t < |s.threads| && s.threads[t] == CFree(mp) && mp in s.heap
    ensures Owned(Statement(s, t))
  {
    var s' := Statement(s, t);
    assert Holds(s.threads[t]) == Some(mp);
    forall n | n in s'.place ensures InPlace(s', n, s'.place[n]) {
      assert InPlace(s, n, s.place[n]);
    }
  }

  lemma KeepsStructure(s: State, step: Step)
    requires Structure(s) && Enabled(s, step)
    ensures !Faults(s, s.threads[step.t])
    ensures Structure(Next(s, step))
  {
    NoFault(s, step);
    KeepsExclusive(s, step);
    var pc := s.threads[step.t];
    if pc.PLink? {
      LinkKeepsShape(s, step.t, pc.mp);
      LinkKeepsOwned(s, step.t, pc.mp);
    } else if pc.PPublish? {
      PublishKeepsShape(s, step.t, pc.mp);
      PublishKeepsOwned(s, step.t, pc.mp);
    } else if pc.CAdvance? {
      AdvanceKeepsShape(s, step.t, pc.mp);
      AdvanceKeepsOwned(s, step.t, pc.mp);
    } else if pc.CFree? {
      FreeKeepsShape(s, step.t, pc.mp);
      FreeKeepsOwned(s, step.t, pc.mp);
    } else {
      QuietKeepsShape(s, step);
      if step.Call? {
        CallKeepsOwned(s, step);
      } else {
        QuietEffect(s, step);
        OwnedFrame(s, Next(s, step));
      }
    }
  }
}
