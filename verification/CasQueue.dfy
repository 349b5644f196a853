/** The lock-free queue sketch c++/f: enqueue links its node behind the last one by a CAS on
    its next field and then swings tail by a second CAS; dequeue swings head by a CAS loop.
    Every read of a shared variable and every CAS is a step of its own, for any number of
    threads. The sketch has no test for emptiness: a dequeue may take the last node and leave
    head nil. GiveUp lets a dequeue leave instead, as a guarded one would. Nodes are never
    freed, so addresses are never reused. */
module CasQueue {
  import opened Basics

  type Node = nat

  /** The read or CAS a thread does next. */
  datatype PC =
    | Idle
    | EReadTail(q: Node)                           // p = tail
    | ELink(q: Node, p: Node)                      // CAS(p->next, nil, q)
    | ESwing(q: Node, p: Node)                     // CAS(tail, p, q)
    | DReadHead                                    // p = head
    | DReadNext(p': Option<Node>)                  // p->next
    | DSwing(p: Node, n: Option<Node>)             // CAS(head, p, n)
    | DReturn(p: Node)                             // return p->value

  datatype Place = Linked(k: nat) | Private(t: nat)

  /** Shared memory, and history: the nodes in the order they were linked, the place of every
      node, the nodes dequeued in the order of the successful CAS on head and the threads that
      did so, the values returned for them, and the thread between its two CASes, if any. */
  datatype State = State(
    next: map<Node, Option<Node>>,
    value: map<Node, int>,
    head: Option<Node>,
    tail: Node,
    threads: seq<PC>,
    chain: seq<Node>,
    place: map<Node, Place>,
    taken: seq<Node>,
    takers: seq<nat>,
    results: map<Node, int>,
    swinger: Option<nat>)

  datatype Step =
    | Enqueue(t: nat, v: int, q: Node)   // q = new Node; value and next set
    | Dequeue(t: nat)
    | Execute(t: nat)
    | GiveUp(t: nat)                     // a guarded dequeue that leaves when it reads nil

  predicate Enabled(s: State, step: Step) {
    && step.t < |s.threads|
    && var pc := s.threads[step.t];
       match step {
         case Enqueue(_, _, q) => pc == Idle && q !in s.next
         case Dequeue(_) => pc == Idle
         case Execute(_) => pc != Idle
         case GiveUp(_) => pc.DSwing? && pc.n == None
       }
  }

  /** Dereferencing nil, or an address that was never allocated. */
  predicate Faults(s: State, pc: PC) {
    match pc
    case ELink(q, p) => p !in s.next || q !in s.value
    case DReadNext(p) => p == None || p.value !in s.next
    case DReturn(p) => p !in s.value
    case _ => false
  }

  /** The CAS that takes the node at the front when the next read was nil. */
  predicate SwingsToNil(s: State, step: Step) {
    && step.Execute? && step.t < |s.threads|
    && s.threads[step.t].DSwing? && s.threads[step.t].n == None
    && s.head == Some(s.threads[step.t].p)
  }

  function Goto(s: State, t: nat, pc: PC): State
    requires t < |s.threads|
  {
    s.(threads := s.threads[t := pc])
  }

  function Statement(s: State, t: nat): State
    requires t < |s.threads| && !Faults(s, s.threads[t])
  {
    match s.threads[t]
    case Idle => s
    case EReadTail(q) => Goto(s, t, ELink(q, s.tail))
    case ELink(q, p) =>
      if s.next[p] == None then
        Goto(s, t, ESwing(q, p)).(
          next := s.next[p := Some(q)],
          chain := s.chain + [q],
          place := s.place[q := Linked(|s.chain|)],
          swinger := Some(t))
      else Goto(s, t, EReadTail(q))
    case ESwing(q, p) =>
      if s.tail == p then Goto(s, t, Idle).(tail := q, swinger := None) else Goto(s, t, Idle)
    case DReadHead => Goto(s, t, DReadNext(s.head))
    case DReadNext(p) => Goto(s, t, DSwing(p.value, s.next[p.value]))
    case DSwing(p, n) =>
      if s.head == Some(p) then
        Goto(s, t, DReturn(p)).(head := n, taken := s.taken + [p], takers := s.takers + [t])
      else Goto(s, t, DReadHead)
    case DReturn(p) => Goto(s, t, Idle).(results := s.results[p := s.value[p]])
  }

  function Next(s: State, step: Step): State
    requires step.t < |s.threads| && !Faults(s, s.threads[step.t])
  {
    match step
    case Enqueue(t, v, q) =>
      Goto(s, t, EReadTail(q)).(
        next := s.next[q := None],
        value := s.value[q := v],
        place := s.place[q := Private(t)])
    case Dequeue(t) => Goto(s, t, DReadHead)
    case Execute(t) => Statement(s, t)
    case GiveUp(t) => Goto(s, t, Idle)
  }

  function Single(n: Node, v: int, threads: seq<PC>): State {
    State(map[n := None], map[n := v], Some(n), n, threads, [n], map[n := Linked(0)],
          [], [], map[], None)
  }

  /** One node, to which head and tail point, and any number of idle threads. */
  predicate Init(s: State) {
    && |s.chain| == 1 && s.chain[0] in s.value
    && s == Single(s.chain[0], s.value[s.chain[0]], s.threads)
    && forall t :: 0 <= t < |s.threads| ==> s.threads[t] == Idle
  }

  // ------------------------------------------------------------- invariant

  function After(chain: seq<Node>, k: nat): Option<Node> {
    if k + 1 < |chain| then Some(chain[k + 1]) else None
  }

  predicate LinkAt(s: State, k: nat)
    requires k < |s.chain|
  {
    var n := s.chain[k];
    && n in s.next && s.next[n] == After(s.chain, k)
    && n in s.place && s.place[n] == Linked(k)
  }

  /** The linked nodes are one nil-terminated chain; every other node belongs to the thread
      that is about to link it. */
  predicate Chained(s: State) {
    && s.next.Keys == s.value.Keys == s.place.Keys
    && (forall k :: 0 <= k < |s.chain| ==> LinkAt(s, k))
    && (forall n :: n in s.place ==> InPlace(s, n, s.place[n]))
  }

  predicate InPlace(s: State, n: Node, place: Place) {
    match place
    case Linked(k) => k < |s.chain| && s.chain[k] == n
    case Private(t) =>
      && t < |s.threads| && n in s.next && s.next[n] == None
      && (s.threads[t] == EReadTail(n) || (s.threads[t].ELink? && s.threads[t].q == n))
  }

  /** Position k of a linked node that is not beyond the bound. */
  predicate LinkedUpTo(s: State, n: Node, bound: nat) {
    n in s.place && s.place[n].Linked? && s.place[n].k <= bound
  }

  function TailIndex(s: State): nat
    requires s.chain != []
  {
    if s.swinger == None || |s.chain| == 1 then |s.chain| - 1 else |s.chain| - 2
  }

  /** tail is the last linked node, or the last but one while a thread is between its CASes;
      head, unless it is nil, is the node behind the dequeued ones. */
  predicate Pointed(s: State) {
    && s.chain != [] && |s.taken| <= |s.chain|
    && s.taken == s.chain[..|s.taken|]
    && (s.head.Some? ==> |s.taken| < |s.chain| && s.head.value == s.chain[|s.taken|])
    && (s.swinger.Some? ==> |s.chain| >= 2 && s.swinger.value < |s.threads|)
    && s.tail == s.chain[TailIndex(s)]
  }

  /** What a thread remembers. */
  predicate Remembers(s: State, t: nat, pc: PC)
    requires Pointed(s)
  {
    && (pc.ESwing? <==> s.swinger == Some(t))
    && match pc {
         case EReadTail(q) => q in s.place && s.place[q] == Private(t)
         case ELink(q, p) => q in s.place && s.place[q] == Private(t) && LinkedUpTo(s, p, TailIndex(s))
         case ESwing(q, p) => p == s.tail && q == s.chain[|s.chain| - 1]
         case DReadNext(p) => if p.Some? then LinkedUpTo(s, p.value, |s.taken|) else s.head == None
         case DSwing(p, n) => LinkedUpTo(s, p, |s.taken|) && p in s.next && (n.Some? ==> s.next[p] == n)
         case DReturn(p) => p in s.value
         case _ => true
       }
  }

  predicate Inv(s: State) {
    && Chained(s) && Pointed(s)
    && forall t :: 0 <= t < |s.threads| ==> Remembers(s, t, s.threads[t])
  }

  /** A thread faults exactly if it read nil from head and now reads its next field. */
  lemma FaultsIff(s: State, t: nat)
    requires Inv(s) && t < |s.threads|
    ensures Faults(s, s.threads[t]) <==> s.threads[t] == DReadNext(None)
  {
    assert Remembers(s, t, s.threads[t]);
  }

  lemma InitHolds(s: State)
    requires Init(s)
    ensures Inv(s)
  {
    assert LinkAt(s, 0);
  }

  /** The CAS of enqueue on p->next succeeds exactly when p is tail and no other enqueuer is
      between its two CASes. */
  lemma LinkSucceeds(s: State, t: nat)
    requires Inv(s) && t < |s.threads| && s.threads[t].ELink?
    ensures var p := s.threads[t].p;
            p in s.next && (s.next[p] == None <==> p == s.tail && s.swinger == None)
  {
    assert Remembers(s, t, s.threads[t]);
    var p := s.threads[t].p;
    assert InPlace(s, p, s.place[p]);
    assert LinkAt(s, s.place[p].k);
    assert LinkAt(s, TailIndex(s));
  }

  // ----------------------------------------------------- steps keep the invariant

  /** Steps that move thread t and change neither links nor head and tail. */
  predicate OnlyMoves(s: State, s': State, t: nat) {
    t < |s.threads| && |s'.threads| == |s.threads| &&
    s' == Goto(s, t, s'.threads[t]).(results := s'.results)
  }

  lemma MoveKeepsInv(s: State, s': State, t: nat)
    requires Inv(s) && OnlyMoves(s, s', t)
    requires Remembers(s, t, s'.threads[t])
    requires s.threads[t].EReadTail? || s.threads[t].ELink? ==>
               (s'.threads[t].EReadTail? || s'.threads[t].ELink?) && s'.threads[t].q == s.threads[t].q
    ensures Inv(s')
  {
    MoveKeepsChained(s, s', t);
    assert Pointed(s');
    forall u | 0 <= u < |s'.threads| ensures Remembers(s', u, s'.threads[u]) {
      assert Remembers(s, u, s.threads[u]);
      MoveKeepsMemory(s, s', t, u, s'.threads[u]);
    }
  }

  lemma MoveKeepsMemory(s: State, s': State, t: nat, u: nat, pc: PC)
    requires Pointed(s) && Pointed(s') && OnlyMoves(s, s', t) && Remembers(s, u, pc)
    ensures Remembers(s', u, pc)
  {
  }

  lemma MoveKeepsChained(s: State, s': State, t: nat)
    requires Chained(s) && OnlyMoves(s, s', t)
    requires s.threads[t].EReadTail? || s.threads[t].ELink? ==>
               (s'.threads[t].EReadTail? || s'.threads[t].ELink?) && s'.threads[t].q == s.threads[t].q
    ensures Chained(s')
  {
    forall k | 0 <= k < |s'.chain| ensures LinkAt(s', k) { assert LinkAt(s, k); }
    forall n | n in s'.place ensures InPlace(s', n, s'.place[n]) { assert InPlace(s, n, s.place[n]); }
  }

  lemma EnqueueKeepsInv(s: State, step: Step)
    requires Inv(s) && Enabled(s, step) && step.Enqueue?
    ensures Inv(Next(s, step))
  {
    var s' := Next(s, step);
    forall k | 0 <= k < |s'.chain| ensures LinkAt(s', k) { assert LinkAt(s, k); }
    forall n | n in s'.place ensures InPlace(s', n, s'.place[n]) {
      assert n != step.q ==> InPlace(s, n, s.place[n]);
    }
    forall u | 0 <= u < |s'.threads| ensures Remembers(s', u, s'.threads[u]) {
      assert Remembers(s, u, s.threads[u]);
    }
  }

  /** Linking makes the chain one node longer; tail is now the last but one. */
  lemma LinkKeepsInv(s: State, t: nat)
    requires Inv(s) && t < |s.threads| && s.threads[t].ELink?
    requires !Faults(s, s.threads[t]) && s.next[s.threads[t].p] == None
    ensures Inv(Statement(s, t)) && Statement(s, t).chain == s.chain + [s.threads[t].q]
  {
    var s' := Statement(s, t);
    LinkSucceeds(s, t);
    assert Remembers(s, t, s.threads[t]);
    LinkKeepsChained(s, t);
    assert Pointed(s');
    forall u | 0 <= u < |s'.threads| ensures Remembers(s', u, s'.threads[u]) {
      LinkKeepsMemory(s, t, u);
    }
  }

  lemma LinkKeepsChained(s: State, t: nat)
    requires Inv(s) && t < |s.threads| && s.threads[t].ELink?
    requires !Faults(s, s.threads[t]) && s.next[s.threads[t].p] == None
    ensures Chained(Statement(s, t))
  {
    var s' := Statement(s, t);
    var q, p := s.threads[t].q, s.threads[t].p;
    LinkSucceeds(s, t);
    assert Remembers(s, t, s.threads[t]);
    assert InPlace(s, q, s.place[q]);
    assert LinkAt(s, |s.chain| - 1);
    forall k | 0 <= k < |s'.chain| ensures LinkAt(s', k) {
      if k < |s.chain| { assert LinkAt(s, k); }
    }
    forall n | n in s'.place ensures InPlace(s', n, s'.place[n]) {
      assert InPlace(s, n, s.place[n]);
    }
  }

  lemma LinkKeepsMemory(s: State, t: nat, u: nat)
    requires Inv(s) && t < |s.threads| && s.threads[t].ELink? && u < |s.threads|
    requires !Faults(s, s.threads[t]) && s.next[s.threads[t].p] == None
    requires s.swinger == None && s.threads[t].p == s.tail && Pointed(Statement(s, t))
    ensures Remembers(Statement(s, t), u, Statement(s, t).threads[u])
  {
    var q := s.threads[t].q;
    assert Remembers(s, t, s.threads[t]);
    assert Remembers(s, u, s.threads[u]);
    if u != t && s.threads[u].DSwing? {
      LinkKeepsReads(s, t, u);
    }
  }

  /** A next field that was read and was not nil does not change. */
  lemma LinkKeepsReads(s: State, t: nat, u: nat)
    requires Inv(s) && t < |s.threads| && s.threads[t].ELink? && u < |s.threads| && u != t
    requires !Faults(s, s.threads[t]) && s.next[s.threads[t].p] == None
    requires s.threads[u].DSwing?
    ensures var s', p := Statement(s, t), s.threads[u].p;
            && LinkedUpTo(s', p, |s'.taken|) && p in s'.next
            && (s.threads[u].n.Some? ==> s'.next[p] == s.threads[u].n)
  {
    assert Remembers(s, t, s.threads[t]);
    assert Remembers(s, u, s.threads[u]);
  }

  lemma SwingKeepsInv(s: State, t: nat)
    requires Inv(s) && t < |s.threads| && s.threads[t].ESwing?
    ensures s.tail == s.threads[t].p && Inv(Statement(s, t))
  {
    var s' := Statement(s, t);
    assert Remembers(s, t, s.threads[t]);
    forall k | 0 <= k < |s'.chain| ensures LinkAt(s', k) { assert LinkAt(s, k); }
    forall n | n in s'.place ensures InPlace(s', n, s'.place[n]) { assert InPlace(s, n, s.place[n]); }
    forall u | 0 <= u < |s'.threads| ensures Remembers(s', u, s'.threads[u]) {
      assert Remembers(s, u, s.threads[u]);
    }
  }

  /** A successful CAS on head takes the node at the front, whether or not it leaves nil. */
  lemma TakeKeepsInv(s: State, t: nat)
    requires Inv(s) && t < |s.threads| && s.threads[t].DSwing? && s.head == Some(s.threads[t].p)
    ensures |s.taken| < |s.chain| && s.threads[t].p == s.chain[|s.taken|]
    ensures Inv(Statement(s, t))
  {
    var s' := Statement(s, t);
    assert Remembers(s, t, s.threads[t]);
    assert LinkAt(s, |s.taken|);
    assert Pointed(s');
    forall k | 0 <= k < |s'.chain| ensures LinkAt(s', k) { assert LinkAt(s, k); }
    forall n | n in s'.place ensures InPlace(s', n, s'.place[n]) { assert InPlace(s, n, s.place[n]); }
    forall u | 0 <= u < |s'.threads| ensures Remembers(s', u, s'.threads[u]) {
      assert Remembers(s, u, s.threads[u]);
    }
  }

  /** What a read stores is what Remembers says about it. */
  lemma ReadsRemember(s: State, t: nat)
    requires Inv(s) && t < |s.threads| && !Faults(s, s.threads[t])
    requires s.threads[t].EReadTail? || s.threads[t].DReadHead? || s.threads[t].DReadNext?
    ensures Remembers(s, t, Statement(s, t).threads[t])
  {
    assert Remembers(s, t, s.threads[t]);
    assert LinkAt(s, TailIndex(s));
    if s.head.Some? { assert LinkAt(s, |s.taken|); }
  }

  lemma ExecuteKeepsInv(s: State, t: nat)
    requires Inv(s) && t < |s.threads| && !Faults(s, s.threads[t])
    ensures Inv(Statement(s, t))
  {
    var pc := s.threads[t];
    assert Remembers(s, t, pc);
    if pc.ELink? && s.next[pc.p] == None {
      LinkKeepsInv(s, t);
    } else if pc.ESwing? {
      SwingKeepsInv(s, t);
    } else if pc.DSwing? && s.head == Some(pc.p) {
      TakeKeepsInv(s, t);
    } else {
      if pc.EReadTail? || pc.DReadHead? || pc.DReadNext? { ReadsRemember(s, t); }
      MoveKeepsInv(s, Statement(s, t), t);
    }
  }

  /** Every step keeps the structure, also the CAS of head to nil. That CAS is the only way
      for head to become nil, and nothing undoes it. */
  lemma KeepsInv(s: State, step: Step)
    requires Inv(s) && Enabled(s, step) && !Faults(s, s.threads[step.t])
    ensures Inv(Next(s, step))
    ensures Next(s, step).head.Some? <==> s.head.Some? && !SwingsToNil(s, step)
  {
    if step.Enqueue? {
      EnqueueKeepsInv(s, step);
    } else if step.Execute? {
      ExecuteKeepsInv(s, step.t);
    } else {
      assert Remembers(s, step.t, s.threads[step.t]);
      MoveKeepsInv(s, Next(s, step), step.t);
    }
  }
}
