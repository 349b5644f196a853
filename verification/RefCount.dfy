/** The reference-counted object of pthread_create.c: foo_alloc, foo_hold and foo_rele, called
    by any number of threads, one statement of one thread at a time. A caller of foo_hold or
    foo_rele holds a reference; references may also be handed from thread to thread. */
module RefCount {
  import opened Basics

  datatype PC =
    | Idle
    | HLock                 // foo_hold
    | HIncrement            // f_count++
    | HUnlock
    | RLock                 // foo_rele
    | RDecrement            // if (--f_count == 0)
    | RUnlockLast
    | RDestroy              // pthread_mutex_destroy
    | RFree
    | RUnlock

  /** A thread and the references it holds. foo_rele gives one up when it decrements. */
  datatype Thread = Thread(pc: PC, refs: nat)

  /** live and mutex: not yet freed, not yet destroyed; the two counters are history. */
  datatype State = State(
    live: bool,
    mutex: bool,
    f_count: int,
    lock: Option<nat>,
    threads: seq<Thread>,
    destroys: nat,
    frees: nat)

  datatype Step = Hold(t: nat) | Release(t: nat) | Execute(t: nat) | Give(t: nat, to: nat)

  predicate Enabled(s: State, step: Step) {
    && step.t < |s.threads|
    && var th := s.threads[step.t];
       match step {
         case Hold(_) => th.pc == Idle && th.refs > 0
         case Release(_) => th.pc == Idle && th.refs > 0
         case Give(t, to) => th.pc == Idle && th.refs > 0 && to < |s.threads| && to != t
         case Execute(_) => th.pc != Idle && (th.pc == HLock || th.pc == RLock ==> s.lock == None)
       }
  }

  /** What must not happen: touching the object after free; using a destroyed mutex; destroying
      it while it is locked or another thread is about to lock it. */
  predicate Faults(s: State, t: nat)
    requires t < |s.threads|
  {
    var pc := s.threads[t].pc;
    && pc != Idle
    && (|| !s.live
        || (pc != RFree && pc != HIncrement && pc != RDecrement && !s.mutex)
        || (pc == RDestroy &&
              (s.lock != None || exists u :: 0 <= u < |s.threads| && u != t && s.threads[u].pc != Idle)))
  }

  function Goto(s: State, t: nat, pc: PC): State
    requires t < |s.threads|
  {
    s.(threads := s.threads[t := s.threads[t].(pc := pc)])
  }

  function Statement(s: State, t: nat): State
    requires t < |s.threads|
  {
    var th := s.threads[t];
    match th.pc
    case Idle => s
    case HLock => Goto(s, t, HIncrement).(lock := Some(t))
    case HIncrement => s.(f_count := s.f_count + 1, threads := s.threads[t := Thread(HUnlock, th.refs + 1)])
    case HUnlock => Goto(s, t, Idle).(lock := None)
    case RLock => Goto(s, t, RDecrement).(lock := Some(t))
    case RDecrement =>
      var left := if th.refs > 0 then th.refs - 1 else 0;
      s.(f_count := s.f_count - 1,
         threads := s.threads[t := Thread(if s.f_count - 1 == 0 then RUnlockLast else RUnlock, left)])
    case RUnlockLast => Goto(s, t, RDestroy).(lock := None)
    case RDestroy => Goto(s, t, RFree).(mutex := false, destroys := s.destroys + 1)
    case RFree => Goto(s, t, Idle).(live := false, frees := s.frees + 1)
    case RUnlock => Goto(s, t, Idle).(lock := None)
  }

  function Next(s: State, step: Step): State
    requires Enabled(s, step)
  {
    match step
    case Hold(t) => Goto(s, t, HLock)
    case Release(t) => Goto(s, t, RLock)
    case Execute(t) => Statement(s, t)
    case Give(t, to) =>
      var a, b := s.threads[t], s.threads[to];
      s.(threads := s.threads[t := a.(refs := a.refs - 1)][to := b.(refs := b.refs + 1)])
  }

  // ---------------------------------------------------------- references

  function References(ts: seq<Thread>): nat {
    if ts == [] then 0 else ts[0].refs + References(ts[1..])
  }

  lemma {:induction false} ReferencesUpdate(ts: seq<Thread>, t: nat, th: Thread)
    requires t < |ts|
    ensures References(ts[t := th]) + ts[t].refs == References(ts) + th.refs
    ensures References(ts) >= ts[t].refs
  {
    if t == 0 {
      assert ts[0 := th][1..] == ts[1..];
    } else {
      ReferencesUpdate(ts[1..], t - 1, th);
      assert ts[t := th][1..] == ts[1..][t - 1 := th];
    }
  }

  lemma {:induction false} NoReferences(ts: seq<Thread>)
    ensures References(ts) == 0 <==> forall t :: 0 <= t < |ts| ==> ts[t].refs == 0
  {
    if ts != [] { NoReferences(ts[1..]); }
  }

  // ------------------------------------------------------------- invariant

  predicate Inside(pc: PC) {
    pc == HIncrement || pc == HUnlock || pc == RDecrement || pc == RUnlockLast || pc == RUnlock
  }

  predicate NeedsRef(pc: PC) { pc == HLock || pc == HIncrement || pc == HUnlock || pc == RLock || pc == RDecrement }

  predicate Last(pc: PC) { pc == RUnlockLast || pc == RDestroy || pc == RFree }

  predicate Exclusive(s: State) {
    && (forall t :: 0 <= t < |s.threads| ==> (Inside(s.threads[t].pc) <==> s.lock == Some(t)))
    && (s.lock.Some? ==> s.lock.value < |s.threads|)
  }

  /** The count is right, and users hold references. */
  predicate Counted(s: State) {
    && s.f_count == References(s.threads)
    && (forall t :: 0 <= t < |s.threads| && NeedsRef(s.threads[t].pc) ==> s.threads[t].refs > 0)
  }

  /** Whoever released the last reference is alone with the object until it is gone. */
  predicate Alone(s: State) {
    && (forall t, u :: 0 <= t < |s.threads| && 0 <= u < |s.threads| && t != u && Last(s.threads[t].pc) ==>
          s.threads[u].pc == Idle)
    && (forall t :: 0 <= t < |s.threads| && Last(s.threads[t].pc) ==> s.f_count == 0)
  }

  predicate Lifetime(s: State) {
    && (s.live <==> s.f_count > 0 || exists t :: 0 <= t < |s.threads| && Last(s.threads[t].pc))
    && (!s.live ==> forall t :: 0 <= t < |s.threads| ==> s.threads[t].pc == Idle)
    && (s.mutex <==> s.live && forall t :: 0 <= t < |s.threads| ==> s.threads[t].pc != RFree)
    && s.destroys == (if s.mutex then 0 else 1)
    && s.frees == (if s.live then 0 else 1)
  }

  predicate Inv(s: State) { Exclusive(s) && Counted(s) && Alone(s) && Lifetime(s) }

  /** foo_alloc has returned the object to one thread, with f_count 1. */
  predicate Init(s: State) {
    && s == State(true, true, 1, None, s.threads, 0, 0)
    && References(s.threads) == 1
    && forall t :: 0 <= t < |s.threads| ==> s.threads[t].pc == Idle
  }

  lemma NoFault(s: State, t: nat)
    requires Inv(s) && t < |s.threads|
    ensures !Faults(s, t)
  {
    ReferencesUpdate(s.threads, t, s.threads[t]);
  }

  lemma KeepsExclusive(s: State, step: Step)
    requires Exclusive(s) && Enabled(s, step)
    ensures Exclusive(Next(s, step))
  {
  }

  /** The effect of a step on the references agrees with its effect on f_count. */
  lemma CountsReferences(s: State, step: Step)
    requires Inv(s) && Enabled(s, step)
    ensures Next(s, step).f_count == References(Next(s, step).threads)
  {
    var s' := Next(s, step);
    if step.Give? {
      var a := s.threads[step.t].(refs := s.threads[step.t].refs - 1);
      ReferencesUpdate(s.threads, step.t, a);
      ReferencesUpdate(s.threads[step.t := a], step.to, s'.threads[step.to]);
    } else {
      ReferencesUpdate(s.threads, step.t, s'.threads[step.t]);
    }
  }

  lemma KeepsNeeds(s: State, step: Step, u: nat)
    requires Counted(s) && Enabled(s, step) && u < |s.threads|
    requires NeedsRef(Next(s, step).threads[u].pc)
    ensures Next(s, step).threads[u].refs > 0
  {
    if step.Execute? { StatementKeepsNeeds(s, step.t, u); }
  }

  lemma StatementKeepsNeeds(s: State, t: nat, u: nat)
    requires Counted(s) && t < |s.threads| && u < |s.threads|
    ensures |Statement(s, t).threads| == |s.threads|
    ensures NeedsRef(Statement(s, t).threads[u].pc) ==> Statement(s, t).threads[u].refs > 0
  {
    match s.threads[t].pc
    case Idle =>
    case HLock =>
    case HIncrement =>
    case HUnlock =>
    case RLock =>
    case RDecrement =>
    case RUnlockLast =>
    case RDestroy =>
    case RFree =>
    case RUnlock =>
  }

  lemma KeepsCounted(s: State, step: Step)
    requires Inv(s) && Enabled(s, step)
    ensures Counted(Next(s, step))
  {
    var s' := Next(s, step);
    CountsReferences(s, step);
    forall u | 0 <= u < |s'.threads| && NeedsRef(s'.threads[u].pc) ensures s'.threads[u].refs > 0 {
      KeepsNeeds(s, step, u);
    }
  }

  /** When f_count reaches 0 nobody holds a reference, so everybody else is idle. */
  lemma LastIsAlone(s: State, t: nat)
    requires Inv(s) && t < |s.threads| && s.threads[t].pc == RDecrement && s.f_count == 1
    ensures forall u :: 0 <= u < |s.threads| && u != t ==> s.threads[u] == Thread(Idle, 0)
  {
    var s' := Statement(s, t);
    ReferencesUpdate(s.threads, t, s'.threads[t]);
    NoReferences(s'.threads);
    forall u | 0 <= u < |s.threads| && u != t ensures s.threads[u] == Thread(Idle, 0) {
      assert s'.threads[u] == s.threads[u] && s'.threads[u].refs == 0;
      assert !Inside(s.threads[u].pc);
    }
  }

  /** While a thread is past the last release, only it can move. */
  lemma OnlyLastMoves(s: State, step: Step, t: nat)
    requires Inv(s) && Enabled(s, step) && t < |s.threads| && Last(s.threads[t].pc)
    ensures step == Execute(t)
  {
    ReferencesUpdate(s.threads, step.t, s.threads[step.t]);
  }

  lemma KeepsAlone(s: State, step: Step)
    requires Inv(s) && Enabled(s, step)
    ensures Alone(Next(s, step))
  {
    var s' := Next(s, step);
    forall t | 0 <= t < |s'.threads| && Last(s'.threads[t].pc)
      ensures s'.f_count == 0
      ensures forall u :: 0 <= u < |s'.threads| && u != t ==> s'.threads[u].pc == Idle
    {
      if Last(s.threads[t].pc) {
        OnlyLastMoves(s, step, t);
      } else {
        LastIsAlone(s, t);
      }
    }
  }

  lemma KeepsLifetime(s: State, step: Step)
    requires Inv(s) && Enabled(s, step)
    ensures Lifetime(Next(s, step))
  {
    var s' := Next(s, step);
    ReferencesUpdate(s.threads, step.t, s.threads[step.t]);
    assert Last(s'.threads[step.t].pc) ==> exists t :: 0 <= t < |s'.threads| && Last(s'.threads[t].pc);
  }

  lemma KeepsInv(s: State, step: Step)
    requires Inv(s) && Enabled(s, step)
    ensures Inv(Next(s, step))
  {
    KeepsExclusive(s, step);
    KeepsCounted(s, step);
    KeepsAlone(s, step);
    KeepsLifetime(s, step);
  }

  // ------------------------------------------------------------ main results

  predicate Runs(s: State, steps: seq<Step>)
    decreases |steps|
  {
    steps == [] || (Enabled(s, steps[0]) && Runs(Next(s, steps[0]), steps[1..]))
  }

  function Run(s: State, steps: seq<Step>): State
    requires Runs(s, steps)
    decreases |steps|
  {
    if steps == [] then s else Run(Next(s, steps[0]), steps[1..])
  }

  lemma InitHolds(s: State)
    requires Init(s)
    ensures Inv(s)
  {
  }

  // ------------------------------------------------- what the calls have done

  /** How often a run has executed the statement at pc. */
  function Executed(s: State, steps: seq<Step>, pc: PC): nat
    requires Runs(s, steps)
    decreases |steps|
  {
    if steps == [] then 0
    else (if steps[0].Execute? && s.threads[steps[0].t].pc == pc then 1 else 0)
         + Executed(Next(s, steps[0]), steps[1..], pc)
  }

  /** What its own calls and the references handed over bring thread t, once they are done. */
  function Net(steps: seq<Step>, t: nat): int {
    if steps == [] then 0 else Gain(steps[0], t) + Net(steps[1..], t)
  }

  function Gain(step: Step, t: nat): int {
    match step
    case Hold(u) => if u == t then 1 else 0
    case Release(u) => if u == t then -1 else 0
    case Give(u, to) => (if to == t then 1 else 0) - (if u == t then 1 else 0)
    case Execute(_) => 0
  }

  /** The calls begun: foo_hold less foo_rele. */
  function Begun(steps: seq<Step>): int {
    if steps == [] then 0 else Begins(steps[0]) + Begun(steps[1..])
  }

  function Begins(step: Step): int { if step.Hold? then 1 else if step.Release? then -1 else 0 }

  /** What a thread inside a call has still to count. */
  function Due(pc: PC): int {
    if pc == HLock || pc == HIncrement then 1 else if pc == RLock || pc == RDecrement then -1 else 0
  }

  function AllDue(ts: seq<Thread>): int {
    if ts == [] then 0 else Due(ts[0].pc) + AllDue(ts[1..])
  }

  lemma {:induction false} AllDueUpdate(ts: seq<Thread>, t: nat, th: Thread)
    requires t < |ts|
    ensures AllDue(ts[t := th]) + Due(ts[t].pc) == AllDue(ts) + Due(th.pc)
  {
    if t == 0 {
      assert ts[0 := th][1..] == ts[1..];
    } else {
      AllDueUpdate(ts[1..], t - 1, th);
      assert ts[t := th][1..] == ts[1..][t - 1 := th];
    }
  }

  lemma {:induction false} NothingDue(ts: seq<Thread>)
    requires forall t :: 0 <= t < |ts| ==> ts[t].pc == Idle
    ensures AllDue(ts) == 0
  {
    if ts != [] { NothingDue(ts[1..]); }
  }

  /** A statement that counts does so for f_count and for the thread, and has then nothing to
      count any more. */
  lemma StatementCounts(s: State, t: nat)
    requires t < |s.threads| && (NeedsRef(s.threads[t].pc) ==> s.threads[t].refs > 0)
    ensures var s', th := Statement(s, t), s.threads[t];
            && |s'.threads| == |s.threads| && s'.threads == s.threads[t := s'.threads[t]]
            && s'.f_count + Due(s'.threads[t].pc) == s.f_count + Due(th.pc)
            && s'.threads[t].refs + Due(s'.threads[t].pc) == th.refs + Due(th.pc)
  {
    match s.threads[t].pc
    case Idle =>
    case HLock =>
    case HIncrement =>
    case HUnlock =>
    case RLock =>
    case RDecrement =>
    case RUnlockLast =>
    case RDestroy =>
    case RFree =>
    case RUnlock =>
  }

  /** What thread u holds and has still to count changes by what the step brings u. */
  lemma StepGains(s: State, step: Step, u: nat)
    requires Counted(s) && Enabled(s, step) && u < |s.threads|
    ensures |Next(s, step).threads| == |s.threads|
    ensures var th, th' := s.threads[u], Next(s, step).threads[u];
            th'.refs + Due(th'.pc) == th.refs + Due(th.pc) + Gain(step, u)
  {
    if step.Execute? { StatementCounts(s, step.t); }
  }

  /** f_count with what all threads have still to count changes by the call begun. */
  lemma StepBegins(s: State, step: Step)
    requires Counted(s) && Enabled(s, step)
    ensures var s' := Next(s, step);
            s'.f_count + AllDue(s'.threads) == s.f_count + AllDue(s.threads) + Begins(step)
  {
    var s' := Next(s, step);
    if step.Give? {
      GiveBegins(s.threads, step.t, step.to);
    } else if step.Execute? {
      StatementCounts(s, step.t);
      AllDueUpdate(s.threads, step.t, s'.threads[step.t]);
    } else {
      AllDueUpdate(s.threads, step.t, s'.threads[step.t]);
    }
  }

  lemma GiveBegins(ts: seq<Thread>, t: nat, to: nat)
    requires t < |ts| && to < |ts| && t != to && ts[t].refs > 0
    ensures AllDue(ts[t := ts[t].(refs := ts[t].refs - 1)][to := ts[to].(refs := ts[to].refs + 1)]) == AllDue(ts)
  {
    var a := ts[t].(refs := ts[t].refs - 1);
    AllDueUpdate(ts, t, a);
    AllDueUpdate(ts[t := a], to, ts[to].(refs := ts[to].refs + 1));
  }

  lemma {:induction false} RunGains(s: State, steps: seq<Step>, u: nat)
    requires Inv(s) && Runs(s, steps) && u < |s.threads|
    ensures |Run(s, steps).threads| == |s.threads|
    ensures var th, th' := s.threads[u], Run(s, steps).threads[u];
            th'.refs + Due(th'.pc) == th.refs + Due(th.pc) + Net(steps, u)
    decreases |steps|
  {
    if steps != [] {
      StepGains(s, steps[0], u);
      KeepsInv(s, steps[0]);
      RunGains(Next(s, steps[0]), steps[1..], u);
    }
  }

  lemma {:induction false} RunBegins(s: State, steps: seq<Step>)
    requires Inv(s) && Runs(s, steps)
    ensures var s' := Run(s, steps);
            s'.f_count + AllDue(s'.threads) == s.f_count + AllDue(s.threads) + Begun(steps)
    decreases |steps|
  {
    if steps != [] {
      StepBegins(s, steps[0]);
      KeepsInv(s, steps[0]);
      RunBegins(Next(s, steps[0]), steps[1..]);
    }
  }

  lemma {:induction false} RunExecutes(s: State, steps: seq<Step>)
    requires Runs(s, steps)
    ensures Run(s, steps).f_count == s.f_count + Executed(s, steps, HIncrement) - Executed(s, steps, RDecrement)
    decreases |steps|
  {
    if steps != [] {
      RunExecutes(Next(s, steps[0]), steps[1..]);
    }
  }

  /** The count is kept by the calls, not only alongside them. Over every run: f_count is 1
      plus the increments executed less the decrements executed, and also 1 plus the foo_hold
      calls less the foo_rele calls, but for those that have not counted yet; a thread between
      calls holds what it began with, one more for each foo_hold and each reference given to
      it, one less for each foo_rele and each one given away. */
  lemma CallsCount(s0: State, steps: seq<Step>, t: nat)
    requires Init(s0) && Runs(s0, steps) && t < |s0.threads|
    ensures var s := Run(s0, steps);
            && s.f_count == 1 + Executed(s0, steps, HIncrement) - Executed(s0, steps, RDecrement)
            && s.f_count + AllDue(s.threads) == 1 + Begun(steps)
            && ((forall u :: 0 <= u < |s.threads| ==> s.threads[u].pc == Idle) ==> s.f_count == 1 + Begun(steps))
            && |s.threads| == |s0.threads|
            && (s.threads[t].pc == Idle ==> s.threads[t].refs == s0.threads[t].refs + Net(steps, t))
  {
    InitHolds(s0);
    RunExecutes(s0, steps);
    NothingDue(s0.threads);
    RunGains(s0, steps, t);
    RunBegins(s0, steps);
    var s := Run(s0, steps);
    if forall u :: 0 <= u < |s.threads| ==> s.threads[u].pc == Idle { NothingDue(s.threads); }
  }

  lemma {:induction false} RunKeepsInv(s: State, steps: seq<Step>)
    requires Inv(s) && Runs(s, steps)
    ensures Inv(Run(s, steps))
    decreases |steps|
  {
    if steps != [] {
      KeepsInv(s, steps[0]);
      RunKeepsInv(Next(s, steps[0]), steps[1..]);
    }
  }

  /** Over every run: no thread ever touches the object after it is freed or the mutex after
      it is destroyed, and the mutex is destroyed unlocked with nobody waiting for it; f_count
      is the number of references outstanding; the object is alive while there is one; and
      once all calls have returned, it has been destroyed and freed, each once, if and only
      if no reference is left. */
  lemma SafeAndExact(s0: State, steps: seq<Step>)
    requires Init(s0) && Runs(s0, steps)
    ensures var s := Run(s0, steps);
            && (forall t :: 0 <= t < |s.threads| ==> !Faults(s, t))
            && s.f_count == References(s.threads)
            && (References(s.threads) > 0 ==> s.live && s.mutex && s.destroys == s.frees == 0)
            && s.destroys <= 1 && s.frees <= s.destroys
            && ((forall t :: 0 <= t < |s.threads| ==> s.threads[t].pc == Idle) ==>
                  (s.frees == s.destroys == 1 <==> References(s.threads) == 0))
  {
    InitHolds(s0);
    RunKeepsInv(s0, steps);
    var s := Run(s0, steps);
    forall t | 0 <= t < |s.threads| ensures !Faults(s, t) { NoFault(s, t); }
  }

  /** The lock cannot deadlock: if some call is in progress, some thread can go on. */
  lemma NoDeadlock(s0: State, steps: seq<Step>, t: nat)
    requires Init(s0) && Runs(s0, steps)
    requires t < |Run(s0, steps).threads| && Run(s0, steps).threads[t].pc != Idle
    ensures exists u :: Enabled(Run(s0, steps), Execute(u))
  {
    InitHolds(s0);
    RunKeepsInv(s0, steps);
    var s := Run(s0, steps);
    var u := if s.lock.Some? then s.lock.value else t;
    assert s.lock.Some? ==> Inside(s.threads[u].pc);
    assert Enabled(s, Execute(u));
  }
}
