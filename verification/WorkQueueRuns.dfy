/** What every run of the work queue keeps: each message is delivered once, the queue is a
    stack in lock order, no wakeup is lost, and what was enqueued is processed. */
module WorkQueueRuns {
  import opened Basics
  import opened WorkQueue

  // ------------------------------------------------------------ sums over threads

  function Sum(ts: seq<PC>, w: PC -> nat): nat {
    if ts == [] then 0 else w(ts[0]) + Sum(ts[1..], w)
  }

  lemma {:induction false} SumUpdate(ts: seq<PC>, t: nat, pc: PC, w: PC -> nat)
    requires t < |ts|
    ensures Sum(ts[t := pc], w) + w(ts[t]) == Sum(ts, w) + w(pc)
  {
    if t == 0 {
      assert ts[0 := pc][1..] == ts[1..];
    } else {
      SumUpdate(ts[1..], t - 1, pc, w);
      assert ts[t := pc][1..] == ts[1..][t - 1 := pc];
    }
  }

  lemma {:induction false} SumMonotone(a: seq<PC>, b: seq<PC>, w: PC -> nat, c: nat)
    requires |a| == |b|
    requires forall t :: 0 <= t < |a| ==> w(a[t]) <= w(b[t]) <= w(a[t]) + c
    ensures Sum(a, w) <= Sum(b, w) <= Sum(a, w) + c * |a|
  {
    if a != [] { SumMonotone(a[1..], b[1..], w, c); }
  }

  lemma {:induction false} SumStrict(a: seq<PC>, b: seq<PC>, w: PC -> nat, t: nat)
    requires |a| == |b| && t < |a| && w(a[t]) < w(b[t])
    requires forall u :: 0 <= u < |a| ==> w(a[u]) <= w(b[u])
    ensures Sum(a, w) < Sum(b, w)
  {
    if t == 0 {
      SumMonotoneOnly(a[1..], b[1..], w);
    } else {
      SumStrict(a[1..], b[1..], w, t - 1);
    }
  }

  lemma {:induction false} SumMonotoneOnly(a: seq<PC>, b: seq<PC>, w: PC -> nat)
    requires |a| == |b|
    requires forall u :: 0 <= u < |a| ==> w(a[u]) <= w(b[u])
    ensures Sum(a, w) <= Sum(b, w)
  {
    if a != [] { SumMonotoneOnly(a[1..], b[1..], w); }
  }

  lemma {:induction false} SumZero(ts: seq<PC>, w: PC -> nat)
    requires forall t :: 0 <= t < |ts| ==> w(ts[t]) == 0
    ensures Sum(ts, w) == 0
  {
    if ts != [] { SumZero(ts[1..], w); }
  }

  // ---------------------------------------------------------- no lost wakeup

  /** A producer that has changed workq and not yet signalled. */
  function Pending(pc: PC): nat { if pc == PUnlock || pc == PSignal then 1 else 0 }

  predicate IsConsumer(pc: PC) {
    !pc.Outside? && !pc.PLock? && !pc.PLink? && !pc.PPublish? && !pc.PUnlock? && !pc.PSignal?
  }

  /** A consumer that will look at workq before it sleeps. */
  function Awake(pc: PC): nat { if IsConsumer(pc) && pc != CAsleep then 1 else 0 }

  /** While some consumer sleeps, every message on the list has a signal on its way or an
      awake consumer of its own. */
  ghost predicate NoLostWakeup(s: State) {
    (exists t :: Asleep(s, t)) ==> |s.list| <= Sum(s.threads, Pending) + Sum(s.threads, Awake)
  }

  /** The step pays for a longer list with a signal due, or takes a message with a consumer
      awake; who falls asleep has seen the list empty. */
  predicate Pays(s: State, s': State, t: nat) {
    && t < |s.threads| == |s'.threads|
    && s'.threads == s.threads[t := s'.threads[t]]
    && (s'.threads[t] == CAsleep ==> s'.list == [])
    && (s'.threads[t] != CAsleep ==>
          |s'.list| + Pending(s.threads[t]) + Awake(s.threads[t])
          <= |s.list| + Pending(s'.threads[t]) + Awake(s'.threads[t]))
  }

  lemma ProducerPays(s: State, t: nat)
    requires t < |s.threads| && !IsConsumer(s.threads[t]) && !Faults(s, s.threads[t])
    requires s.threads[t] != Outside && s.threads[t] != PSignal
    ensures Pays(s, Statement(s, t), t)
  {
  }

  lemma ConsumerPays(s: State, t: nat)
    requires Structure(s) && t < |s.threads| && IsConsumer(s.threads[t]) && !Faults(s, s.threads[t])
    requires s.threads[t] != CAsleep && !s.threads[t].CAdvance?
    ensures Pays(s, Statement(s, t), t)
  {
  }

  lemma AdvancePays(s: State, t: nat)
    requires Structure(s) && t < |s.threads| && s.threads[t].CAdvance? && !Faults(s, s.threads[t])
    ensures Pays(s, Statement(s, t), t)
  {
    AdvanceKeepsShape(s, t, s.threads[t].mp);
  }

  lemma StepPays(s: State, step: Step)
    requires Structure(s) && Enabled(s, step) && !Faults(s, s.threads[step.t]) && !step.Signal?
    ensures Pays(s, Next(s, step), step.t)
  {
    var pc := s.threads[step.t];
    if step.Execute? {
      if !IsConsumer(pc) {
        ProducerPays(s, step.t);
      } else if pc.CAdvance? {
        AdvancePays(s, step.t);
      } else {
        ConsumerPays(s, step.t);
      }
    }
  }

  lemma PaidKeepsWakeup(s: State, s': State, t: nat)
    requires NoLostWakeup(s) && Pays(s, s', t)
    ensures NoLostWakeup(s')
  {
    SumUpdate(s.threads, t, s'.threads[t], Pending);
    SumUpdate(s.threads, t, s'.threads[t], Awake);
    assert s'.threads[t] != CAsleep ==> forall u :: Asleep(s', u) ==> Asleep(s, u);
  }

  lemma SignalKeepsWakeup(s: State, step: Step)
    requires NoLostWakeup(s) && Enabled(s, step) && step.Signal?
    ensures NoLostWakeup(Next(s, step))
  {
    var s' := Next(s, step);
    if u :| Asleep(s', u) {
      assert Asleep(s, u);
      var v :| v in step.woken;
      assert Asleep(s, v);
      WakePays(s.threads, step.t, step.woken, v);
    }
  }

  lemma WakePays(ts: seq<PC>, t: nat, woken: set<nat>, v: nat)
    requires t < |ts| && ts[t] == PSignal && v in woken
    requires forall u :: u in woken ==> u < |ts| && ts[u] == CAsleep
    ensures var ts' := Wake(ts, woken)[t := Outside];
            Sum(ts, Pending) + Sum(ts, Awake) <= Sum(ts', Pending) + Sum(ts', Awake)
  {
    var ws := Wake(ts, woken);
    SumUpdate(ws, t, Outside, Pending);
    SumUpdate(ws, t, Outside, Awake);
    SumMonotone(ts, ws, Pending, 0);
    SumStrict(ts, ws, Awake, v);
  }

  // --------------------------------------------------------- one delivery each

  /** The message in each live node, and the nodes whose message is already printed. */
  function Data(heap: map<Node, Msg>): map<Node, nat> { map n | n in heap :: heap[n].data }

  function Done(ts: seq<PC>): set<Node> { set t | 0 <= t < |ts| && ts[t].CFree? :: ts[t].mp }

  /** Live nodes carry different messages; a message is printed once, the nodes done are those
      whose message is printed; and every message issued is printed or in a live node. */
  ghost predicate Accounted(data: map<Node, nat>, done: set<Node>, printed: seq<nat>, issued: nat) {
    && (forall n :: n in data ==> data[n] < issued && (data[n] in printed <==> n in done))
    && (forall n, m :: n in data && m in data && n != m ==> data[n] != data[m])
    && (forall a, b :: 0 <= a < b < |printed| ==> printed[a] != printed[b])
    && (forall a :: 0 <= a < |printed| ==> printed[a] < issued)
    && (forall k :: 0 <= k < issued ==> k in printed || k in data.Values)
  }

  ghost predicate Messages(s: State) { Accounted(Data(s.heap), Done(s.threads), s.printed, s.issued) }

  lemma AccountIssue(data: map<Node, nat>, done: set<Node>, printed: seq<nat>, issued: nat, n: Node)
    requires Accounted(data, done, printed, issued) && n !in data && n !in done
    ensures Accounted(data[n := issued], done, printed, issued + 1)
  {
    var data' := data[n := issued];
    assert n in data' && data'[n] == issued;
    forall k | 0 <= k < issued + 1 ensures k in printed || k in data'.Values {
      if k < issued && k !in printed {
        var m :| m in data && data[m] == k;
        assert m in data' && data'[m] == k;
      }
    }
  }

  lemma AccountPrint(data: map<Node, nat>, done: set<Node>, printed: seq<nat>, issued: nat, n: Node)
    requires Accounted(data, done, printed, issued) && n in data && n !in done
    ensures Accounted(data, done + {n}, printed + [data[n]], issued)
  {
  }

  lemma AccountFree(data: map<Node, nat>, done: set<Node>, printed: seq<nat>, issued: nat, n: Node)
    requires Accounted(data, done, printed, issued) && n in data && n in done
    ensures Accounted(data - {n}, done - {n}, printed, issued)
  {
    var data' := data - {n};
    forall k | 0 <= k < issued ensures k in printed || k in data'.Values {
      if k !in printed {
        var m :| m in data && data[m] == k;
        assert m in data' && data'[m] == k;
      }
    }
  }

  /** Replaying the changes of workq on a stack; None if a pop does not take the top. */
  function Replay(log: seq<Event>): Option<seq<nat>> {
    if log == [] then Some([])
    else
      match Replay(log[..|log| - 1])
      case None => None
      case Some(stack) =>
        match log[|log| - 1]
        case Pushed(d) => Some(stack + [d])
        case Popped(d) =>
          if stack != [] && stack[|stack| - 1] == d then Some(stack[..|stack| - 1]) else None
  }

  function Contents(heap: map<Node, Msg>, list: seq<Node>): (c: seq<nat>)
    ensures |c| == |list|
    ensures forall k :: 0 <= k < |c| && list[k] in heap ==> c[k] == heap[list[k]].data
  {
    seq(|list|, k requires 0 <= k < |list| => if list[k] in heap then heap[list[k]].data else 0)
  }

  lemma ListIsLive(s: State)
    requires Shape(s)
    ensures forall k :: 0 <= k < |s.list| ==> s.list[k] in s.heap
  {
    forall k | 0 <= k < |s.list| ensures s.list[k] in s.heap {
      assert LinkAt(s.heap, s.list, k);
    }
  }

  /** The messages on the list are what a stack holds after the changes made under the lock. */
  ghost predicate LIFO(s: State) { Replay(s.log) == Some(Contents(s.heap, s.list)) }

  lemma DataUpdate(heap: map<Node, Msg>, n: Node, m: Msg)
    ensures Data(heap[n := m]) == Data(heap)[n := m.data]
    ensures n in heap && heap[n].data == m.data ==> Data(heap[n := m]) == Data(heap)
  {
  }

  /** Everything but Call, CPrint and CFree leaves the messages of the live nodes alone. */
  lemma MessageEffect(s: State, step: Step)
    requires step.t < |s.threads| && Enabled(s, step) && !Faults(s, s.threads[step.t])
    ensures var s' := Next(s, step);
            var pc := s.threads[step.t];
            && s'.issued == s.issued + (if step.Call? then 1 else 0)
            && s'.printed == s.printed + (if pc.CPrint? then [Data(s.heap)[pc.mp]] else [])
            && Data(s'.heap) == if step.Call? then Data(s.heap)[step.node := s.issued]
                                else if pc.CFree? then Data(s.heap) - {pc.mp}
                                else Data(s.heap)
  {
    var pc := s.threads[step.t];
    if step.Call? {
      DataUpdate(s.heap, step.node, Msg(step.garbage, s.issued));
    } else if pc.PLink? {
      DataUpdate(s.heap, pc.mp, Msg(s.workq, s.heap[pc.mp].data));
    } else if pc.CFree? {
      assert Data(s.heap - {pc.mp}) == Data(s.heap) - {pc.mp};
    } else {
      assert Next(s, step).heap == s.heap;
    }
  }

  lemma DoneSame(ts: seq<PC>, ts': seq<PC>)
    requires |ts| == |ts'|
    requires forall t :: 0 <= t < |ts| ==> (ts[t].CFree? || ts'[t].CFree? ==> ts'[t] == ts[t])
    ensures Done(ts') == Done(ts)
  {
    forall n ensures n in Done(ts') <==> n in Done(ts) {
      if n in Done(ts) {
        var t :| 0 <= t < |ts| && ts[t].CFree? && ts[t].mp == n;
        assert ts'[t].CFree? && ts'[t].mp == n;
      }
      if n in Done(ts') {
        var t :| 0 <= t < |ts| && ts'[t].CFree? && ts'[t].mp == n;
        assert ts[t].CFree? && ts[t].mp == n;
      }
    }
  }

  lemma DoneOthers(s: State, step: Step)
    requires Structure(s) && Enabled(s, step) && !Faults(s, s.threads[step.t])
    requires !s.threads[step.t].CPrint? && !s.threads[step.t].CFree?
    ensures Done(Next(s, step).threads) == Done(s.threads)
  {
    if step.Signal? {
      DoneSame(s.threads, Next(s, step).threads);
    } else {
      LockEffect(s, step);
      DoneSame(s.threads, Next(s, step).threads);
    }
  }

  lemma DonePrint(ts: seq<PC>, t: nat, n: Node)
    requires t < |ts| && ts[t] == CPrint(n)
    ensures Done(ts[t := CFree(n)]) == Done(ts) + {n}
  {
    var ts' := ts[t := CFree(n)];
    assert ts'[t].CFree? && ts'[t].mp == n;
    forall m | m in Done(ts) ensures m in Done(ts') {
      var u :| 0 <= u < |ts| && ts[u].CFree? && ts[u].mp == m;
      assert ts'[u].CFree? && ts'[u].mp == m;
    }
  }

  lemma DoneFree(ts: seq<PC>, t: nat, n: Node)
    requires t < |ts| && ts[t] == CFree(n)
    requires forall u :: 0 <= u < |ts| && u != t ==> ts[u] != CFree(n)
    ensures n in Done(ts) && Done(ts[t := CLock]) == Done(ts) - {n}
  {
    var ts' := ts[t := CLock];
    assert ts[t].CFree? && ts[t].mp == n;
    forall m | m in Done(ts) && m != n ensures m in Done(ts') {
      var u :| 0 <= u < |ts| && ts[u].CFree? && ts[u].mp == m;
      assert ts'[u].CFree? && ts'[u].mp == m;
    }
  }

  /** A node in the hands of one thread is in the hands of no other. */
  lemma OneHolder(s: State, t: nat, u: nat)
    requires Owned(s) && t < |s.threads| && u < |s.threads| && t != u
    requires Holds(s.threads[t]).Some?
    ensures Holds(s.threads[t]).value in s.heap && Holds(s.threads[u]) != Holds(s.threads[t])
  {
  }

  lemma NotDone(s: State, t: nat)
    requires Owned(s) && t < |s.threads| && Holds(s.threads[t]).Some? && !s.threads[t].CFree?
    ensures Holds(s.threads[t]).value !in Done(s.threads)
  {
    var n := Holds(s.threads[t]).value;
    forall u | 0 <= u < |s.threads| && s.threads[u].CFree? ensures s.threads[u].mp != n {
      assert Holds(s.threads[u]) == Some(s.threads[u].mp);
      if u != t { OneHolder(s, t, u); }
    }
  }

  lemma DeadNotDone(s: State, n: Node)
    requires Owned(s) && n !in s.heap
    ensures n !in Done(s.threads)
  {
    forall u | 0 <= u < |s.threads| && s.threads[u].CFree? ensures s.threads[u].mp != n {
      assert Holds(s.threads[u]) == Some(s.threads[u].mp);
    }
  }

  lemma KeepsMessages(s: State, step: Step)
    requires Structure(s) && Messages(s) && Enabled(s, step) && !Faults(s, s.threads[step.t])
    ensures Messages(Next(s, step))
  {
    var pc, data, done := s.threads[step.t], Data(s.heap), Done(s.threads);
    MessageEffect(s, step);
    if pc.CPrint? {
      NotDone(s, step.t);
      DonePrint(s.threads, step.t, pc.mp);
      AccountPrint(data, done, s.printed, s.issued, pc.mp);
    } else if pc.CFree? {
      forall u | 0 <= u < |s.threads| && u != step.t ensures s.threads[u] != CFree(pc.mp) {
        OneHolder(s, step.t, u);
      }
      DoneFree(s.threads, step.t, pc.mp);
      AccountFree(data, done, s.printed, s.issued, pc.mp);
    } else {
      DoneOthers(s, step);
      if step.Call? {
        DeadNotDone(s, step.node);
        AccountIssue(data, done, s.printed, s.issued, step.node);
      }
    }
  }

  // ------------------------------------------------------------------- stack

  lemma ReplayPush(log: seq<Event>, d: nat)
    ensures Replay(log + [Pushed(d)]) == match Replay(log) case None => None case Some(c) => Some(c + [d])
  {
    assert (log + [Pushed(d)])[..|log|] == log;
  }

  lemma ReplayPop(log: seq<Event>, c: seq<nat>)
    requires c != [] && Replay(log) == Some(c)
    ensures Replay(log + [Popped(c[|c| - 1])]) == Some(c[..|c| - 1])
  {
    assert (log + [Popped(c[|c| - 1])])[..|log|] == log;
  }

  lemma PublishKeepsLIFO(s: State, t: nat, mp: Node)
    requires Structure(s) && LIFO(s) && t < |s.threads| && s.threads[t] == PPublish(mp) && mp in s.heap
    ensures LIFO(Statement(s, t))
  {
    ReplayPush(s.log, s.heap[mp].data);
    assert Contents(s.heap, s.list + [mp]) == Contents(s.heap, s.list) + [s.heap[mp].data];
  }

  lemma AdvanceKeepsLIFO(s: State, t: nat, mp: Node)
    requires Structure(s) && LIFO(s) && t < |s.threads| && s.threads[t] == CAdvance(mp) && mp in s.heap
    ensures LIFO(Statement(s, t))
  {
    AdvanceKeepsShape(s, t, mp);
    var c := Contents(s.heap, s.list);
    ReplayPop(s.log, c);
    assert Contents(s.heap, s.list[..|s.list| - 1]) == c[..|c| - 1];
  }

  lemma OthersKeepLIFO(s: State, step: Step)
    requires Structure(s) && LIFO(s) && Enabled(s, step) && !Faults(s, s.threads[step.t])
    requires !s.threads[step.t].PPublish? && !s.threads[step.t].CAdvance?
    ensures LIFO(Next(s, step))
  {
    var s' := Next(s, step);
    var pc := s.threads[step.t];
    ListIsLive(s);
    MessageEffect(s, step);
    if pc.CFree? { assert Holds(pc) == Some(pc.mp) && pc.mp !in s.list; }
    SameContents(s.heap, s'.heap, s.list);
    SameListAndLog(s, step);
  }

  lemma SameListAndLog(s: State, step: Step)
    requires Enabled(s, step) && !Faults(s, s.threads[step.t])
    requires !s.threads[step.t].PPublish? && !s.threads[step.t].CAdvance?
    ensures Next(s, step).list == s.list && Next(s, step).log == s.log
  {
  }

  lemma SameContents(heap: map<Node, Msg>, heap': map<Node, Msg>, list: seq<Node>)
    requires forall k :: 0 <= k < |list| ==> list[k] in heap
    requires forall n :: n in list && n in Data(heap) ==> n in Data(heap') && Data(heap')[n] == Data(heap)[n]
    ensures Contents(heap', list) == Contents(heap, list)
  {
    forall k | 0 <= k < |list| ensures Contents(heap', list)[k] == Contents(heap, list)[k] {
      assert list[k] in list && list[k] in Data(heap);
    }
  }

  lemma KeepsLIFO(s: State, step: Step)
    requires Structure(s) && LIFO(s) && Enabled(s, step) && !Faults(s, s.threads[step.t])
    ensures LIFO(Next(s, step))
  {
    var pc := s.threads[step.t];
    if pc.PPublish? {
      PublishKeepsLIFO(s, step.t, pc.mp);
    } else if pc.CAdvance? {
      AdvanceKeepsLIFO(s, step.t, pc.mp);
    } else {
      OthersKeepLIFO(s, step);
    }
  }
}
