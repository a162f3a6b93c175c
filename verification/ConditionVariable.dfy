/**
 `condition_variable` as its code runs: one thread's statements in order, the other threads
 interleaved anywhere between two of them.
 */
module ConditionVariable {
  import opened Options
  import opened CvProtocol
  import opened CvInvariant
  import opened CvRuns
  import opened CvProperties
  import opened CvCalls

  /** What thread `t` can rely on while the others run. */
  ghost predicate Rely(s: State, t: Tid, s': State) {
    && t in s.pcs && t in s'.pcs && s'.pcs[t] == s.pcs[t]
    && (s'.m == Some(t) <==> s.m == Some(t))
    && (s'.u == Some(t) <==> s.u == Some(t))
    && (s.m == Some(t) ==> s'.list == s.list && s'.issued == s.issued)
    && |s.sems| <= |s'.sems|
    && (forall k :: 0 <= k < |s.sems| && Ticket(s.pcs[t]) == Some(k) ==>
          s'.sems[k].limit == s.sems[k].limit && s'.sems[k].stage == s.sems[k].stage)
  }

  lemma StepRely(s: State, t: Tid, a: Action)
    requires Inv(s) && t in s.pcs && Enabled(s, a) && a.t != t && Next(s, a).halt.Running?
    ensures Rely(s, t, Next(s, a))
  {
    StepLocal(s, a);
    assert LocksAt(s, a.t) && LocksAt(s, t) && OwnAt(s, a.t) && OwnAt(s, t);
    if s.m == Some(t) { HolderUndisturbed(s, a, t); }
  }

  lemma {:induction false} OthersRely(s: State, t: Tid, acts: seq<Action>)
    requires Inv(s) && t in s.pcs && Others(s, t, acts).halt.Running?
    ensures Inv(Others(s, t, acts)) && Rely(s, t, Others(s, t, acts))
    decreases |acts|
  {
    if acts != [] {
      if acts[0].t != t && Enabled(s, acts[0]) {
        var s' := Next(s, acts[0]);
        if !s'.halt.Running? { StoppedStays(s', t, acts[1..]); }
        StepRely(s, t, acts[0]);
        InvKept(s, acts[0]);
        OthersRely(s', t, acts[1..]);
      } else {
        OthersRely(s, t, acts[1..]);
      }
    }
  }

  /** How a wait call ends in a given interleaving. */
  datatype WaitResult =
    | Finished(timeout: bool)   // returned cv_status::timeout or cv_status::no_timeout
    | Thrown                    // left by the exception for a negative duration
    | StillWaiting              // still waiting for a mutex or a token
    | Stopped                   // the run has stopped

  /** Since state `at` the oldest node, if any, has been signalled and taken off the list, and nothing else. */
  ghost predicate ServedOldest(at: State, list: seq<nat>, issued: seq<nat>) {
    if at.list == [] then list == [] && issued == at.issued
    else list == at.list[1..] && issued == at.issued + [at.list[0]]
  }

  class ConditionVariable {
    var mutex: Option<Tid>       // m_mutex
    var nodes: seq<nat>          // m_wait
    var user: Option<Tid>        // the caller's mutex
    var sems: seq<Sem>
    var pcs: map<Tid, Pc>
    var issued: seq<nat>
    var halt: Halt

    function View(): State
      reads this
    {
      State(user, mutex, nodes, sems, pcs, issued, halt)
    }

    ghost predicate Live(t: Tid)
      reads this
    {
      Inv(View()) && halt.Running? && t in pcs
    }

    /** The other threads take a turn. */
    method Interfere(t: Tid, acts: seq<Action>)
      requires Live(t)
      modifies this
      ensures View() == Others(old(View()), t, acts)
      ensures halt.Running? ==> Live(t) && Rely(old(View()), t, View())
    {
      var s := Others(View(), t, acts);
      if s.halt.Running? { OthersRely(View(), t, acts); }
      user, mutex, nodes, sems, pcs, issued, halt := s.u, s.m, s.list, s.sems, s.pcs, s.issued, s.halt;
    }

    /** A turn of the others while this thread holds `m_mutex`: its list and its progress are safe from them. */
    method InterfereLocked(t: Tid, acts: seq<Action>, ghost p: Plan, ghost n: nat)
      requires Live(t) && mutex == Some(t) && p.t == t && After(p, n, View()) && acts == p.sched(n)
      modifies this
      ensures During(p, n, View())
      ensures halt.Running? ==>
        Live(t) && mutex == Some(t) && pcs[t] == old(pcs[t]) && nodes == old(nodes) && issued == old(issued)
    {
      OthersHadTurn(p, n, View());
      Interfere(t, acts);
    }

    method CallOne(t: Tid, ghost p: Plan)
      requires Live(t) && pcs[t].Idle? && p.t == t && p.from == View() && p.call == CallNotifyOne(t)
      modifies this`pcs
      ensures Live(t) && pcs[t].OneTakeM? && View() == Goto(old(View()), t, OneTakeM) && After(p, 0, View())
    {
      InvKept(View(), CallNotifyOne(t));
      CallMade(p);
      pcs := pcs[t := OneTakeM];
    }

    method CallAll(t: Tid, ghost p: Plan)
      requires Live(t) && pcs[t].Idle? && p.t == t && p.from == View() && p.call == CallNotifyAll(t)
      modifies this`pcs
      ensures Live(t) && pcs[t].AllTakeM? && View() == Goto(old(View()), t, AllTakeM) && After(p, 0, View())
    {
      InvKept(View(), CallNotifyAll(t));
      CallMade(p);
      pcs := pcs[t := AllTakeM];
    }

    /** Thread `t` is about to make step `n` of its call, the others having had their turn. */
    ghost predicate Ready(t: Tid, p: Plan, n: nat)
      reads this
    {
      Live(t) && p.t == t && !p.expired && During(p, n, View())
    }

    /** Line 37, once `m_mutex` is free. */
    method TakeForOne(t: Tid, ghost p: Plan, ghost n: nat)
      requires Ready(t, p, n) && mutex.None? && pcs[t].OneTakeM?
      modifies this`mutex, this`pcs
      ensures Live(t) && View() == Next(old(View()), Run(t)) && After(p, n + 1, View())
      ensures mutex == Some(t) && pcs[t].OneSignal?
    {
      InvKept(View(), Run(t));
      OwnStepMade(p, n, View());
      mutex, pcs := Some(t), pcs[t := OneSignal];
    }

    /** `release()` of the semaphore a node points to: it gets its token, unless it is full or destroyed. */
    method Release(k: nat)
      requires k < |sems| && halt.Running?
      modifies this`sems, this`issued, this`halt
      ensures |sems| == |old(sems)| && forall j :: 0 <= j < |sems| && j != k ==> sems[j] == old(sems)[j]
      ensures halt.Running? <==> old(sems)[k].alive && old(sems)[k].count == 0
      ensures halt.Running? ==> sems[k] == old(sems)[k].(count := 1) && issued == old(issued) + [k]
      ensures !halt.Running? ==> sems[k] == old(sems)[k] && issued == old(issued)
      ensures !halt.Running? ==> halt == if old(sems)[k].alive then Overflow(k) else DeadRelease(k)
    {
      if !sems[k].alive {
        halt := DeadRelease(k);
      } else if sems[k].count > 0 {
        halt := Overflow(k);
      } else {
        sems := sems[k := sems[k].(count := 1)];
        issued := issued + [k];
      }
    }

    /** The oldest node of state `at` is signalled, and popped if the pop is not the next step. */
    ghost predicate FrontSignalled(t: Tid, at: State)
      reads this
    {
      && t in pcs && mutex == Some(t)
      && if pcs[t].OnePop? then nodes == at.list != [] && issued == at.issued + [at.list[0]]
         else pcs[t].NotifyDropM? && ServedOldest(at, nodes, issued)
    }

    /** Lines 38 and 40. */
    method SignalFront(t: Tid, ghost at: State, ghost p: Plan, ghost n: nat)
      requires Ready(t, p, n)
      requires mutex == Some(t) && pcs[t].OneSignal? && nodes == at.list && issued == at.issued
      modifies this`sems, this`issued, this`halt, this`pcs
      ensures View() == Next(old(View()), Run(t)) && After(p, n + 1, View())
      ensures halt.Running? ==> Live(t) && FrontSignalled(t, at) && (pcs[t].OnePop? <==> at.list != [])
    {
      ghost var s := View();
      OwnStepMade(p, n, s);
      if nodes != [] {
        Release(nodes[0]);
        ReleaseIsSignal(s, View(), s.list[0]);
        pcs := pcs[t := OnePop];
      } else {
        pcs := pcs[t := NotifyDropM];
      }
      if halt.Running? { FrontSignalKept(at, s, t); }
    }

    /** Line 41. */
    method PopFront(t: Tid, ghost at: State, ghost p: Plan, ghost n: nat)
      requires Ready(t, p, n) && FrontSignalled(t, at) && pcs[t].OnePop?
      modifies this`nodes, this`pcs
      ensures View() == Next(old(View()), Run(t)) && After(p, n + 1, View())
      ensures Live(t) && FrontSignalled(t, at) && pcs[t].NotifyDropM?
    {
      ghost var s := View();
      nodes, pcs := nodes[1..], pcs[t := NotifyDropM];
      InvKept(s, Run(t));
      OwnStepMade(p, n, s);
      OneProgressKept(at, s, Run(t), t);
    }

    /** Lines 43 and 52. */
    method Unlock(t: Tid, ghost p: Plan, ghost n: nat)
      requires Ready(t, p, n) && pcs[t].NotifyDropM?
      modifies this`mutex, this`pcs
      ensures Live(t) && View() == Next(old(View()), Run(t)) && After(p, n + 1, View())
      ensures mutex.None? && pcs[t].Idle?
    {
      InvKept(View(), Run(t));
      OwnStepMade(p, n, View());
      mutex, pcs := None, pcs[t := Idle];
    }

    /** Lines 41 to 43. */
    method PopAndUnlock(t: Tid, sched: nat -> seq<Action>, ghost at: State, ghost p: Plan) returns (ghost n: nat)
      requires Ready(t, p, 2) && FrontSignalled(t, at) && (pcs[t].OnePop? <==> at.list != []) && p.sched == sched
      modifies this
      ensures halt.Running? ==> Live(t) && pcs[t].Idle? && mutex.None? && ServedOldest(at, nodes, issued)
      ensures halt.Running? ==> After(p, n, View()) && n == if at.list == [] then 3 else 4
      ensures !halt.Running? ==> During(p, n, View())
    {
      n := 2;
      if pcs[t].OnePop? {
        PopFront(t, at, p, n);
        n := 3;
        InterfereLocked(t, sched(3), p, n);
      }
      if halt.Running? {
        Unlock(t, p, n);
        n := n + 1;
      }
    }

    /** Lines 38 to 43: the body of `notify_one` under its lock. */
    method SignalAndPop(t: Tid, sched: nat -> seq<Action>, ghost at: State, ghost p: Plan) returns (ghost n: nat)
      requires Ready(t, p, 1) && p.sched == sched
      requires mutex == Some(t) && pcs[t].OneSignal? && nodes == at.list && issued == at.issued
      modifies this
      ensures halt.Running? ==> Live(t) && pcs[t].Idle? && mutex.None? && ServedOldest(at, nodes, issued)
      ensures halt.Running? ==> After(p, n, View()) && n == if at.list == [] then 3 else 4
      ensures !halt.Running? ==> During(p, n, View()) || (n == 2 && After(p, n, View()))
    {
      SignalFront(t, at, p, 1);
      n := 2;
      if halt.Running? {
        InterfereLocked(t, sched(2), p, n);
        if halt.Running? {
          n := PopAndUnlock(t, sched, at, p);
        }
      }
    }

    /** Lines 37 to 43, once `m_mutex` is free. */
    method NotifyOneLocked(t: Tid, sched: nat -> seq<Action>, ghost p: Plan) returns (ghost n: nat)
      requires Ready(t, p, 0) && pcs[t].OneTakeM? && mutex.None? && p.sched == sched
      modifies this
      ensures halt.Running? ==> Live(t) && pcs[t].Idle? && mutex.None? && ServedOldest(old(View()), nodes, issued)
      ensures halt.Running? ==> After(p, n, View()) && n == if old(nodes) == [] then 3 else 4
      ensures !halt.Running? ==> During(p, n, View()) || (n == 2 && After(p, n, View()))
    {
      ghost var at := View();
      TakeForOne(t, p, 0);
      n := 1;
      InterfereLocked(t, sched(1), p, n);
      if halt.Running? {
        n := SignalAndPop(t, sched, at, p);
      }
    }

    /**
     `notify_one`, with `sched(i)` the steps of other threads before its `i`-th step.  State `at` is
     the one in which it takes `m_mutex`, and `n` its turns; it is not done if the mutex stays taken or
     the run stops, in a turn of the others or when it signals.
     */
    method NotifyOne(t: Tid, sched: nat -> seq<Action>) returns (done: bool, ghost at: State, ghost n: nat)
      requires Live(t) && pcs[t].Idle?
      modifies this
      ensures at == Others(Goto(old(View()), t, OneTakeM), t, sched(0)) && StopsFor(t, View())
      ensures done ==> Live(t) && pcs[t].Idle? && mutex.None? && ServedOldest(at, nodes, issued)
      ensures var p := Plan(t, old(View()), CallNotifyOne(t), sched, false);
        done ==> After(p, n, View()) && n == if at.list == [] then 3 else 4
      ensures var p := Plan(t, old(View()), CallNotifyOne(t), sched, false);
        !done ==> During(p, n, View()) || (n == 2 && !halt.Running? && After(p, n, View()))
      ensures !done && halt.Running? ==> View() == at && Live(t) && pcs[t].OneTakeM? && mutex.Some? && n == 0
    {
      ghost var p := Plan(t, View(), CallNotifyOne(t), sched, false);
      CallOne(t, p);
      OthersHadTurn(p, 0, View());
      Interfere(t, sched(0));
      at := View();
      n := 0;
      done := halt.Running? && mutex.None?;
      if done {
        n := NotifyOneLocked(t, sched, p);
        done := halt.Running?;
      }
      ScriptStops(p, n, View());
    }

    /** Line 47, once `m_mutex` is free. */
    method TakeForAll(t: Tid, ghost p: Plan, ghost n: nat)
      requires Ready(t, p, n) && mutex.None? && pcs[t].AllTakeM?
      modifies this`mutex, this`pcs
      ensures Live(t) && View() == Next(old(View()), Run(t)) && AllProgress(old(View()), View(), t)
      ensures pcs[t] == AllSignal(0) && After(p, n + 1, View())
    {
      InvKept(View(), Run(t));
      OwnStepMade(p, n, View());
      mutex, pcs := Some(t), pcs[t := AllSignal(0)];
      assert nodes[..0] == [];
    }

    /** Line 49. */
    method SignalNext(t: Tid, i: nat, ghost at: State, ghost p: Plan, ghost n: nat)
      requires Ready(t, p, n) && AllProgress(at, View(), t) && pcs[t] == AllSignal(i) && i < |nodes|
      modifies this`sems, this`issued, this`halt, this`pcs
      ensures View() == Next(old(View()), Run(t)) && After(p, n + 1, View())
      ensures halt.Running? ==> Live(t) && AllProgress(at, View(), t) && pcs[t] == AllSignal(i + 1)
    {
      ghost var s := View();
      OwnStepMade(p, n, s);
      Release(nodes[i]);
      ReleaseIsSignal(s, View(), s.list[i]);
      pcs := pcs[t := AllSignal(i + 1)];
      if halt.Running? {
        InvKept(s, Run(t));
        AllProgressKept(at, s, Run(t), t);
      }
    }

    /** Line 51. */
    method Clear(t: Tid, ghost at: State, ghost p: Plan, ghost n: nat)
      requires Ready(t, p, n) && AllProgress(at, View(), t) && pcs[t] == AllSignal(|nodes|)
      modifies this`nodes, this`pcs
      ensures View() == Next(old(View()), Run(t)) && After(p, n + 1, View())
      ensures Live(t) && mutex == Some(t) && pcs[t].NotifyDropM?
      ensures nodes == [] && issued == at.issued + at.list
    {
      ghost var s := View();
      nodes, pcs := [], pcs[t := NotifyDropM];
      OwnStepMade(p, n, s);
      InvKept(s, Run(t));
      AllProgressKept(at, s, Run(t), t);
    }

    /** Where the loop of `notify_all` is before its round `i`, unless the run has stopped. */
    ghost predicate InLoop(t: Tid, i: nat, at: State, p: Plan)
      reads this
    {
      if halt.Running? then
        Ready(t, p, i + 1) && AllProgress(at, View(), t) && pcs[t] == AllSignal(i) && i <= |nodes| == |at.list|
      else
        During(p, i + 1, View()) || After(p, i + 1, View())
    }

    /** One round of the loop, and the turn of the others after it. */
    method SignalRound(t: Tid, i: nat, acts: seq<Action>, ghost at: State, ghost p: Plan)
      requires halt.Running? && InLoop(t, i, at, p) && i < |nodes| && acts == p.sched(i + 2)
      modifies this
      ensures InLoop(t, i + 1, at, p)
      ensures |old(nodes)| == |at.list| && (halt.Running? ==> i < |nodes| == |at.list|)
    {
      SignalNext(t, i, at, p, i + 1);
      if halt.Running? {
        InterfereLocked(t, acts, p, i + 2);
      }
    }

    /** Lines 48 and 49: the loop of `notify_all`, of `n` rounds. */
    method SignalAll(t: Tid, sched: nat -> seq<Action>, ghost at: State, ghost p: Plan) returns (ghost n: nat)
      requires halt.Running? && InLoop(t, 0, at, p) && p.sched == sched
      modifies this
      ensures InLoop(t, n, at, p) && (halt.Running? ==> n == |nodes|)
    {
      var i := 0;
      while halt.Running? && i < |nodes|
        invariant InLoop(t, i, at, p) && (halt.Running? ==> i <= |nodes| == |at.list|)
        decreases |at.list| - i, halt.Running?
      {
        SignalRound(t, i, sched(i + 2), at, p);
        i := i + 1;
      }
      n := i;
    }

    /** A turn of the others, and the unlock. */
    method TurnAndUnlock(t: Tid, acts: seq<Action>, ghost p: Plan, ghost n: nat) returns (ghost n': nat)
      requires Live(t) && mutex == Some(t) && pcs[t].NotifyDropM?
      requires p.t == t && !p.expired && After(p, n, View()) && acts == p.sched(n)
      modifies this
      ensures halt.Running? ==> Live(t) && pcs[t].Idle? && mutex.None? && nodes == old(nodes) && issued == old(issued)
      ensures halt.Running? ==> n' == n + 1 && After(p, n', View())
      ensures !halt.Running? ==> During(p, n', View())
    {
      n' := n;
      InterfereLocked(t, acts, p, n);
      if halt.Running? {
        Unlock(t, p, n);
        n' := n + 1;
      }
    }

    /** Lines 51 and 52. */
    method ClearAndUnlock(t: Tid, acts: seq<Action>, ghost at: State, ghost p: Plan, ghost n: nat) returns (ghost n': nat)
      requires Ready(t, p, n) && AllProgress(at, View(), t) && pcs[t] == AllSignal(|nodes|) && acts == p.sched(n + 1)
      modifies this
      ensures halt.Running? ==> Live(t) && pcs[t].Idle? && mutex.None? && nodes == [] && issued == at.issued + at.list
      ensures halt.Running? ==> n' == n + 2 && After(p, n', View())
      ensures !halt.Running? ==> During(p, n', View())
    {
      Clear(t, at, p, n);
      n' := TurnAndUnlock(t, acts, p, n + 1);
    }

    /** Lines 47 to 52, once `m_mutex` is free. */
    method NotifyAllLocked(t: Tid, sched: nat -> seq<Action>, ghost p: Plan) returns (ghost n: nat)
      requires Ready(t, p, 0) && pcs[t].AllTakeM? && mutex.None? && p.sched == sched
      modifies this
      ensures halt.Running? ==> Live(t) && pcs[t].Idle? && mutex.None?
      ensures halt.Running? ==> nodes == [] && issued == old(issued) + old(nodes)
      ensures halt.Running? ==> After(p, n, View()) && n == |old(nodes)| + 3
      ensures !halt.Running? ==> During(p, n, View()) || After(p, n, View())
    {
      ghost var at := View();
      TakeForAll(t, p, 0);
      n := 1;
      InterfereLocked(t, sched(1), p, n);
      if halt.Running? {
        n := SignalAll(t, sched, at, p);
        n := n + 1;
        if halt.Running? {
          n := ClearAndUnlock(t, sched(|nodes| + 2), at, p, n);
        }
      }
    }

    /** `notify_all`; `sched`, `at` and `n` as for `NotifyOne`. */
    method NotifyAll(t: Tid, sched: nat -> seq<Action>) returns (done: bool, ghost at: State, ghost n: nat)
      requires Live(t) && pcs[t].Idle?
      modifies this
      ensures at == Others(Goto(old(View()), t, AllTakeM), t, sched(0)) && StopsFor(t, View())
      ensures done ==> Live(t) && pcs[t].Idle? && mutex.None? && nodes == [] && issued == at.issued + at.list
      ensures var p := Plan(t, old(View()), CallNotifyAll(t), sched, false);
        done ==> After(p, n, View()) && n == |at.list| + 3
      ensures var p := Plan(t, old(View()), CallNotifyAll(t), sched, false);
        !done ==> During(p, n, View()) || (!halt.Running? && After(p, n, View()))
      ensures !done && halt.Running? ==> View() == at && Live(t) && pcs[t].AllTakeM? && mutex.Some? && n == 0
    {
      ghost var p := Plan(t, View(), CallNotifyAll(t), sched, false);
      CallAll(t, p);
      OthersHadTurn(p, 0, View());
      Interfere(t, sched(0));
      at := View();
      n := 0;
      done := halt.Running? && mutex.None?;
      if done {
        n := NotifyAllLocked(t, sched, p);
        done := halt.Running?;
      }
      ScriptStops(p, n, View());
    }

    /** Thread `t` is in its wait call for semaphore `k`, about to make step `pc`. */
    ghost predicate InWait(t: Tid, k: nat, limit: Limit, pc: Pc)
      reads this
    {
      Live(t) && pcs[t] == pc && Ticket(pc) == Some(k) && k < |sems| && sems[k].limit == limit
    }

    /** It is about to make step `n` of the plan, and the others have had their turn. */
    ghost predicate At(p: Plan, n: nat, t: Tid, k: nat, limit: Limit, pc: Pc)
      reads this
    {
      InWait(t, k, limit, pc) && p.t == t && During(p, n, View())
    }

    /** It has made the steps of the plan before step `n`. */
    ghost predicate Past(p: Plan, n: nat, t: Tid, k: nat, limit: Limit, pc: Pc)
      reads this
    {
      InWait(t, k, limit, pc) && p.t == t && After(p, n, View())
    }

    /** What the result of a wait call says about its semaphore, its node and the mutex. */
    ghost predicate Outcome(r: WaitResult, t: Tid, k: nat, limit: Limit, expire: bool)
      reads this
    {
      match r
      case Stopped => !halt.Running?
      case StillWaiting =>
        Live(t) && Ticket(pcs[t]) == Some(k) && !CanRun(View(), t) && !(expire && CanExpire(View(), t))
      case Thrown =>
        && Live(t) && pcs[t].Idle? && user != Some(t) && k < |sems| && !sems[k].alive
        && Negative(limit) && (k in issued || k in Pending(View()))
      case Finished(timeout) =>
        && Live(t) && pcs[t].Idle? && user == Some(t) && k < |sems| && !sems[k].alive && !Negative(limit)
        && (if timeout then k !in issued && k !in nodes && expire && limit.Usec? else k in issued)
    }

    /** A turn of the others between two statements of a wait call: its own semaphore and Pc are safe from them. */
    method InterfereWaiting(ghost p: Plan, ghost n: nat, t: Tid, k: nat, limit: Limit, acts: seq<Action>)
      requires Live(t) && Past(p, n, t, k, limit, pcs[t]) && acts == p.sched(n)
      modifies this
      ensures During(p, n, View())
      ensures halt.Running? ==> At(p, n, t, k, limit, old(pcs[t]))
      ensures halt.Running? ==> (mutex == Some(t) <==> old(mutex) == Some(t))
    {
      OthersHadTurn(p, n, View());
      Interfere(t, acts);
    }

    /** Lines 62 to 65. */
    method Build(ghost p: Plan, t: Tid, limit: Limit) returns (k: nat)
      requires Live(t) && pcs[t].Idle? && p.t == t && p.from == View() && p.call == CallWait(t, limit)
      modifies this`sems, this`pcs, this`halt
      ensures View() == Next(old(View()), CallWait(t, limit)) && k == |old(sems)| && After(p, 0, View())
      ensures if user == Some(t) then Past(p, 0, t, k, limit, TakeM(k)) else halt == Terminated(t)
    {
      k := |sems|;
      CallMade(p);
      if user != Some(t) {
        halt := Terminated(t);
      } else {
        InvKept(View(), CallWait(t, limit));
        sems, pcs := sems + [Sem(t, limit, 0, true, Fresh)], pcs[t := TakeM(k)];
      }
    }

    /** Line 68, once `m_mutex` is free. */
    method LockForInsert(ghost p: Plan, ghost n: nat, t: Tid, k: nat, limit: Limit)
      requires At(p, n, t, k, limit, TakeM(k)) && mutex.None?
      requires OwnStep(t, p.expired, n) == Run(t)
      modifies this`mutex, this`pcs
      ensures Past(p, n + 1, t, k, limit, Insert(k)) && View() == Next(old(View()), Run(t))
    {
      InvKept(View(), Run(t));
      OwnStepMade(p, n, View());
      mutex, pcs := Some(t), pcs[t := Insert(k)];
    }

    /** Line 69. */
    method InsertNode(ghost p: Plan, ghost n: nat, t: Tid, k: nat, limit: Limit)
      requires At(p, n, t, k, limit, Insert(k))
      requires OwnStep(t, p.expired, n) == Run(t)
      modifies this`nodes, this`sems, this`pcs
      ensures Past(p, n + 1, t, k, limit, DropM(k)) && View() == Next(old(View()), Run(t))
    {
      InvKept(View(), Run(t));
      OwnStepMade(p, n, View());
      nodes, sems, pcs := nodes + [k], sems[k := sems[k].(stage := Listed)], pcs[t := DropM(k)];
    }

    /** Line 70. */
    method UnlockAfterInsert(ghost p: Plan, ghost n: nat, t: Tid, k: nat, limit: Limit)
      requires At(p, n, t, k, limit, DropM(k))
      requires OwnStep(t, p.expired, n) == Run(t)
      modifies this`mutex, this`pcs
      ensures Past(p, n + 1, t, k, limit, DropU(k)) && View() == Next(old(View()), Run(t))
    {
      InvKept(View(), Run(t));
      OwnStepMade(p, n, View());
      mutex, pcs := None, pcs[t := DropU(k)];
    }

    /** Line 72. */
    method UnlockUser(ghost p: Plan, ghost n: nat, t: Tid, k: nat, limit: Limit)
      requires At(p, n, t, k, limit, DropU(k))
      requires OwnStep(t, p.expired, n) == Run(t)
      modifies this`user, this`sems, this`pcs
      ensures Past(p, n + 1, t, k, limit, Acquire(k)) && View() == Next(old(View()), Run(t))
    {
      InvKept(View(), Run(t));
      OwnStepMade(p, n, View());
      user, sems, pcs := None, sems[k := sems[k].(stage := Blocked)], pcs[t := Acquire(k)];
    }

    /** Line 73 with a negative duration: the exception destroys the semaphore and leaves its node in the list. */
    method Throw(ghost p: Plan, ghost n: nat, t: Tid, k: nat, limit: Limit)
      requires At(p, n, t, k, limit, Acquire(k)) && Negative(limit)
      requires OwnStep(t, p.expired, n) == Run(t)
      modifies this`sems, this`pcs
      ensures After(p, n + 1, View())
      ensures Live(t) && View() == Next(old(View()), Run(t))
      ensures pcs[t].Idle? && user != Some(t) && k < |sems| && sems[k].stage.Threw? && !sems[k].alive
    {
      InvKept(View(), Run(t));
      OwnStepMade(p, n, View());
      assert LocksAt(View(), t);
      sems := sems[k := sems[k].(stage := Threw)];
      sems, pcs := sems[k := sems[k].(alive := false)], pcs[t := Idle];
    }

    /** Line 73 when a token is there. */
    method TakeToken(ghost p: Plan, ghost n: nat, t: Tid, k: nat, limit: Limit)
      requires At(p, n, t, k, limit, Acquire(k)) && !Negative(limit) && sems[k].count > 0
      requires OwnStep(t, p.expired, n) == Run(t)
      modifies this`sems, this`pcs
      ensures Past(p, n + 1, t, k, limit, RetakeU(k, true)) && View() == Next(old(View()), Run(t))
    {
      TokenTaken(View(), t, k);
      InvKept(View(), Run(t));
      OwnStepMade(p, n, View());
      sems, pcs := sems[k := sems[k].(count := sems[k].count - 1, stage := Woken)], pcs[t := RetakeU(k, true)];
    }

    /** Line 73 when no token is there and the time is up. */
    method TimeOut(ghost p: Plan, ghost n: nat, t: Tid, k: nat, limit: Limit)
      requires At(p, n, t, k, limit, Acquire(k)) && limit.Usec? && !Negative(limit) && sems[k].count == 0
      requires OwnStep(t, p.expired, n) == Expire(t)
      modifies this`sems, this`pcs
      ensures Past(p, n + 1, t, k, limit, RetakeU(k, false)) && View() == Next(old(View()), Expire(t))
    {
      InvKept(View(), Expire(t));
      OwnStepMade(p, n, View());
      sems, pcs := sems[k := sems[k].(stage := TimedOut)], pcs[t := RetakeU(k, false)];
    }

    /** Line 74, once the caller's mutex is free. */
    method RetakeUser(ghost p: Plan, ghost n: nat, t: Tid, k: nat, limit: Limit, ok: bool)
      requires At(p, n, t, k, limit, RetakeU(k, ok)) && user.None?
      requires OwnStep(t, p.expired, n) == Run(t)
      modifies this`user, this`pcs
      ensures Past(p, n + 1, t, k, limit, if ok then Return(k, true) else EraseTakeM(k)) && View() == Next(old(View()), Run(t))
    {
      InvKept(View(), Run(t));
      OwnStepMade(p, n, View());
      user, pcs := Some(t), pcs[t := if ok then Return(k, true) else EraseTakeM(k)];
    }

    /** Line 78, once `m_mutex` is free. */
    method LockForErase(ghost p: Plan, ghost n: nat, t: Tid, k: nat, limit: Limit)
      requires At(p, n, t, k, limit, EraseTakeM(k)) && mutex.None?
      requires OwnStep(t, p.expired, n) == Run(t)
      modifies this`mutex, this`pcs
      ensures Past(p, n + 1, t, k, limit, Erase(k)) && View() == Next(old(View()), Run(t))
    {
      InvKept(View(), Run(t));
      OwnStepMade(p, n, View());
      mutex, pcs := Some(t), pcs[t := Erase(k)];
    }

    /** Line 79: the iterator is stale exactly if the node was signalled. */
    method EraseNode(ghost p: Plan, ghost n: nat, t: Tid, k: nat, limit: Limit)
      requires At(p, n, t, k, limit, Erase(k))
      requires OwnStep(t, p.expired, n) == Run(t)
      modifies this`nodes, this`sems, this`pcs, this`halt
      ensures After(p, n + 1, View())
      ensures View() == Next(old(View()), Run(t))
      ensures if k in old(issued) then halt == StaleErase(k) else Past(p, n + 1, t, k, limit, EraseDropM(k))
    {
      EraseKept(View(), t, k);
      OwnStepMade(p, n, View());
      if k in nodes {
        nodes, sems := Without(nodes, k), sems[k := sems[k].(stage := Erased)];
        pcs := pcs[t := EraseDropM(k)];
      } else {
        halt := StaleErase(k);
      }
    }

    /** Line 81. */
    method UnlockAfterErase(ghost p: Plan, ghost n: nat, t: Tid, k: nat, limit: Limit)
      requires At(p, n, t, k, limit, EraseDropM(k))
      requires OwnStep(t, p.expired, n) == Run(t)
      modifies this`mutex, this`pcs
      ensures Past(p, n + 1, t, k, limit, Return(k, false)) && View() == Next(old(View()), Run(t))
    {
      InvKept(View(), Run(t));
      OwnStepMade(p, n, View());
      mutex, pcs := None, pcs[t := Return(k, false)];
    }

    /** Lines 80 and 83: what the caller may conclude from the status it gets. */
    method Leave(ghost p: Plan, ghost n: nat, t: Tid, k: nat, limit: Limit, ok: bool)
      requires At(p, n, t, k, limit, Return(k, ok))
      requires OwnStep(t, p.expired, n) == Run(t)
      modifies this`sems, this`pcs
      ensures After(p, n + 1, View())
      ensures Live(t) && View() == Next(old(View()), Run(t))
      ensures pcs[t].Idle? && user == Some(t) && k < |sems| && !sems[k].alive
      ensures ok ==> k in issued
      ensures !ok ==> k !in issued && k !in nodes
    {
      ghost var s := View();
      InvKept(s, Run(t));
      OwnStepMade(p, n, s);
      assert LocksAt(s, t) && OwnAt(s, t);
      assert NodeAt(s, k);
      ServedOrPending(s);
      sems, pcs := sems[k := sems[k].(alive := false)], pcs[t := Idle];
    }

    /** Lines 70 and 72. */
    method UnlockBoth(ghost p: Plan, t: Tid, k: nat, limit: Limit, sched: nat -> seq<Action>) returns (ghost n: nat)
      requires At(p, 2, t, k, limit, DropM(k)) && p.sched == sched && !p.expired
      modifies this
      ensures halt.Running? ==> n == ACQUIRE && Past(p, n, t, k, limit, Acquire(k))
      ensures !halt.Running? ==> n < ACQUIRE && During(p, n, View())
    {
      UnlockAfterInsert(p, 2, t, k, limit);
      n := 3;
      InterfereWaiting(p, n, t, k, limit, sched(3));
      if halt.Running? {
        UnlockUser(p, n, t, k, limit);
        n := 4;
      }
    }

    /** Lines 69 to 72, from the moment `m_mutex` is taken. */
    method Register(ghost p: Plan, t: Tid, k: nat, limit: Limit, sched: nat -> seq<Action>) returns (ghost n: nat)
      requires At(p, 1, t, k, limit, Insert(k)) && p.sched == sched && !p.expired
      modifies this
      ensures halt.Running? ==> n == ACQUIRE && Past(p, n, t, k, limit, Acquire(k))
      ensures !halt.Running? ==> n < ACQUIRE && During(p, n, View())
    {
      InsertNode(p, 1, t, k, limit);
      n := 2;
      InterfereWaiting(p, n, t, k, limit, sched(2));
      if halt.Running? {
        n := UnlockBoth(p, t, k, limit, sched);
      }
    }

    /** How far a wait call has got when it ends, or does not go on. */
    ghost predicate Turns(p: Plan, n: nat, r: WaitResult)
      reads this
    {
      match r
      case Finished(timeout) => p.expired == timeout && n == (if timeout then 10 else 7) && After(p, n, View())
      case Thrown => !p.expired && n == 5 && After(p, n, View())
      case StillWaiting => During(p, n, View())
      case Stopped => During(p, n, View()) || (p.expired && n == 8 && After(p, n, View()))
    }

    /**
     Its acquire, if it got there, is decided in the state `parked` that the others have reached in their
     turn before it: if its token has been issued by then, it takes it, and does not time out.
     */
    ghost predicate Decided(p: Plan, k: nat, r: WaitResult, n: nat, expired: bool, parked: State) {
      n > ACQUIRE || (n == ACQUIRE && r.StillWaiting?) ==>
        During(p, ACQUIRE, parked) && (k in parked.issued ==> n > ACQUIRE && !expired && r != Finished(true))
    }

    /** Lines 79 and 81. */
    method EraseAndUnlock(ghost p: Plan, t: Tid, k: nat, limit: Limit, sched: nat -> seq<Action>) returns (ghost n: nat)
      requires At(p, 7, t, k, limit, Erase(k)) && p.expired && p.sched == sched
      modifies this
      ensures halt.Running? ==> n == 9 && Past(p, n, t, k, limit, Return(k, false))
      ensures !halt.Running? ==> n == 8 && (During(p, n, View()) || After(p, n, View()))
    {
      EraseNode(p, 7, t, k, limit);
      n := 8;
      if halt.Running? {
        InterfereWaiting(p, n, t, k, limit, sched(8));
        if halt.Running? {
          UnlockAfterErase(p, n, t, k, limit);
          n := 9;
        }
      }
    }

    /** Lines 78 to 81, once `m_mutex` is free. */
    method EraseAfterTimeout(ghost p: Plan, t: Tid, k: nat, limit: Limit, sched: nat -> seq<Action>) returns (ghost n: nat)
      requires At(p, 6, t, k, limit, EraseTakeM(k)) && mutex.None? && p.expired && p.sched == sched
      modifies this
      ensures halt.Running? ==> n == 9 && Past(p, n, t, k, limit, Return(k, false))
      ensures !halt.Running? ==> Turns(p, n, Stopped) && n >= 7
    {
      LockForErase(p, 6, t, k, limit);
      n := 7;
      InterfereWaiting(p, n, t, k, limit, sched(7));
      if halt.Running? {
        n := EraseAndUnlock(p, t, k, limit, sched);
      }
    }

    /** Lines 80 and 83, at step `n` of the plan. */
    method ReturnStatus(ghost p: Plan, ghost n: nat, t: Tid, k: nat, limit: Limit, ok: bool, acts: seq<Action>)
      returns (r: WaitResult, ghost n': nat)
      requires Past(p, n, t, k, limit, Return(k, ok)) && !Negative(limit) && (!ok ==> limit.Usec?)
      requires p.expired == !ok && n == (if ok then 6 else 9) && acts == p.sched(n)
      modifies this
      ensures Turns(p, n', r) && Outcome(r, t, k, limit, !ok) && n' >= n
      ensures r == if halt.Running? then Finished(!ok) else Stopped
    {
      n' := n;
      InterfereWaiting(p, n, t, k, limit, acts);
      if !halt.Running? { return Stopped, n'; }
      Leave(p, n, t, k, limit, ok);
      r, n' := Finished(!ok), n + 1;
    }

    /** Lines 78 to 84. */
    method EraseAndReturn(ghost p: Plan, t: Tid, k: nat, limit: Limit, sched: nat -> seq<Action>)
      returns (r: WaitResult, ghost n: nat)
      requires Past(p, 6, t, k, limit, EraseTakeM(k)) && p.expired && limit.Usec? && !Negative(limit) && p.sched == sched
      modifies this
      ensures Turns(p, n, r) && Outcome(r, t, k, limit, true) && n >= 6
      ensures !r.Thrown? && (r.Finished? ==> r.timeout) && (r.StillWaiting? ==> t in pcs && !pcs[t].Acquire?)
    {
      n := 6;
      InterfereWaiting(p, n, t, k, limit, sched(6));
      if !halt.Running? { return Stopped, n; }
      if mutex.Some? { return StillWaiting, n; }
      n := EraseAfterTimeout(p, t, k, limit, sched);
      if !halt.Running? { return Stopped, n; }
      r, n := ReturnStatus(p, n, t, k, limit, false, sched(9));
    }

    /** Lines 74 to 84, after the acquire: a token (`ok`) or a timeout. */
    method Resume(ghost p: Plan, t: Tid, k: nat, limit: Limit, ok: bool, sched: nat -> seq<Action>)
      returns (r: WaitResult, ghost n: nat)
      requires Past(p, 5, t, k, limit, RetakeU(k, ok)) && !Negative(limit) && (!ok ==> limit.Usec?)
      requires p.expired == !ok && p.sched == sched
      modifies this
      ensures Turns(p, n, r) && Outcome(r, t, k, limit, !ok) && n >= 5
      ensures !r.Thrown? && (r.Finished? ==> r.timeout == !ok) && (r.StillWaiting? ==> t in pcs && !pcs[t].Acquire?)
    {
      n := 5;
      InterfereWaiting(p, n, t, k, limit, sched(5));
      if !halt.Running? { return Stopped, n; }
      if user.Some? { return StillWaiting, n; }
      RetakeUser(p, n, t, k, limit, ok);
      if ok {
        r, n := ReturnStatus(p, 6, t, k, limit, true, sched(6));
      } else {
        r, n := EraseAndReturn(p, t, k, limit, sched);
      }
    }

    /** Lines 73 to 84, once the others have had their turn before the acquire: it is decided in this very state. */
    method AcquireAndResume(ghost p: Plan, t: Tid, k: nat, limit: Limit, expire: bool, sched: nat -> seq<Action>)
      returns (r: WaitResult, ghost n: nat, ghost expired: bool)
      requires At(p, ACQUIRE, t, k, limit, Acquire(k)) && !p.expired && p.sched == sched
      modifies this
      ensures Turns(p.(expired := expired), n, r) && Outcome(r, t, k, limit, expire)
      ensures n > ACQUIRE || (n == ACQUIRE && r.StillWaiting?)
      ensures k in old(issued) ==> n > ACQUIRE && !expired && r != Finished(true)
    {
      n, expired := ACQUIRE, false;
      assert NodeAt(View(), k) && OwnAt(View(), t);
      if Negative(limit) {
        Throw(p, n, t, k, limit);
        n := 5;
        assert NodeAt(View(), k);
        r := Thrown;
      } else if sems[k].count > 0 {
        TakeToken(p, n, t, k, limit);
        r, n := Resume(p, t, k, limit, true, sched);
      } else if expire && limit.Usec? {
        expired := true;
        SameUntilAcquire(t, p.call, sched, n);
        TimeOut(p.(expired := true), n, t, k, limit);
        r, n := Resume(p.(expired := true), t, k, limit, false, sched);
      } else {
        r := StillWaiting;
      }
    }

    /** Lines 68 to 72. */
    method InsertAndUnlock(ghost p: Plan, t: Tid, k: nat, limit: Limit, sched: nat -> seq<Action>)
      returns (blocked: bool, ghost n: nat)
      requires Past(p, 0, t, k, limit, TakeM(k)) && !p.expired && p.sched == sched
      modifies this
      ensures halt.Running? && !blocked ==> n == ACQUIRE && Past(p, n, t, k, limit, Acquire(k))
      ensures halt.Running? && blocked ==> At(p, n, t, k, limit, TakeM(k)) && mutex.Some? && n == 0
      ensures !halt.Running? ==> n < ACQUIRE && During(p, n, View())
    {
      n := 0;
      InterfereWaiting(p, n, t, k, limit, sched(0));
      blocked := mutex.Some?;
      if halt.Running? && !blocked {
        LockForInsert(p, n, t, k, limit);
        n := 1;
        InterfereWaiting(p, n, t, k, limit, sched(1));
        if halt.Running? {
          n := Register(p, t, k, limit, sched);
        }
      }
    }

    /** Lines 68 to 84; `parked` is the state in which the acquire is decided. */
    method InsertAndWait(ghost p: Plan, t: Tid, k: nat, limit: Limit, expire: bool, sched: nat -> seq<Action>)
      returns (r: WaitResult, ghost n: nat, ghost expired: bool, ghost parked: State)
      requires Past(p, 0, t, k, limit, TakeM(k)) && !p.expired && p.sched == sched
      modifies this
      ensures Turns(p.(expired := expired), n, r) && Outcome(r, t, k, limit, expire)
      ensures Decided(p, k, r, n, expired, parked)
    {
      expired, parked := false, View();
      var blocked;
      blocked, n := InsertAndUnlock(p, t, k, limit, sched);
      if !halt.Running? { return Stopped, n, false, parked; }
      if blocked { return StillWaiting, n, false, parked; }
      InterfereWaiting(p, n, t, k, limit, sched(4));
      parked := View();
      if !halt.Running? { return Stopped, n, false, parked; }
      r, n, expired := AcquireAndResume(p, t, k, limit, expire, sched);
    }

    /**
     `wait_for_usec`, with `sched(i)` the steps of other threads before its `i`-th step and `expire`
     telling whether the kernel finds the time up if there is no token at line 73.  It makes `n` turns;
     `expired` tells whether its acquire timed out.
     */
    method WaitForUsec(t: Tid, limit: Limit, expire: bool, sched: nat -> seq<Action>)
      returns (r: WaitResult, k: nat, ghost n: nat, ghost expired: bool, ghost parked: State)
      requires Live(t) && pcs[t].Idle?
      modifies this
      ensures k == |old(sems)| && Outcome(r, t, k, limit, expire)
      ensures if old(user) == Some(t) then StopsFor(t, View()) else halt == Terminated(t)
      ensures var p := Plan(t, old(View()), CallWait(t, limit), sched, expired);
        if old(user) == Some(t) then Turns(p, n, r) else After(p, 0, View())
      ensures Decided(Plan(t, old(View()), CallWait(t, limit), sched, false), k, r, n, expired, parked)
    {
      ghost var p := Plan(t, View(), CallWait(t, limit), sched, false);
      k := Build(p, t, limit);
      n, expired, parked := 0, false, View();
      if !halt.Running? { return Stopped, k, n, expired, parked; }
      r, n, expired, parked := InsertAndWait(p, t, k, limit, expire, sched);
      ScriptStops(p.(expired := expired), n, View());
    }
  }

  lemma ReleaseIsSignal(s: State, s': State, k: nat)
    requires k < |s.sems| == |s'.sems| && s.halt.Running?
    requires forall j :: 0 <= j < |s.sems| && j != k ==> s'.sems[j] == s.sems[j]
    requires s' == s.(sems := s'.sems, issued := s'.issued, halt := s'.halt)
    requires s'.halt.Running? <==> s.sems[k].alive && s.sems[k].count == 0
    requires s'.halt.Running? ==> s'.sems[k] == s.sems[k].(count := 1) && s'.issued == s.issued + [k]
    requires !s'.halt.Running? ==> s'.sems[k] == s.sems[k] && s'.issued == s.issued
    requires !s'.halt.Running? ==> s'.halt == if s.sems[k].alive then Overflow(k) else DeadRelease(k)
    ensures s' == Signal(s, k)
  {
    assert s'.sems == if s'.halt.Running? then s.sems[k := s.sems[k].(count := 1)] else s.sems;
  }

  lemma FrontSignalKept(at: State, s: State, t: Tid)
    requires Inv(s) && s.halt.Running? && t in s.pcs && s.pcs[t].OneSignal? && s.m == Some(t)
    requires s.list == at.list && s.issued == at.issued && Next(s, Run(t)).halt.Running?
    ensures Inv(Next(s, Run(t))) && OneProgress(at, Next(s, Run(t)), t)
  {
    InvKept(s, Run(t));
    OneProgressKept(at, s, Run(t), t);
  }

  /** A timed-out wait finds its node in the list unless it was signalled. */
  lemma EraseKept(s: State, t: Tid, k: nat)
    requires Inv(s) && s.halt.Running? && t in s.pcs && s.pcs[t] == Erase(k)
    ensures k in s.list <==> k !in s.issued
    ensures k in s.list ==> Inv(Next(s, Run(t)))
  {
    HaltExactly(s, Run(t));
    if k in s.list { InvKept(s, Run(t)); }
  }

  lemma TokenTaken(s: State, t: Tid, k: nat)
    requires WellFormed(s) && s.halt.Running? && t in s.pcs && s.pcs[t] == Acquire(k) && k < |s.sems|
    requires !Negative(s.sems[k].limit) && s.sems[k].count > 0
    ensures Enabled(s, Run(t))
    ensures Next(s, Run(t)) ==
      Goto(s.(sems := s.sems[k := s.sems[k].(count := s.sems[k].count - 1, stage := Woken)]), t, RetakeU(k, true))
  {}

  /** A node in the list was signalled or is pending. */
  lemma ServedOrPending(s: State)
    requires Inv(s)
    ensures forall k :: k in s.list ==> k in s.issued || k in Pending(s)
  {
    var p := Signalled(s);
    assert s.list == s.list[..p] + Pending(s);
    assert forall k :: k in s.list[..p] ==> k in s.issued[|s.issued| - p..];
  }
}
