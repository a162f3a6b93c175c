/** Lock order and progress: nobody waits for a mutex that nobody can release. */
module CvProgress {
  import opened Options
  import opened CvProtocol
  import opened CvInvariant
  import opened CvRuns
  import opened CvErase
  import opened CvProperties

  /** The owner of `m` never blocks: not on `u`, not on a semaphore, not on `m` itself. */
  lemma HolderOfMRuns(s: State, t: Tid)
    requires Inv(s) && s.halt.Running? && s.m == Some(t)
    ensures t in s.pcs && Enabled(s, Run(t))
  {
    assert LocksAt(s, t);
  }

  /** How many of its own steps the owner of `m` is away from releasing it. */
  function HoldLeft(pc: Pc, nodes: nat): nat {
    match pc
    case Insert(_) => 2
    case DropM(_) => 1
    case Erase(_) => 2
    case EraseDropM(_) => 1
    case OneSignal => 3
    case OnePop => 2
    case AllSignal(i) => if i < nodes then nodes - i + 2 else 2
    case NotifyDropM => 1
    case _ => 0
  }

  lemma OwnerAdvances(s: State, t: Tid)
    requires Inv(s) && Enabled(s, Run(t)) && s.m == Some(t) && Next(s, Run(t)).halt.Running?
    ensures t in Next(s, Run(t)).pcs
    ensures var s' := Next(s, Run(t));
      if s'.m == Some(t) then HoldLeft(s'.pcs[t], |s'.list|) < HoldLeft(s.pcs[t], |s.list|)
      else s'.m == None && HoldLeft(s.pcs[t], |s.list|) == 1
  {
    assert LocksAt(s, t);
  }

  /** Each step of the owner brings the release of `m` closer; no step of another thread defers it. */
  lemma MIsReleased(s: State, a: Action, t: Tid)
    requires Inv(s) && Enabled(s, a) && s.m == Some(t) && Next(s, a).halt.Running?
    ensures t in s.pcs && t in Next(s, a).pcs
    ensures a.t == t ==>
      || (Next(s, a).m == None && HoldLeft(s.pcs[t], |s.list|) == 1)
      || (Next(s, a).m == Some(t) && HoldLeft(Next(s, a).pcs[t], |Next(s, a).list|) < HoldLeft(s.pcs[t], |s.list|))
    ensures a.t != t ==>
      Next(s, a).m == Some(t) && HoldLeft(Next(s, a).pcs[t], |Next(s, a).list|) == HoldLeft(s.pcs[t], |s.list|)
  {
    if a.t != t {
      HolderUndisturbed(s, a, t);
    } else {
      OwnerRunsOnly(s, a);
      OwnerAdvances(s, t);
    }
  }

  lemma OwnerRunsOnly(s: State, a: Action)
    requires Inv(s) && Enabled(s, a) && s.m == Some(a.t)
    ensures a == Run(a.t)
  {
    assert LocksAt(s, a.t);
  }

  /** How many of its own steps a wait call that holds `u` is away from releasing it or returning with it. */
  function HoldULeft(pc: Pc): nat {
    match pc
    case TakeM(_) => 4
    case Insert(_) => 3
    case DropM(_) => 2
    case DropU(_) => 1
    case EraseTakeM(_) => 4
    case Erase(_) => 3
    case EraseDropM(_) => 2
    case Return(_, _) => 1
    case _ => 0
  }

  /** Each step of a wait call that holds `u` brings its release or the return closer; no other thread defers it. */
  lemma UIsReleased(s: State, a: Action, t: Tid)
    requires Inv(s) && Enabled(s, a) && Next(s, a).halt.Running? && t in s.pcs && HoldsU(s.pcs[t])
    ensures s.u == Some(t) && HoldULeft(s.pcs[t]) > 0 && t in Next(s, a).pcs
    ensures a.t == t && HoldULeft(s.pcs[t]) > 1 ==>
      Next(s, a).u == Some(t) && HoldULeft(Next(s, a).pcs[t]) == HoldULeft(s.pcs[t]) - 1
    ensures a.t == t && HoldULeft(s.pcs[t]) == 1 ==>
      if s.pcs[t].Return? then Next(s, a).u == Some(t) && Next(s, a).pcs[t].Idle?
      else Next(s, a).u == None && Next(s, a).pcs[t].Acquire?
    ensures a.t != t ==> Next(s, a).u == Some(t) && Next(s, a).pcs[t] == s.pcs[t]
  {
    assert LocksAt(s, t);
    if a.t != t {
      assert LocksAt(s, a.t);
      StepLocal(s, a);
    }
  }

  predicate WaitsForM(pc: Pc) {
    pc.TakeM? || pc.EraseTakeM? || pc.OneTakeM? || pc.AllTakeM?
  }

  /** The step its owner makes towards releasing `u`: leaving user code, or the next step of its call. */
  function OwnersStep(s: State, t: Tid): Action
    requires t in s.pcs
  {
    if s.pcs[t].Idle? then UserUnlock(t) else Run(t)
  }

  /**
   A thread held up by a mutex waits for that mutex's owner, or for the owner of `m` that the
   former waits for; there is no longer chain, and the thread at its end can step.
   */
  lemma BlockedThreadHasAHelper(s: State, t: Tid) returns (a: Action)
    requires Inv(s) && s.halt.Running? && t in s.pcs && !CanRun(s, t)
    requires WaitsForM(s.pcs[t]) || s.pcs[t].RetakeU?
    ensures Enabled(s, a)
    ensures WaitsForM(s.pcs[t]) ==> s.m == Some(a.t) && a == Run(a.t)
    ensures s.pcs[t].RetakeU? ==> s.u.Some? && s.u.value in s.pcs
    ensures s.pcs[t].RetakeU? && WaitsForM(s.pcs[s.u.value]) && s.m.Some? ==> s.m == Some(a.t) && a == Run(a.t)
    ensures s.pcs[t].RetakeU? && !(WaitsForM(s.pcs[s.u.value]) && s.m.Some?) ==> a == OwnersStep(s, s.u.value)
  {
    assert LocksAt(s, t);
    if s.pcs[t].RetakeU? {
      var o := s.u.value;
      assert LocksAt(s, o);
      if WaitsForM(s.pcs[o]) && s.m.Some? {
        HolderOfMRuns(s, s.m.value);
        a := Run(s.m.value);
      } else {
        a := OwnersStep(s, o);
      }
    } else {
      HolderOfMRuns(s, s.m.value);
      a := Run(s.m.value);
    }
  }

  /** If no thread can step and `u` is not held in user code, every thread is in user code or awaits its notification. */
  lemma OnlyParkedThreadsAreStuck(s: State)
    requires Inv(s) && s.halt.Running?
    requires forall t :: t in s.pcs ==> !CanRun(s, t)
    requires s.u.Some? ==> !(s.u.value in s.pcs && s.pcs[s.u.value].Idle?)
    ensures s.m.None? && s.u.None?
    ensures forall t :: t in s.pcs ==> s.pcs[t].Idle? || (s.pcs[t].Acquire? && s.pcs[t].k in s.list)
  {
    if s.m.Some? { HolderOfMRuns(s, s.m.value); }
    forall t | t in s.pcs ensures s.pcs[t].Idle? || (s.pcs[t].Acquire? && s.pcs[t].k in s.list) {
      assert LocksAt(s, t);
      if s.pcs[t].Acquire? { ParkedWaiterIsPending(s, t); }
    }
  }

  /** In runs without timeouts and negative durations every release wakes a waiter or is ready for one. */
  lemma TimeoutFreeConservation(r: History, n: nat)
    requires IsRun(r) && n < |r.states| && r.states[n].halt.Running?
    requires NoNegativeWaits(r) && forall i :: 0 <= i < |r.acts| ==> !r.acts[i].Expire?
    ensures Stranded(r.states[n]) == {} && Burnt(r.states[n]) == {}
    ensures Releases(r, n) == Wakeups(r, n) + |Ready(r.states[n])|
  {
    TokenConservation(r, n);
    forall k: nat ensures k !in Stranded(r.states[n]) && k !in Burnt(r.states[n]) {
      if k in Stranded(r.states[n]) {
        var i := WhenTimedOut(r, n, k);
      }
      if k in Burnt(r.states[n]) {
        RunInv(r, n);
        assert SemAt(r.states[n], k);
        var i := LimitsFromCalls(r, n, k);
      }
    }
  }
}
