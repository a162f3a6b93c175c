/**
 The stale iterator of a timed-out wait: exactly the runs in which a notifier pops the
 node between the timeout (line 73) and the erase (line 79) stop at the erase.
 */
module CvErase {
  import opened Options
  import opened CvProtocol
  import opened CvInvariant
  import opened CvRuns
  import opened CvProperties

  /** At step `i` the acquire of semaphore `k` times out. */
  ghost predicate TimesOut(r: History, i: nat, k: nat)
    requires |r.states| == |r.acts| + 1 && i < |r.acts|
  {
    var s, a := r.states[i], r.acts[i];
    a.Expire? && a.t in s.pcs && s.pcs[a.t] == Acquire(k)
  }

  ghost predicate Pop(s: State, a: Action, k: nat) {
    && a.Run? && a.t in s.pcs
    && (s.pcs[a.t].OnePop? || (s.pcs[a.t].AllSignal? && s.pcs[a.t].i >= |s.list|))
    && k in s.list
  }

  /** At step `j` a notifier takes the node of semaphore `k` off the list. */
  ghost predicate Pops(r: History, j: nat, k: nat)
    requires |r.states| == |r.acts| + 1 && j < |r.acts|
  {
    Pop(r.states[j], r.acts[j], k) && k !in r.states[j + 1].list
  }

  /** At step `i` a wait with a negative duration leaves its node in the list and throws. */
  ghost predicate Throws(r: History, i: nat, k: nat)
    requires |r.states| == |r.acts| + 1 && i < |r.acts|
  {
    var s, a := r.states[i], r.acts[i];
    a.Run? && a.t in s.pcs && s.pcs[a.t] == Acquire(k) && k < |s.sems| && Negative(s.sems[k].limit)
  }

  /** A node leaves the list only by a notifier's pop or by its own waiter's erase. */
  lemma LeavesList(s: State, a: Action, k: nat)
    requires Inv(s) && Enabled(s, a) && k in s.list && k !in Next(s, a).list
    ensures Pop(s, a, k) || (a.Run? && s.pcs[a.t] == Erase(k))
  {
    assert LocksAt(s, a.t);
    if a.Run? && s.pcs[a.t].Erase? && s.pcs[a.t].k in s.list && s.pcs[a.t].k != k {
      OthersRemain(s.list, s.pcs[a.t].k, k);
    }
  }

  lemma OthersRemain(list: seq<nat>, k: nat, x: nat)
    requires k in list && x in list && x != k
    ensures x in Without(list, k)
  {
    var n := NodeOf(list, k);
    var i :| 0 <= i < |list| && list[i] == x;
    assert Without(list, k)[if i < n then i else i - 1] == x;
  }

  lemma StaysOut(s: State, a: Action, k: nat)
    requires Inv(s) && Enabled(s, a) && Next(s, a).halt.Running?
    requires k < |s.sems| && !s.sems[k].stage.Fresh?
    ensures k < |Next(s, a).sems| && !Next(s, a).sems[k].stage.Fresh?
    ensures k !in s.list ==> k !in Next(s, a).list
  {
    StageStep(s, a, k);
    ListKept(s, a);
    assert OwnAt(s, a.t);
  }

  /** A node that has left the list never comes back. */
  lemma {:induction false} GoneForGood(r: History, i: nat, n: nat, k: nat)
    requires IsRun(r) && i <= n < |r.states| && r.states[n].halt.Running?
    requires k < |r.states[i].sems| && !r.states[i].sems[k].stage.Fresh?
    ensures k < |r.states[n].sems| && !r.states[n].sems[k].stage.Fresh?
    ensures k !in r.states[i].list ==> k !in r.states[n].list
  {
    if i < n {
      RunInv(r, n - 1);
      GoneForGood(r, i, n - 1, k);
      assert StepAt(r, n - 1);
      StaysOut(r.states[n - 1], r.acts[n - 1], k);
    }
  }

  /** A wait call becomes TimedOut only by its timeout, and then its node is in the list. */
  lemma BecomesTimedOut(s: State, a: Action, k: nat)
    requires Inv(s) && Enabled(s, a) && Next(s, a).halt.Running?
    requires k < |Next(s, a).sems| && Next(s, a).sems[k].stage.TimedOut?
    ensures k < |s.sems|
    ensures s.sems[k].stage.TimedOut? || (a.Expire? && s.pcs[a.t] == Acquire(k) && k in Next(s, a).list)
  {
    StepLocal(s, a);
    assert OwnAt(Next(s, a), a.t);
    StageStep(s, a, k);
    if a.Expire? {
      assert OwnAt(s, a.t) && NodeAt(s, k);
      assert forall x :: x in Pending(s) ==> x in s.list;
    }
  }

  /** A waiter whose stage is TimedOut did time out, and has been in that stage since. */
  lemma {:induction false} WhenTimedOut(r: History, n: nat, k: nat) returns (i: nat)
    requires IsRun(r) && n < |r.states| && r.states[n].halt.Running?
    requires k < |r.states[n].sems| && r.states[n].sems[k].stage.TimedOut?
    ensures i < n && TimesOut(r, i, k)
    ensures forall j :: i < j <= n ==> k < |r.states[j].sems| && r.states[j].sems[k].stage.TimedOut?
    ensures k in r.states[i + 1].list
  {
    assert n > 0;
    RunInv(r, n - 1);
    assert StepAt(r, n - 1);
    BecomesTimedOut(r.states[n - 1], r.acts[n - 1], k);
    if r.states[n - 1].sems[k].stage.TimedOut? {
      i := WhenTimedOut(r, n - 1, k);
    } else {
      i := n - 1;
    }
  }

  lemma PoppedNow(s: State, a: Action, k: nat)
    requires Inv(s) && Enabled(s, a) && Next(s, a).halt.Running?
    requires k < |Next(s, a).sems| && Next(s, a).sems[k].stage.TimedOut?
    requires k in s.list && k !in Next(s, a).list
    ensures Pop(s, a, k)
  {
    assert OwnAt(s, a.t);
    LeavesList(s, a, k);
    if a.Run? && s.pcs[a.t] == Erase(k) {
      WaitStage(s, a.t);
    }
  }

  /** While its waiter stays timed out, only a notifier can take a node off the list. */
  lemma {:induction false} WhenPopped(r: History, i: nat, n: nat, k: nat) returns (j: nat)
    requires IsRun(r) && i <= n < |r.states| && r.states[n].halt.Running?
    requires forall j :: i <= j <= n ==> k < |r.states[j].sems| && r.states[j].sems[k].stage.TimedOut?
    requires k in r.states[i].list && k !in r.states[n].list
    ensures i <= j < n && Pops(r, j, k)
  {
    RunInv(r, n - 1);
    assert StepAt(r, n - 1);
    if k in r.states[n - 1].list {
      PoppedNow(r.states[n - 1], r.acts[n - 1], k);
      j := n - 1;
    } else {
      j := WhenPopped(r, i, n - 1, k);
    }
  }

  /** The last step of the run is the erase of node `k`, which a notifier popped after the timeout. */
  ghost predicate ErasesPoppedNode(r: History, k: nat)
    requires IsRun(r)
  {
    var n := |r.acts|;
    && n > 0 && r.acts[n - 1].Run?
    && r.acts[n - 1].t in r.states[n - 1].pcs && r.states[n - 1].pcs[r.acts[n - 1].t] == Erase(k)
    && exists i, j :: 0 <= i < j < n - 1 && TimesOut(r, i, k) && Pops(r, j, k)
  }

  /** The state in which an erase is stale: the node is gone, and its waiter has timed out. */
  lemma StaleBefore(s: State, a: Action, k: nat)
    requires Inv(s) && Enabled(s, a) && Next(s, a).halt == StaleErase(k)
    ensures a.Run? && s.pcs[a.t] == Erase(k) && k !in s.list && k < |s.sems| && s.sems[k].stage.TimedOut?
  {
    HaltExactly(s, a);
    assert LocksAt(s, a.t) && OwnAt(s, a.t) && NodeAt(s, k);
    assert Pending(s) == s.list;
  }

  lemma StaleOnlyIfPopped(r: History, k: nat)
    requires IsRun(r) && r.states[|r.acts|].halt == StaleErase(k)
    ensures ErasesPoppedNode(r, k)
  {
    var n := |r.acts|;
    assert n > 0;
    RunInv(r, n - 1);
    assert StepAt(r, n - 1);
    StaleBefore(r.states[n - 1], r.acts[n - 1], k);
    var i := WhenTimedOut(r, n - 1, k);
    var j := WhenPopped(r, i + 1, n - 1, k);
  }

  /** A node popped after its timeout is still off the list whenever the run goes on. */
  lemma PoppedIsGone(r: History, i: nat, j: nat, n: nat, k: nat)
    requires IsRun(r) && i < j < n < |r.states| && r.states[n].halt.Running?
    requires TimesOut(r, i, k) && Pops(r, j, k)
    ensures k !in r.states[n].list
  {
    RunInv(r, i);
    RunInv(r, j + 1);
    TimesOutListed(r.states[i], r.acts[i], k);
    GoneForGood(r, i, j + 1, k);
    GoneForGood(r, j + 1, n, k);
  }

  lemma StaleIfPopped(r: History, k: nat)
    requires IsRun(r) && ErasesPoppedNode(r, k)
    ensures r.states[|r.acts|].halt == StaleErase(k)
  {
    var n := |r.acts|;
    var i, j :| 0 <= i < j < n - 1 && TimesOut(r, i, k) && Pops(r, j, k);
    RunInv(r, n - 1);
    PoppedIsGone(r, i, j, n - 1, k);
    assert StepAt(r, n - 1);
    StaleNow(r.states[n - 1], r.acts[n - 1], k);
  }

  lemma TimesOutListed(s: State, a: Action, k: nat)
    requires Inv(s) && a.Expire? && a.t in s.pcs && s.pcs[a.t] == Acquire(k)
    ensures k < |s.sems| && !s.sems[k].stage.Fresh?
  {
    assert OwnAt(s, a.t);
  }

  lemma StaleNow(s: State, a: Action, k: nat)
    requires Inv(s) && a.Run? && a.t in s.pcs && s.pcs[a.t] == Erase(k) && k !in s.list && CanRun(s, a.t)
    ensures NextWait(s, a.t).halt == StaleErase(k)
  {}

  /** A run stops at a stale erase of node `k` exactly when a notifier popped that node between timeout and erase. */
  lemma StaleEraseExactly(r: History, k: nat)
    requires IsRun(r)
    ensures r.states[|r.acts|].halt == StaleErase(k) <==> ErasesPoppedNode(r, k)
  {
    if r.states[|r.acts|].halt == StaleErase(k) { StaleOnlyIfPopped(r, k); }
    if ErasesPoppedNode(r, k) { StaleIfPopped(r, k); }
  }

  /** Without timeouts no erase is ever stale. */
  lemma NoTimeoutNoStaleErase(r: History)
    requires IsRun(r) && forall i :: 0 <= i < |r.acts| ==> !r.acts[i].Expire?
    ensures !r.states[|r.acts|].halt.StaleErase?
  {
    if r.states[|r.acts|].halt.StaleErase? {
      var k := r.states[|r.acts|].halt.k;
      StaleEraseExactly(r, k);
    }
  }

  // ---- The fate of a wait signalled after its timeout -----------------------------------

  /** Wait call `k` timed out and was signalled nevertheless, before its erase. */
  ghost predicate Doomed(s: State, k: nat) {
    k < |s.sems| && s.sems[k].stage.TimedOut? && k in s.issued
  }

  lemma StaysDoomed(s: State, a: Action, k: nat)
    requires Inv(s) && Enabled(s, a) && Next(s, a).halt.Running? && Doomed(s, k)
    ensures Doomed(Next(s, a), k)
  {
    StageStep(s, a, k);
    IssuedStep(s, a);
    HaltExactly(s, a);
  }

  /** A doomed wait is still on its way to the erase, which it can only make by stopping the run. */
  lemma DoomedWaitIsInside(s: State, k: nat)
    requires Inv(s) && Doomed(s, k)
    ensures var t := s.sems[k].owner;
      && t in s.pcs && (s.pcs[t] == RetakeU(k, false) || s.pcs[t] == EraseTakeM(k) || s.pcs[t] == Erase(k))
    ensures var t := s.sems[k].owner;
      s.halt.Running? && s.pcs[t] == Erase(k) ==> Enabled(s, Run(t)) && Next(s, Run(t)).halt == StaleErase(k)
  {
    var t := s.sems[k].owner;
    assert SemAt(s, k) && OwnAt(s, t);
    if s.halt.Running? && s.pcs[t] == Erase(k) { HaltExactly(s, Run(t)); }
  }

  /**
   A wait that is signalled after its timeout and before its erase never returns: in every later
   state of the run it is still inside, and its next step after taking `m` is the stale erase.
   */
  lemma {:induction false} NeverReturnsOnceDoomed(r: History, i: nat, n: nat, k: nat)
    requires IsRun(r) && i <= n < |r.states| && r.states[n].halt.Running? && Doomed(r.states[i], k)
    ensures Doomed(r.states[n], k)
    ensures var s := r.states[n]; var t := s.sems[k].owner;
      && t in s.pcs && (s.pcs[t] == RetakeU(k, false) || s.pcs[t] == EraseTakeM(k) || s.pcs[t] == Erase(k))
  {
    RunInv(r, n);
    if i < n {
      RunInv(r, n - 1);
      NeverReturnsOnceDoomed(r, i, n - 1, k);
      assert StepAt(r, n - 1);
      StaysDoomed(r.states[n - 1], r.acts[n - 1], k);
    }
    DoomedWaitIsInside(r.states[n], k);
  }

  // ---- Releases of destroyed or full semaphores -----------------------------------------

  lemma BecomesThrown(s: State, a: Action, k: nat)
    requires Inv(s) && Enabled(s, a) && Next(s, a).halt.Running?
    requires k < |Next(s, a).sems| && Next(s, a).sems[k].stage.Threw?
    ensures k < |s.sems|
    ensures s.sems[k].stage.Threw? || (a.Run? && s.pcs[a.t] == Acquire(k) && Negative(s.sems[k].limit))
  {
    StepLocal(s, a);
    assert OwnAt(Next(s, a), a.t);
    StageStep(s, a, k);
  }

  lemma {:induction false} WhenThrown(r: History, n: nat, k: nat) returns (i: nat)
    requires IsRun(r) && n < |r.states| && r.states[n].halt.Running?
    requires k < |r.states[n].sems| && r.states[n].sems[k].stage.Threw?
    ensures i < n && Throws(r, i, k)
  {
    assert n > 0;
    RunInv(r, n - 1);
    assert StepAt(r, n - 1);
    BecomesThrown(r.states[n - 1], r.acts[n - 1], k);
    if r.states[n - 1].sems[k].stage.Threw? {
      i := WhenThrown(r, n - 1, k);
    } else {
      i := n - 1;
    }
  }

  lemma StaysThrown(s: State, a: Action, k: nat)
    requires Inv(s) && Enabled(s, a) && Next(s, a).halt.Running? && k < |s.sems|
    requires s.sems[k].stage.Threw? || (a.Run? && s.pcs[a.t] == Acquire(k) && Negative(s.sems[k].limit))
    ensures k < |Next(s, a).sems| && Next(s, a).sems[k].stage.Threw?
  {
    StageStep(s, a, k);
    assert OwnAt(s, a.t);
    if a.Run? && s.pcs[a.t] == Acquire(k) { WaitStage(s, a.t); }
  }

  lemma {:induction false} ThrownForGood(r: History, i: nat, n: nat, k: nat)
    requires IsRun(r) && i < n < |r.states| && r.states[n].halt.Running? && Throws(r, i, k)
    ensures k < |r.states[n].sems| && r.states[n].sems[k].stage.Threw?
  {
    RunInv(r, n - 1);
    assert StepAt(r, n - 1);
    if i < n - 1 { ThrownForGood(r, i, n - 1, k); }
    StaysThrown(r.states[n - 1], r.acts[n - 1], k);
  }

  /** The last step of the run signals node `k`, whose wait had thrown on a negative duration. */
  ghost predicate SignalsThrownNode(r: History, k: nat)
    requires IsRun(r)
  {
    var n := |r.acts|;
    n > 0 &&
    var s, a := r.states[n - 1], r.acts[n - 1];
    && a.Run? && a.t in s.pcs && Signals(s, a.t)
    && Signalled(s) < |s.list| && s.list[Signalled(s)] == k
    && exists i :: 0 <= i < n - 1 && Throws(r, i, k)
  }

  lemma DeadOnlyIfThrown(r: History, k: nat)
    requires IsRun(r) && r.states[|r.acts|].halt == DeadRelease(k)
    ensures SignalsThrownNode(r, k)
  {
    var n := |r.acts|;
    assert n > 0;
    RunInv(r, n - 1);
    assert StepAt(r, n - 1);
    HaltExactly(r.states[n - 1], r.acts[n - 1]);
    var i := WhenThrown(r, n - 1, k);
  }

  lemma DeadIfThrown(r: History, k: nat)
    requires IsRun(r) && SignalsThrownNode(r, k)
    ensures r.states[|r.acts|].halt == DeadRelease(k)
  {
    var n := |r.acts|;
    RunInv(r, n - 1);
    var i :| 0 <= i < n - 1 && Throws(r, i, k);
    ThrownForGood(r, i, n - 1, k);
    assert StepAt(r, n - 1);
    HaltExactly(r.states[n - 1], r.acts[n - 1]);
  }

  /** A notifier releases a destroyed semaphore exactly when it signals the node of a wait that threw. */
  lemma DeadReleaseExactly(r: History, k: nat)
    requires IsRun(r)
    ensures r.states[|r.acts|].halt == DeadRelease(k) <==> SignalsThrownNode(r, k)
  {
    if r.states[|r.acts|].halt == DeadRelease(k) { DeadOnlyIfThrown(r, k); }
    if SignalsThrownNode(r, k) { DeadIfThrown(r, k); }
  }

  /** No run releases a semaphore that already holds its token. */
  lemma NeverOverflows(r: History)
    requires IsRun(r)
    ensures !r.states[|r.acts|].halt.Overflow?
  {
    var n := |r.acts|;
    if n > 0 {
      RunInv(r, n - 1);
      assert StepAt(r, n - 1);
      HaltExactly(r.states[n - 1], r.acts[n - 1]);
    }
  }

  ghost predicate NoNegativeWaits(r: History) {
    forall i :: 0 <= i < |r.acts| && r.acts[i].CallWait? ==> !Negative(r.acts[i].limit)
  }

  /** Every semaphore carries the limit of the call that built it. */
  lemma {:induction false} LimitsFromCalls(r: History, n: nat, k: nat) returns (i: nat)
    requires IsRun(r) && n < |r.states| && r.states[n].halt.Running? && k < |r.states[n].sems|
    ensures i < n && r.acts[i].CallWait? && r.acts[i].limit == r.states[n].sems[k].limit
  {
    assert n > 0;
    RunInv(r, n - 1);
    var s, a := r.states[n - 1], r.acts[n - 1];
    assert StepAt(r, n - 1);
    StepLocal(s, a);
    if k < |s.sems| {
      i := LimitsFromCalls(r, n - 1, k);
    } else {
      i := n - 1;
    }
  }

  /** Semaphore safety: with no negative durations, no notifier in any run releases a destroyed or full semaphore. */
  lemma ReleasesAreSafe(r: History)
    requires IsRun(r) && NoNegativeWaits(r)
    ensures !r.states[|r.acts|].halt.DeadRelease? && !r.states[|r.acts|].halt.Overflow?
  {
    NeverOverflows(r);
    if r.states[|r.acts|].halt.DeadRelease? {
      var k := r.states[|r.acts|].halt.k;
      DeadReleaseExactly(r, k);
      var i :| 0 <= i < |r.acts| - 1 && Throws(r, i, k);
      RunInv(r, i);
      var c := LimitsFromCalls(r, i, k);
    }
  }

  /** As intended, with untimed waits only, nothing but a wait without the lock stops a run. */
  lemma UntimedRunsNeverFault(r: History)
    requires IsRun(r) && forall i :: 0 <= i < |r.acts| && r.acts[i].CallWait? ==> r.acts[i].limit.Untimed?
    ensures r.states[|r.acts|].halt.Running? || r.states[|r.acts|].halt.Terminated?
  {
    ReleasesAreSafe(r);
    forall i | 0 <= i < |r.acts| ensures !r.acts[i].Expire? {
      RunInv(r, i);
      assert StepAt(r, i);
      if r.acts[i].Expire? {
        var c := LimitsFromCalls(r, i, r.states[i].pcs[r.acts[i].t].k);
      }
    }
    NoTimeoutNoStaleErase(r);
  }

  // ---- A run that faults ----------------------------------------------------------------

  function Pair(p: Pc, q: Pc): map<Tid, Pc> {
    map[0 := p, 1 := q]
  }

  /** Thread 0 waits for any duration at all and times out; thread 1 notifies before thread 0 erases its node. */
  function LostNode(usec: nat, n: nat): (State, Action) {
    var built := Sem(0, Usec(usec), 0, true, Fresh);
    var timedOut := built.(stage := TimedOut);
    var stranded := timedOut.(count := 1);
    var retake := RetakeU(0, false);
    match n
    case 0 => (State(None, None, [], [], Pair(Idle, Idle), [], Running), UserLock(0))
    case 1 => (State(Some(0), None, [], [], Pair(Idle, Idle), [], Running), CallWait(0, Usec(usec)))
    case 2 => (State(Some(0), None, [], [built], Pair(TakeM(0), Idle), [], Running), Run(0))
    case 3 => (State(Some(0), Some(0), [], [built], Pair(Insert(0), Idle), [], Running), Run(0))
    case 4 => (State(Some(0), Some(0), [0], [built.(stage := Listed)], Pair(DropM(0), Idle), [], Running), Run(0))
    case 5 => (State(Some(0), None, [0], [built.(stage := Listed)], Pair(DropU(0), Idle), [], Running), Run(0))
    case 6 => (State(None, None, [0], [built.(stage := Blocked)], Pair(Acquire(0), Idle), [], Running), Expire(0))
    case 7 => (State(None, None, [0], [timedOut], Pair(retake, Idle), [], Running), CallNotifyOne(1))
    case 8 => (State(None, None, [0], [timedOut], Pair(retake, OneTakeM), [], Running), Run(1))
    case 9 => (State(None, Some(1), [0], [timedOut], Pair(retake, OneSignal), [], Running), Run(1))
    case 10 => (State(None, Some(1), [0], [stranded], Pair(retake, OnePop), [0], Running), Run(1))
    case 11 => (State(None, Some(1), [], [stranded], Pair(retake, NotifyDropM), [0], Running), Run(1))
    case 12 => (State(None, None, [], [stranded], Pair(retake, Idle), [0], Running), Run(0))
    case 13 => (State(Some(0), None, [], [stranded], Pair(EraseTakeM(0), Idle), [0], Running), Run(0))
    case 14 => (State(Some(0), Some(0), [], [stranded], Pair(Erase(0), Idle), [0], Running), Run(0))
    case _ => (State(Some(0), Some(0), [], [stranded], Pair(Erase(0), Idle), [0], StaleErase(0)), Run(0))
  }

  lemma LostNodeStep(usec: nat, n: nat)
    requires n < 15
    ensures WellFormed(LostNode(usec, n).0) && Enabled(LostNode(usec, n).0, LostNode(usec, n).1)
    ensures Next(LostNode(usec, n).0, LostNode(usec, n).1) == LostNode(usec, n + 1).0
  {
    if n < 2 { LostNodeCalls(usec, n); }
    else if n < 4 { LostNodeRegisters(usec, n); }
    else if n < 6 { LostNodeUnlocks(usec, n); }
    else if n < 8 { LostNodeTimesOut(usec, n); }
    else if n < 10 { LostNodeIsSignalled(usec, n); }
    else if n < 12 { LostNodeIsPopped(usec, n); }
    else { LostNodeIsErased(usec, n); }
  }

  lemma LostNodeCalls(usec: nat, n: nat)
    requires n < 2
    ensures WellFormed(LostNode(usec, n).0) && Enabled(LostNode(usec, n).0, LostNode(usec, n).1)
    ensures Next(LostNode(usec, n).0, LostNode(usec, n).1) == LostNode(usec, n + 1).0
  {}

  lemma LostNodeRegisters(usec: nat, n: nat)
    requires 2 <= n < 4
    ensures WellFormed(LostNode(usec, n).0) && Enabled(LostNode(usec, n).0, LostNode(usec, n).1)
    ensures Next(LostNode(usec, n).0, LostNode(usec, n).1) == LostNode(usec, n + 1).0
  {}

  lemma LostNodeUnlocks(usec: nat, n: nat)
    requires 4 <= n < 6
    ensures WellFormed(LostNode(usec, n).0) && Enabled(LostNode(usec, n).0, LostNode(usec, n).1)
    ensures Next(LostNode(usec, n).0, LostNode(usec, n).1) == LostNode(usec, n + 1).0
  {}

  lemma LostNodeTimesOut(usec: nat, n: nat)
    requires 6 <= n < 8
    ensures WellFormed(LostNode(usec, n).0) && Enabled(LostNode(usec, n).0, LostNode(usec, n).1)
    ensures Next(LostNode(usec, n).0, LostNode(usec, n).1) == LostNode(usec, n + 1).0
  {}

  lemma LostNodeIsSignalled(usec: nat, n: nat)
    requires 8 <= n < 10
    ensures WellFormed(LostNode(usec, n).0) && Enabled(LostNode(usec, n).0, LostNode(usec, n).1)
    ensures Next(LostNode(usec, n).0, LostNode(usec, n).1) == LostNode(usec, n + 1).0
  {}

  lemma LostNodeIsPopped(usec: nat, n: nat)
    requires 10 <= n < 12
    ensures WellFormed(LostNode(usec, n).0) && Enabled(LostNode(usec, n).0, LostNode(usec, n).1)
    ensures Next(LostNode(usec, n).0, LostNode(usec, n).1) == LostNode(usec, n + 1).0
  {}

  lemma LostNodeIsErased(usec: nat, n: nat)
    requires 12 <= n < 15
    ensures WellFormed(LostNode(usec, n).0) && Enabled(LostNode(usec, n).0, LostNode(usec, n).1)
    ensures Next(LostNode(usec, n).0, LostNode(usec, n).1) == LostNode(usec, n + 1).0
  {}

  /** The stale erase is reachable whatever the duration, that of an untimed wait as coded included. */
  lemma FaultingRun(usec: nat) returns (r: History)
    ensures |r.acts| == 15 && r.acts[..2] == [UserLock(0), CallWait(0, Usec(usec))]
    ensures IsRun(r) && r.states[|r.acts|].halt == StaleErase(0)
  {
    r := History(seq(16, n requires 0 <= n < 16 => LostNode(usec, n).0), seq(15, n requires 0 <= n < 15 => LostNode(usec, n).1));
    forall i: nat | i < |r.acts| ensures StepAt(r, i) {
      LostNodeStep(usec, i);
    }
  }

  // ---- A run that releases a destroyed semaphore -----------------------------------------

  /** Thread 0 waits for a negative duration, which throws; thread 1 then notifies. */
  function ThrownNode(usec: int, n: nat): (State, Action) {
    var built := Sem(0, Usec(usec), 0, true, Fresh);
    var listed := built.(stage := Listed);
    var thrown := built.(stage := Threw, alive := false);
    match n
    case 0 => (State(None, None, [], [], Pair(Idle, Idle), [], Running), UserLock(0))
    case 1 => (State(Some(0), None, [], [], Pair(Idle, Idle), [], Running), CallWait(0, Usec(usec)))
    case 2 => (State(Some(0), None, [], [built], Pair(TakeM(0), Idle), [], Running), Run(0))
    case 3 => (State(Some(0), Some(0), [], [built], Pair(Insert(0), Idle), [], Running), Run(0))
    case 4 => (State(Some(0), Some(0), [0], [listed], Pair(DropM(0), Idle), [], Running), Run(0))
    case 5 => (State(Some(0), None, [0], [listed], Pair(DropU(0), Idle), [], Running), Run(0))
    case 6 => (State(None, None, [0], [built.(stage := Blocked)], Pair(Acquire(0), Idle), [], Running), Run(0))
    case 7 => (State(None, None, [0], [thrown], Pair(Idle, Idle), [], Running), CallNotifyOne(1))
    case 8 => (State(None, None, [0], [thrown], Pair(Idle, OneTakeM), [], Running), Run(1))
    case 9 => (State(None, Some(1), [0], [thrown], Pair(Idle, OneSignal), [], Running), Run(1))
    case _ => (State(None, Some(1), [0], [thrown], Pair(Idle, OnePop), [], DeadRelease(0)), Run(1))
  }

  lemma ThrownNodeRegisters(usec: int, n: nat)
    requires usec < 0 && n < 4
    ensures WellFormed(ThrownNode(usec, n).0) && Enabled(ThrownNode(usec, n).0, ThrownNode(usec, n).1)
    ensures Next(ThrownNode(usec, n).0, ThrownNode(usec, n).1) == ThrownNode(usec, n + 1).0
  {}

  lemma ThrownNodeThrows(usec: int, n: nat)
    requires usec < 0 && 4 <= n < 7
    ensures WellFormed(ThrownNode(usec, n).0) && Enabled(ThrownNode(usec, n).0, ThrownNode(usec, n).1)
    ensures Next(ThrownNode(usec, n).0, ThrownNode(usec, n).1) == ThrownNode(usec, n + 1).0
  {}

  lemma ThrownNodeIsSignalled(usec: int, n: nat)
    requires usec < 0 && 7 <= n < 10
    ensures WellFormed(ThrownNode(usec, n).0) && Enabled(ThrownNode(usec, n).0, ThrownNode(usec, n).1)
    ensures Next(ThrownNode(usec, n).0, ThrownNode(usec, n).1) == ThrownNode(usec, n + 1).0
  {}

  /** The release of a destroyed semaphore is reachable from every negative duration. */
  lemma DeadReleaseRun(usec: int) returns (r: History)
    requires usec < 0
    ensures |r.acts| == 10 && r.acts[..2] == [UserLock(0), CallWait(0, Usec(usec))]
    ensures IsRun(r) && r.states[|r.acts|].halt == DeadRelease(0)
  {
    r := History(seq(11, n requires 0 <= n < 11 => ThrownNode(usec, n).0), seq(10, n requires 0 <= n < 10 => ThrownNode(usec, n).1));
    forall i: nat | i < |r.acts| ensures StepAt(r, i) {
      if i < 4 { ThrownNodeRegisters(usec, i); }
      else if i < 7 { ThrownNodeThrows(usec, i); }
      else { ThrownNodeIsSignalled(usec, i); }
    }
  }
}
