/**
 The monitor that section 30.5.1 of ISO/IEC 14882:2011 describes: releasing the mutex and
 starting to wait is one event, and a notification takes waiters off in order.
 */
module MonitorSpec {
  import opened Options

  datatype Monitor = Monitor(
    u: Option<nat>,          // owner of the mutex
    entering: Option<nat>,   // the wait call that is about to release it
    waiting: seq<nat>,       // wait calls blocked, oldest first
    notified: set<nat>)      // wait calls a notification has chosen and that have not resumed

  datatype Event =
    | Internal
    | Lock(t: nat)
    | Unlock(t: nat)
    | Announce(t: nat, k: nat)  // a wait is called with the mutex held
    | Enter(t: nat, k: nat)     // release the mutex and start waiting, atomically
    | NotifyFirst               // unblock the wait that has waited longest
    | NotifyEntering(k: nat)    // nobody waits: wake the wait being entered
    | Wake(k: nat)              // a notified wait resumes
    | Leave(k: nat)             // a wait ends by its timeout

  predicate Allowed(m: Monitor, e: Event, m': Monitor) {
    match e
    case Internal => m' == m
    case Lock(t) => m.u.None? && m' == m.(u := Some(t))
    case Unlock(t) => m.u == Some(t) && m.entering.None? && m' == m.(u := None)
    case Announce(t, k) =>
      && m.u == Some(t) && m.entering.None? && k !in m.waiting && k !in m.notified
      && m' == m.(entering := Some(k))
    case Enter(t, k) =>
      && m.u == Some(t) && m.entering == Some(k) && k !in m.waiting
      && m' == m.(u := None, entering := None, waiting := if k in m.notified then m.waiting else m.waiting + [k])
    case NotifyFirst =>
      && m.waiting != []
      && m' == m.(waiting := m.waiting[1..], notified := m.notified + {m.waiting[0]})
    case NotifyEntering(k) =>
      && m.waiting == [] && m.entering == Some(k) && k !in m.notified
      && m' == m.(notified := m.notified + {k})
    case Wake(k) => k in m.notified && k !in m.waiting && m' == m.(notified := m.notified - {k})
    case Leave(k) =>
      && k in m.waiting && k !in m.notified
      && exists i :: 0 <= i < |m.waiting| && m.waiting[i] == k
                     && m' == m.(waiting := m.waiting[..i] + m.waiting[i + 1..])
  }

  predicate Distinct(q: seq<nat>) {
    forall i, j :: 0 <= i < j < |q| ==> q[i] != q[j]
  }

  lemma DistinctWithout(q: seq<nat>, i: nat)
    requires Distinct(q) && i < |q|
    ensures Distinct(q[..i] + q[i + 1..])
    ensures forall k :: k in q[..i] + q[i + 1..] ==> k in q
  {
    var rest := q[..i] + q[i + 1..];
    forall j | 0 <= j < |rest| ensures rest[j] == q[if j < i then j else j + 1] {}
  }

  /** The mutex stays taken from the call of a wait until it waits; no wait is queued twice, or queued and notified. */
  ghost predicate Sound(m: Monitor) {
    && (m.entering.Some? ==> m.u.Some? && m.entering.value !in m.waiting)
    && Distinct(m.waiting)
    && (forall k :: k in m.waiting ==> k !in m.notified)
  }

  lemma AllowedKeepsSound(m: Monitor, e: Event, m': Monitor)
    requires Sound(m) && Allowed(m, e, m')
    ensures Sound(m')
    ensures m.entering.Some? && m'.u != m.u ==> e.Enter? && m'.entering.None?
  {
    if e.Leave? { LeaveKeepsSound(m, e.k, m'); }
  }

  lemma LeaveKeepsSound(m: Monitor, k: nat, m': Monitor)
    requires Sound(m) && Allowed(m, Leave(k), m')
    ensures Sound(m') && m'.u == m.u
  {
    var i :| 0 <= i < |m.waiting| && m.waiting[i] == k && m' == m.(waiting := m.waiting[..i] + m.waiting[i + 1..]);
    DistinctWithout(m.waiting, i);
  }

  /** How often wait `k` is notified, and how often it resumes, in a sequence of events. */
  function Notifications(ms: seq<Monitor>, es: seq<Event>, k: nat): nat
    requires |ms| == |es| + 1
  {
    if es == [] then 0
    else
      var n := |es| - 1;
      var chosen := es[n] == NotifyEntering(k) || (es[n].NotifyFirst? && ms[n].waiting != [] && ms[n].waiting[0] == k);
      Notifications(ms[..n + 1], es[..n], k) + if chosen then 1 else 0
  }

  function Resumptions(es: seq<Event>, k: nat): nat {
    if es == [] then 0 else Resumptions(es[..|es| - 1], k) + if es[|es| - 1] == Wake(k) then 1 else 0
  }

  ghost predicate IsMonitorRun(ms: seq<Monitor>, es: seq<Event>) {
    && |ms| == |es| + 1
    && ms[0] == Monitor(None, None, [], {})
    && forall i :: 0 <= i < |es| ==> Allowed(ms[i], es[i], ms[i + 1])
  }

  lemma MonitorRunGoesOn(ms: seq<Monitor>, es: seq<Event>, e: Event, m: Monitor)
    requires IsMonitorRun(ms, es) && Allowed(ms[|es|], e, m)
    ensures IsMonitorRun(ms + [m], es + [e])
  {}

  /** In every run of the monitor each wait resumes exactly as often as it was notified, but for a pending notification. */
  lemma {:induction false} OneWakeupPerNotification(ms: seq<Monitor>, es: seq<Event>, k: nat)
    requires IsMonitorRun(ms, es)
    ensures Sound(ms[|es|])
    ensures Notifications(ms, es, k) == Resumptions(es, k) + if k in ms[|es|].notified then 1 else 0
  {
    if es != [] {
      var n := |es| - 1;
      assert IsMonitorRun(ms[..n + 1], es[..n]) by {
        forall i | 0 <= i < n ensures Allowed(ms[..n + 1][i], es[..n][i], ms[..n + 1][i + 1]) {
          assert Allowed(ms[i], es[i], ms[i + 1]);
        }
      }
      OneWakeupPerNotification(ms[..n + 1], es[..n], k);
      AllowedKeepsSound(ms[n], es[n], ms[n + 1]);
    }
  }
}

/** The implementation refines that monitor, step by step, until a run stops. */
module CvRefinement {
  import opened Options
  import opened CvProtocol
  import opened CvInvariant
  import opened CvRuns
  import opened CvErase
  import opened CvProperties
  import opened MonitorSpec

  /** The wait that is in the list but has not released `u` yet. */
  function Entering(s: State): Option<nat> {
    if s.sems != [] && s.sems[|s.sems| - 1].stage.Listed? then Some(|s.sems| - 1) else None
  }

  /** The waits that have released `u` and have not been notified: all pending ones but the entering one. */
  function Entered(s: State): seq<nat>
    requires Signalled(s) <= |s.list|
  {
    var q := Pending(s);
    if q != [] && Entering(s) == Some(q[|q| - 1]) then q[..|q| - 1] else q
  }

  ghost function Abstract(s: State): Monitor
    requires Signalled(s) <= |s.list|
  {
    Monitor(s.u, Entering(s), Entered(s), Elements(s.issued) - Taken(s))
  }

  ghost function EventOf(s: State, a: Action): Event
    requires Inv(s) && a.t in s.pcs
  {
    match a
    case UserLock(t) => Lock(t)
    case UserUnlock(t) => Unlock(t)
    case Run(t) =>
      if Signals(s, t) then
        if Entered(s) != [] then NotifyFirst
        else if Pending(s) != [] then NotifyEntering(Pending(s)[0]) else Internal
      else
        (match s.pcs[t]
         case Insert(k) => Announce(t, k)
         case DropU(k) => Enter(t, k)
         case Acquire(k) => if k < |s.sems| && Negative(s.sems[k].limit) then Internal else Wake(k)
         case RetakeU(_, _) => Lock(t)
         case Erase(k) => Leave(k)
         case _ => Internal)
    case _ => Internal
  }

  lemma InitAbstract(s: State)
    requires Init(s)
    ensures Inv(s) && Abstract(s) == Monitor(None, None, [], {})
  {
    InitInv(s);
  }

  /** Only the youngest wait can be in the list and still hold `u`. */
  lemma OnlyYoungestEnters(s: State, k: nat)
    requires Inv(s) && k < |s.sems|
    ensures s.sems[k].stage.Listed? <==> Entering(s) == Some(k)
  {
    assert SemAt(s, k);
  }

  /** The largest element of an increasing sequence is its last. */
  lemma LargestIsLast(q: seq<nat>, k: nat)
    requires Increasing(q) && k in q && forall x :: x in q ==> x <= k
    ensures q != [] && q[|q| - 1] == k
  {
    assert q[|q| - 1] in q;
  }

  /** While a wait is entering, its node is the last pending one or has its token. */
  lemma EnteringIsLast(s: State)
    requires Inv(s) && Entering(s).Some? && Entering(s).value !in s.issued
    ensures Pending(s) != [] && Pending(s)[|Pending(s)| - 1] == Entering(s).value
    ensures Pending(s) == Entered(s) + [Entering(s).value]
  {
    var q, k := Pending(s), Entering(s).value;
    assert NodeAt(s, k);
    PendingIncreasing(s);
    forall x | x in q ensures x <= k {
      assert x in s.list;
    }
    LargestIsLast(q, k);
  }

  lemma PendingIncreasing(s: State)
    requires Inv(s)
    ensures Increasing(Pending(s))
  {
    SplitOrder(s.issued, Pending(s));
  }

  lemma NotEnteringAllEntered(s: State)
    requires Inv(s) && (Entering(s).Some? ==> Entering(s).value in s.issued)
    ensures Entered(s) == Pending(s)
  {
    if Entering(s).Some? {
      assert NodeAt(s, Entering(s).value);
    }
  }

  /** Only a wakeup takes a token. */
  lemma TakenUnless(s: State, a: Action)
    requires Inv(s) && Enabled(s, a) && Next(s, a).halt.Running?
    ensures Taken(Next(s, a)) == if IsWakeup(s, a) then Taken(s) + {s.pcs[a.t].k} else Taken(s)
  {
    forall k: nat ensures k in Taken(Next(s, a)) <==> k in Taken(s) || (IsWakeup(s, a) && s.pcs[a.t].k == k) {
      WokenStep(s, a, k);
    }
  }

  // ---- The steps that are events of the monitor ----------------------------------------

  lemma InsertAnnounces(s: State, t: Tid)
    requires Inv(s) && Enabled(s, Run(t)) && s.pcs[t].Insert?
    ensures Allowed(Abstract(s), EventOf(s, Run(t)), Abstract(Next(s, Run(t))))
  {
    var k, s' := s.pcs[t].k, Next(s, Run(t));
    assert LocksAt(s, t) && OwnAt(s, t) && SemAt(s, k) && NodeAt(s, k);
    NotEnteringAllEntered(s);
    assert Pending(s') == Pending(s) + [k];
    TakenUnless(s, Run(t));
  }

  lemma DropUEnters(s: State, t: Tid)
    requires Inv(s) && Enabled(s, Run(t)) && s.pcs[t].DropU?
    ensures Allowed(Abstract(s), EventOf(s, Run(t)), Abstract(Next(s, Run(t))))
  {
    var k, s' := s.pcs[t].k, Next(s, Run(t));
    assert LocksAt(s, t) && OwnAt(s, t) && SemAt(s, k) && NodeAt(s, k);
    assert Signalled(s') == Signalled(s);
    TakenUnless(s, Run(t));
    if k in s.issued { NotEnteringAllEntered(s); } else { EnteringIsLast(s); }
    assert k !in Entered(s) by {
      if k !in s.issued { SplitOrder(s.issued, Pending(s)); }
    }
  }

  /** The entering wait holds `u`. */
  lemma EnteringHoldsU(s: State)
    requires Inv(s) && Entering(s).Some?
    ensures s.u.Some? && s.u.value in s.pcs && (s.pcs[s.u.value].DropM? || s.pcs[s.u.value].DropU?)
  {
    var k := |s.sems| - 1;
    assert SemAt(s, k);
    assert OwnAt(s, s.sems[k].owner) && LocksAt(s, s.sems[k].owner);
  }

  lemma CallWaitSameEntering(s: State, t: Tid, limit: Limit)
    requires Inv(s) && Enabled(s, CallWait(t, limit)) && s.u == Some(t)
    ensures Entering(Next(s, CallWait(t, limit))) == Entering(s)
  {
    if Entering(s).Some? { EnteringHoldsU(s); }
  }

  lemma SameEntering(s: State, a: Action)
    requires Inv(s) && Enabled(s, a) && Next(s, a).halt.Running? && !a.CallWait?
    requires a.Run? ==> !s.pcs[a.t].Insert? && !s.pcs[a.t].DropU?
    ensures Entering(Next(s, a)) == Entering(s)
  {
    SameCount(s, a);
    if s.sems != [] {
      StageStep(s, a, |s.sems| - 1);
    }
  }

  lemma SameCount(s: State, a: Action)
    requires Inv(s) && Enabled(s, a) && !a.CallWait?
    ensures |Next(s, a).sems| == |s.sems|
  {}

  /** A step that moves no node, issues no token and neither announces nor enters changes at most `u`. */
  lemma SameWaits(s: State, s': State)
    requires Inv(s) && Entering(s') == Entering(s)
    requires s'.list == s.list && s'.issued == s.issued && Signalled(s') == Signalled(s)
    ensures Abstract(s') == Abstract(s).(u := s'.u, notified := Elements(s.issued) - Taken(s'))
  {}

  lemma TokenWakes(s: State, t: Tid)
    requires Inv(s) && Enabled(s, Run(t)) && s.pcs[t].Acquire? && !Negative(s.sems[s.pcs[t].k].limit)
    ensures Allowed(Abstract(s), EventOf(s, Run(t)), Abstract(Next(s, Run(t))))
  {
    var k := s.pcs[t].k;
    assert LocksAt(s, t) && OwnAt(s, t) && NodeAt(s, k);
    SameEntering(s, Run(t));
    TakenUnless(s, Run(t));
    SameWaits(s, Next(s, Run(t)));
    assert forall x :: x in Entered(s) ==> x in Pending(s);
  }

  /** The wait that throws stays in the monitor, as its node does in the list. */
  lemma ThrowIsInternal(s: State, t: Tid)
    requires Inv(s) && Enabled(s, Run(t)) && s.pcs[t].Acquire? && Negative(s.sems[s.pcs[t].k].limit)
    ensures Allowed(Abstract(s), EventOf(s, Run(t)), Abstract(Next(s, Run(t))))
  {
    assert LocksAt(s, t) && OwnAt(s, t);
    SameEntering(s, Run(t));
    TakenUnless(s, Run(t));
    SameWaits(s, Next(s, Run(t)));
  }

  lemma EraseView(s: State, t: Tid)
    requires Inv(s) && Enabled(s, Run(t)) && s.pcs[t].Erase? && s.pcs[t].k in s.list
    ensures var k, s' := s.pcs[t].k, Next(s, Run(t));
      && Signalled(s) == 0 == Signalled(s') && Entering(s').None? && Entering(s).None?
      && Entered(s) == s.list && Entered(s') == s'.list == Without(s.list, k)
      && s'.u == s.u && s'.issued == s.issued && k !in s.issued
  {
    assert LocksAt(s, t) && OwnAt(s, t) && NodeAt(s, s.pcs[t].k);
    if Entering(s).Some? { EnteringHoldsU(s); }
  }

  lemma EraseLeaves(s: State, t: Tid)
    requires Inv(s) && Enabled(s, Run(t)) && s.pcs[t].Erase? && s.pcs[t].k in s.list
    ensures Signalled(Next(s, Run(t))) == 0 && Entering(Next(s, Run(t))) == Entering(s)
    ensures Allowed(Abstract(s), EventOf(s, Run(t)), Abstract(Next(s, Run(t))))
  {
    EraseView(s, t);
    TakenUnless(s, Run(t));
    var i := NodeOf(s.list, s.pcs[t].k);
    assert Without(s.list, s.pcs[t].k) == s.list[..i] + s.list[i + 1..];
  }

  /** Signalling the first pending node, seen on the pending nodes and the entering wait alone. */
  lemma FirstEntered(q: seq<nat>, e: Option<nat>, rest: seq<nat>, w: seq<nat>, w': seq<nat>)
    requires q != [] && rest == q[1..]
    requires w == if e == Some(q[|q| - 1]) then q[..|q| - 1] else q
    requires w' == if rest != [] && e == Some(rest[|rest| - 1]) then rest[..|rest| - 1] else rest
    ensures if w == [] then w' == [] && e == Some(q[0]) else w[0] == q[0] && w' == w[1..]
  {}

  lemma SignalEffect(s: State, t: Tid)
    requires Inv(s) && Enabled(s, Run(t)) && Signals(s, t) && Next(s, Run(t)).halt.Running?
    ensures var s' := Next(s, Run(t));
      && s'.u == s.u && Signalled(s') <= |s'.list|
      && Pending(s) != [] && Pending(s') == Pending(s)[1..] && s'.issued == s.issued + [Pending(s)[0]]
  {
    assert LocksAt(s, t);
  }

  /** The token signalled is a notification that is not used up. */
  lemma SignalTokens(s: State, t: Tid)
    requires Inv(s) && Enabled(s, Run(t)) && Signals(s, t) && Next(s, Run(t)).halt.Running?
    ensures Pending(s) != []
    ensures var k, s' := Pending(s)[0], Next(s, Run(t));
      && k !in Elements(s.issued)
      && Elements(s'.issued) - Taken(s') == Elements(s.issued) - Taken(s) + {k}
  {
    SignalEffect(s, t);
    var k := Pending(s)[0];
    assert k in Pending(s);
    PendingNotIssued(s);
    TakenUnless(s, Run(t));
    TokenPlace(s, k);
    ElementsAppend(s.issued, k);
  }

  /** What signalling does to the monitor's view. */
  lemma SignalView(s: State, t: Tid)
    requires Inv(s) && Enabled(s, Run(t)) && Signals(s, t) && Next(s, Run(t)).halt.Running?
    ensures Signalled(Next(s, Run(t))) <= |Next(s, Run(t)).list|
    ensures Pending(s) != []
    ensures var k, m, m' := Pending(s)[0], Abstract(s), Abstract(Next(s, Run(t)));
      && m' == Monitor(m.u, m.entering, m'.waiting, m.notified + {k})
      && k !in m.notified
      && if m.waiting == [] then m'.waiting == [] && m.entering == Some(k)
         else m.waiting[0] == k && m'.waiting == m.waiting[1..]
  {
    var s' := Next(s, Run(t));
    SignalEffect(s, t);
    SameEntering(s, Run(t));
    FirstEntered(Pending(s), Entering(s), Pending(s'), Entered(s), Entered(s'));
    SignalTokens(s, t);
  }

  lemma ElementsAppend(q: seq<nat>, k: nat)
    ensures Elements(q + [k]) == Elements(q) + {k}
  {}

  lemma SignalNotifies(s: State, t: Tid)
    requires Inv(s) && Enabled(s, Run(t)) && Signals(s, t) && Next(s, Run(t)).halt.Running?
    ensures Signalled(Next(s, Run(t))) <= |Next(s, Run(t)).list|
    ensures Allowed(Abstract(s), EventOf(s, Run(t)), Abstract(Next(s, Run(t))))
  {
    SignalView(s, t);
  }

  lemma PendingNotIssued(s: State)
    requires Inv(s)
    ensures forall x :: x in Pending(s) ==> x !in s.issued
  {
    SplitOrder(s.issued, Pending(s));
  }

  /** Every other step is invisible, or hands `u` over. */
  lemma QuietIsInternal(s: State, a: Action)
    requires Inv(s) && Enabled(s, a) && Next(s, a).halt.Running? && (Quiet(s, a) || a.CallWait?)
    requires a.Run? ==> !s.pcs[a.t].DropU?
    ensures Signalled(Next(s, a)) <= |Next(s, a).list|
    ensures Allowed(Abstract(s), EventOf(s, a), Abstract(Next(s, a)))
  {
    var s' := Next(s, a);
    assert LocksAt(s, a.t);
    StepLocal(s, a);
    SignalledUntouched(s, a.t, s');
    if a.CallWait? { CallWaitSameEntering(s, a.t, a.limit); } else { SameEntering(s, a); }
    if Entering(s).Some? { EnteringHoldsU(s); }
    TakenUnless(s, a);
    SameWaits(s, s');
  }

  lemma PopIsInternal(s: State, t: Tid)
    requires Inv(s) && Enabled(s, Run(t))
    requires s.pcs[t].OnePop? || (s.pcs[t].AllSignal? && s.pcs[t].i >= |s.list|)
    ensures Signalled(Next(s, Run(t))) <= |Next(s, Run(t)).list|
    ensures Allowed(Abstract(s), EventOf(s, Run(t)), Abstract(Next(s, Run(t))))
  {
    assert LocksAt(s, t);
    PopQueue(s, t);
    SameEntering(s, Run(t));
    TakenUnless(s, Run(t));
  }

  lemma WaitStepRefines(s: State, t: Tid)
    requires Inv(s) && Enabled(s, Run(t)) && Next(s, Run(t)).halt.Running?
    requires s.pcs[t].Insert? || s.pcs[t].DropU? || s.pcs[t].Acquire? || s.pcs[t].Erase?
    ensures Signalled(Next(s, Run(t))) <= |Next(s, Run(t)).list|
    ensures Allowed(Abstract(s), EventOf(s, Run(t)), Abstract(Next(s, Run(t))))
  {
    InvKept(s, Run(t));
    assert OwnAt(s, t);
    match s.pcs[t]
    case Insert(_) => InsertAnnounces(s, t);
    case DropU(_) => DropUEnters(s, t);
    case Acquire(k) => if Negative(s.sems[k].limit) { ThrowIsInternal(s, t); } else { TokenWakes(s, t); }
    case Erase(_) => EraseLeaves(s, t);
  }

  /** Forward simulation: every step that does not stop the run is the event `EventOf` of the monitor. */
  lemma StepRefines(s: State, a: Action)
    requires Inv(s) && Enabled(s, a) && Next(s, a).halt.Running?
    ensures Signalled(Next(s, a)) <= |Next(s, a).list|
    ensures Allowed(Abstract(s), EventOf(s, a), Abstract(Next(s, a)))
  {
    if (Quiet(s, a) && (a.Run? ==> !s.pcs[a.t].DropU?)) || a.CallWait? {
      QuietIsInternal(s, a);
    } else if s.pcs[a.t].Insert? || s.pcs[a.t].DropU? || s.pcs[a.t].Acquire? || s.pcs[a.t].Erase? {
      WaitStepRefines(s, a.t);
    } else if Signals(s, a.t) {
      SignalNotifies(s, a.t);
    } else {
      PopIsInternal(s, a.t);
    }
  }

  lemma RunStepRefines(r: History, n: nat)
    requires IsRun(r) && n < |r.acts| && r.states[n + 1].halt.Running?
    ensures Inv(r.states[n]) && Inv(r.states[n + 1]) && r.acts[n].t in r.states[n].pcs
    ensures Allowed(Abstract(r.states[n]), EventOf(r.states[n], r.acts[n]), Abstract(r.states[n + 1]))
  {
    RunInv(r, n);
    RunInv(r, n + 1);
    assert StepAt(r, n);
    StepRefines(r.states[n], r.acts[n]);
  }

  /**
   Every run of the implementation is, up to the point where it stops, a run of the monitor, in which
   a wait resumes with no_timeout only after a notification chose it, and in which every wait that is
   parked for good is still waiting for a notification.  What waits in the monitor is a wait call that
   released `u`; it has left its call only if it threw on a negative duration.
   */
  lemma RunRefines(r: History, n: nat)
    requires IsRun(r) && n < |r.states| && r.states[n].halt.Running?
    ensures Inv(r.states[n])
    ensures n == 0 ==> Abstract(r.states[n]) == Monitor(None, None, [], {})
    ensures n > 0 ==> Inv(r.states[n - 1]) && r.acts[n - 1].t in r.states[n - 1].pcs
    ensures n > 0 ==>
      Allowed(Abstract(r.states[n - 1]), EventOf(r.states[n - 1], r.acts[n - 1]), Abstract(r.states[n]))
    ensures forall t :: t in r.states[n].pcs && r.states[n].pcs[t].Acquire? && !CanRun(r.states[n], t) ==>
      r.states[n].pcs[t].k in Abstract(r.states[n]).waiting
    ensures forall k :: k in Abstract(r.states[n]).waiting ==> k < |r.states[n].sems| && Inside(r.states[n].sems[k])
  {
    RunInv(r, n);
    if n == 0 {
      InitAbstract(r.states[0]);
    } else {
      RunStepRefines(r, n - 1);
    }
    ParkedAreWaiting(r.states[n]);
    forall k | k in Entered(r.states[n]) ensures k < |r.states[n].sems| && Inside(r.states[n].sems[k]) {
      WaitingAreInside(r.states[n], k);
    }
  }

  ghost predicate IsView(s: State, m: Monitor) {
    Inv(s) && m == Abstract(s)
  }

  ghost predicate IsEvent(s: State, a: Action, e: Event) {
    Inv(s) && a.t in s.pcs && e == EventOf(s, a)
  }

  /** The first `n` steps of the run, as the monitor sees them. */
  ghost predicate Mirrors(r: History, n: nat, ms: seq<Monitor>, es: seq<Event>)
    requires n <= |r.acts| < |r.states|
  {
    && |ms| == n + 1 && (forall i :: 0 <= i <= n ==> IsView(r.states[i], ms[i]))
    && Happens(r, n, es)
  }

  ghost predicate EventAt(r: History, i: nat, es: seq<Event>)
    requires i < |es| <= |r.acts| < |r.states|
  {
    IsEvent(r.states[i], r.acts[i], es[i])
  }

  ghost predicate Happens(r: History, n: nat, es: seq<Event>)
    requires n <= |r.acts| < |r.states|
  {
    |es| == n && forall i: nat :: i < n ==> EventAt(r, i, es)
  }

  /** The whole run is a run of the monitor, to which every theorem about the monitor applies. */
  lemma {:induction false} RunIsMonitorRun(r: History, n: nat) returns (ms: seq<Monitor>, es: seq<Event>)
    requires IsRun(r) && n < |r.states| && r.states[n].halt.Running?
    ensures IsMonitorRun(ms, es) && Mirrors(r, n, ms, es)
  {
    if n == 0 {
      InitAbstract(r.states[0]);
      ms, es := [Abstract(r.states[0])], [];
    } else {
      RunInv(r, n - 1);
      ms, es := RunIsMonitorRun(r, n - 1);
      assert IsView(r.states[n - 1], ms[n - 1]);
      RunStepRefines(r, n - 1);
      var m, e := Abstract(r.states[n]), EventOf(r.states[n - 1], r.acts[n - 1]);
      MonitorRunGoesOn(ms, es, e, m);
      MirrorsGoOn(r, n - 1, ms, es, m, e);
      ms, es := ms + [m], es + [e];
    }
  }

  lemma MirrorsGoOn(r: History, n: nat, ms: seq<Monitor>, es: seq<Event>, m: Monitor, e: Event)
    requires n < |r.acts| < |r.states| && Mirrors(r, n, ms, es)
    requires IsView(r.states[n + 1], m) && IsEvent(r.states[n], r.acts[n], e)
    ensures Mirrors(r, n + 1, ms + [m], es + [e])
  {
    forall i: nat | i < n + 1 ensures EventAt(r, i, es + [e]) {
      assert i < n ==> EventAt(r, i, es);
    }
  }

  lemma WakeIsWakeup(s: State, a: Action, k: nat)
    requires Inv(s) && a.t in s.pcs
    ensures EventOf(s, a) == Wake(k) <==> IsWakeup(s, a) && s.pcs[a.t].k == k
  {
    assert OwnAt(s, a.t);
  }

  /** Each wait resumes as often as it has its token taken: once or never. */
  lemma {:induction false} ResumptionsAreTokens(r: History, n: nat, es: seq<Event>, k: nat)
    requires IsRun(r) && n < |r.states| && r.states[n].halt.Running? && Happens(r, n, es)
    ensures Resumptions(es, k) == if k in Taken(r.states[n]) then 1 else 0
  {
    if n == 0 {
      assert Taken(r.states[0]) == {};
    } else {
      LastResumption(r, n - 1, es, k);
      HappensPrefix(r, n - 1, es);
      ResumptionsAreTokens(r, n - 1, es[..n - 1], k);
    }
  }

  lemma LastResumption(r: History, n: nat, es: seq<Event>, k: nat)
    requires IsRun(r) && n < |r.acts| && r.states[n + 1].halt.Running? && Happens(r, n + 1, es)
    ensures r.states[n].halt.Running?
    ensures es[n] == Wake(k) ==> k !in Taken(r.states[n])
    ensures k in Taken(r.states[n + 1]) <==> k in Taken(r.states[n]) || es[n] == Wake(k)
  {
    assert StepAt(r, n);
    assert EventAt(r, n, es);
    StepResumes(r.states[n], r.acts[n], es[n], k);
  }

  lemma HappensPrefix(r: History, n: nat, es: seq<Event>)
    requires n < |r.acts| < |r.states| && Happens(r, n + 1, es)
    ensures Happens(r, n, es[..n])
  {
    forall i: nat | i < n ensures EventAt(r, i, es[..n]) {
      assert EventAt(r, i, es);
    }
  }

  lemma StepResumes(s: State, a: Action, e: Event, k: nat)
    requires WellFormed(s) && Enabled(s, a) && Next(s, a).halt.Running? && IsEvent(s, a, e)
    ensures e == Wake(k) ==> k !in Taken(s)
    ensures k in Taken(Next(s, a)) <==> k in Taken(s) || e == Wake(k)
  {
    WakeIsWakeup(s, a, k);
    WokenStep(s, a, k);
    if IsWakeup(s, a) { WakeupIsFirst(s, a); }
  }

  /** The notifications of a wait in the monitor are the tokens issued to it, its resumptions the token it took. */
  lemma NotificationsAreTokens(r: History, n: nat, k: nat) returns (ms: seq<Monitor>, es: seq<Event>)
    requires IsRun(r) && n < |r.states| && r.states[n].halt.Running?
    ensures IsMonitorRun(ms, es) && Mirrors(r, n, ms, es)
    ensures Resumptions(es, k) == if k in Taken(r.states[n]) then 1 else 0
    ensures Notifications(ms, es, k) == if k in r.states[n].issued then 1 else 0
  {
    ms, es := RunIsMonitorRun(r, n);
    ResumptionsAreTokens(r, n, es, k);
    OneWakeupPerNotification(ms, es, k);
    assert IsView(r.states[n], ms[n]);
    TokenPlace(r.states[n], k);
  }

  predicate Inside(sem: Sem) {
    (sem.alive && (sem.stage.Blocked? || sem.stage.TimedOut?)) || (sem.stage.Threw? && Negative(sem.limit))
  }

  lemma WaitingAreInside(s: State, k: nat)
    requires Inv(s) && k in Entered(s)
    ensures k < |s.sems| && Inside(s.sems[k])
  {
    assert k in Pending(s) && k in s.list;
    assert NodeAt(s, k) && SemAt(s, k);
    if s.sems[k].stage.Listed? {
      OnlyYoungestEnters(s, k);
      EnteringIsLast(s);
      PendingIncreasing(s);
    }
  }

  lemma ParkedAreWaiting(s: State)
    requires Inv(s)
    ensures forall t :: t in s.pcs && s.pcs[t].Acquire? && !CanRun(s, t) ==> s.pcs[t].k in Entered(s)
  {
    forall t | t in s.pcs && s.pcs[t].Acquire? && !CanRun(s, t) ensures s.pcs[t].k in Entered(s) {
      ParkedWaiterIsPending(s, t);
      assert OwnAt(s, t);
    }
  }
}
