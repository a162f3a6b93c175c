/** What every run of the condition variable guarantees: wakeups, order, tokens, progress. */
module CvProperties {
  import opened Options
  import opened CvProtocol
  import opened CvInvariant
  import opened CvRuns

  // ---- No lost wakeup ------------------------------------------------------------------

  /** Registered, and neither woken by a token nor finished. */
  predicate Waiting(stage: Stage) {
    stage.Listed? || stage.Blocked? || stage.TimedOut?
  }

  /** With `m` free, a registered waiter is queued without a token or has its token, never both, never neither. */
  lemma NoLostWakeup(s: State, k: nat)
    requires Inv(s) && s.m.None? && k < |s.sems| && Waiting(s.sems[k].stage)
    ensures k in s.list <==> s.sems[k].count == 0
    ensures k !in s.list <==> s.sems[k].count == 1
  {
    assert NodeAt(s, k);
    assert Pending(s) == s.list;
  }

  /** Whoever holds `m`, a waiter parked for good is a node the notifiers have still to serve. */
  lemma ParkedWaiterIsPending(s: State, t: Tid)
    requires Inv(s) && t in s.pcs && s.pcs[t].Acquire? && !CanRun(s, t)
    ensures s.pcs[t].k in Pending(s) && s.pcs[t].k !in s.issued
  {
    assert OwnAt(s, t) && NodeAt(s, s.pcs[t].k);
  }

  /** A token issued to a waiter that has not timed out lets it run. */
  lemma SignalledWaiterRuns(s: State, k: nat)
    requires Inv(s) && k < |s.sems| && k in s.issued && s.sems[k].stage.Blocked?
    ensures s.sems[k].owner in s.pcs && s.pcs[s.sems[k].owner] == Acquire(k) && CanRun(s, s.sems[k].owner)
  {
    assert SemAt(s, k) && NodeAt(s, k) && OwnAt(s, s.sems[k].owner);
  }

  // ---- Order and snapshot --------------------------------------------------------------

  lemma SplitOrder(a: seq<nat>, b: seq<nat>)
    requires Increasing(a + b)
    ensures Increasing(a) && Increasing(b)
    ensures forall i, j :: 0 <= i < |a| && 0 <= j < |b| ==> a[i] < b[j]
  {
    var order := a + b;
    forall i, j | 0 <= i < j < |a| ensures a[i] < a[j] {
      assert order[i] == a[i] && order[j] == a[j];
    }
    forall i, j | 0 <= i < j < |b| ensures b[i] < b[j] {
      assert order[|a| + i] == b[i] && order[|a| + j] == b[j];
    }
    forall i, j | 0 <= i < |a| && 0 <= j < |b| ensures a[i] < b[j] {
      assert order[i] == a[i] && order[|a| + j] == b[j];
    }
  }

  /** Tokens are issued in registration order, and every waiting node was registered after every served one. */
  lemma RegistrationOrder(s: State)
    requires Inv(s)
    ensures Increasing(s.issued) && Increasing(Pending(s))
    ensures forall x, y :: x in s.issued && y in Pending(s) ==> x < y
    ensures Increasing(s.list)
  {
    SplitOrder(s.issued, Pending(s));
    ListIncreasing(s.issued, s.list, Signalled(s));
  }

  /** A list whose first `p` nodes are the last `p` issued continues the order of the issued ones. */
  lemma ListIncreasing(issued: seq<nat>, list: seq<nat>, p: nat)
    requires p <= |list| && p <= |issued| && list[..p] == issued[|issued| - p..]
    requires Increasing(issued + list[p..])
    ensures Increasing(list)
  {
    var order, n := issued + list[p..], |issued| - p;
    forall x | 0 <= x < |list| ensures list[x] == order[n + x] {
      assert x < p ==> list[x] == list[..p][x] == issued[n..][x];
    }
  }

  /** A step that is not the holder's leaves the list, the tokens issued and the holder's Pc alone. */
  lemma HolderUndisturbed(s: State, a: Action, t: Tid)
    requires Inv(s) && Enabled(s, a) && s.m == Some(t) && a.t != t && Next(s, a).halt.Running?
    ensures var s' := Next(s, a);
      s'.m == Some(t) && s'.list == s.list && s'.issued == s.issued && t in s'.pcs && s'.pcs[t] == s.pcs[t]
  {
    assert LocksAt(s, a.t) && LocksAt(s, t);
    StepLocal(s, a);
  }

  /** Where a `notify_all` that took `m` in state `s0` has got to in state `s`. */
  ghost predicate AllProgress(s0: State, s: State, t: Tid) {
    && t in s.pcs && s.m == Some(t)
    && match s.pcs[t]
       case AllSignal(c) => c <= |s0.list| && s.list == s0.list && s.issued == s0.issued + s0.list[..c]
       case NotifyDropM => s.list == [] && s.issued == s0.issued + s0.list
       case _ => false
  }

  /** Where a `notify_one` that took `m` in state `s0` has got to in state `s`. */
  ghost predicate OneProgress(s0: State, s: State, t: Tid) {
    && t in s.pcs && s.m == Some(t)
    && match s.pcs[t]
       case OneSignal => s.list == s0.list && s.issued == s0.issued
       case OnePop => s.list == s0.list != [] && s.issued == s0.issued + [s0.list[0]]
       case NotifyDropM =>
         if s0.list == [] then s.list == [] && s.issued == s0.issued
         else s.list == s0.list[1..] && s.issued == s0.issued + [s0.list[0]]
       case _ => false
  }

  lemma AllProgressKept(s0: State, s: State, a: Action, t: Tid)
    requires Inv(s) && AllProgress(s0, s, t) && Enabled(s, a)
    requires Next(s, a).halt.Running? && Next(s, a).m == Some(t)
    ensures AllProgress(s0, Next(s, a), t)
  {
    if a.t != t {
      HolderUndisturbed(s, a, t);
    } else {
      assert LocksAt(s, t);
      if s.pcs[t].AllSignal? && s.pcs[t].i < |s.list| {
        assert s0.list[..s.pcs[t].i + 1] == s0.list[..s.pcs[t].i] + [s0.list[s.pcs[t].i]];
      } else {
        assert s0.list[..|s0.list|] == s0.list;
      }
    }
  }

  lemma OneProgressKept(s0: State, s: State, a: Action, t: Tid)
    requires Inv(s) && OneProgress(s0, s, t) && Enabled(s, a)
    requires Next(s, a).halt.Running? && Next(s, a).m == Some(t)
    ensures OneProgress(s0, Next(s, a), t)
  {
    if a.t != t {
      HolderUndisturbed(s, a, t);
    } else {
      assert LocksAt(s, t);
    }
  }

  /** From state `i` to state `n` of the run, thread `t` holds `m` without a break. */
  ghost predicate Holds(r: History, i: nat, n: nat, t: Tid)
    requires n < |r.states|
  {
    forall j :: i <= j <= n ==> r.states[j].m == Some(t)
  }

  /** However the other threads interleave, `notify_all` serves exactly the nodes present when it took `m`. */
  lemma {:induction false} NotifyAllSnapshot(r: History, i: nat, n: nat, t: Tid)
    requires IsRun(r) && i <= n < |r.states| && r.states[n].halt.Running? && Holds(r, i, n, t)
    requires t in r.states[i].pcs && r.states[i].pcs[t] == AllSignal(0)
    ensures AllProgress(r.states[i], r.states[n], t)
  {
    RunInv(r, n);
    if i == n {
      assert r.states[i].list[..0] == [];
    } else {
      RunInv(r, n - 1);
      NotifyAllSnapshot(r, i, n - 1, t);
      assert StepAt(r, n - 1);
      AllProgressKept(r.states[i], r.states[n - 1], r.acts[n - 1], t);
    }
  }

  /** However the other threads interleave, `notify_one` serves the oldest node present when it took `m`, and only it. */
  lemma {:induction false} NotifyOneSnapshot(r: History, i: nat, n: nat, t: Tid)
    requires IsRun(r) && i <= n < |r.states| && r.states[n].halt.Running? && Holds(r, i, n, t)
    requires t in r.states[i].pcs && r.states[i].pcs[t] == OneSignal
    ensures OneProgress(r.states[i], r.states[n], t)
  {
    RunInv(r, n);
    if i < n {
      RunInv(r, n - 1);
      NotifyOneSnapshot(r, i, n - 1, t);
      assert StepAt(r, n - 1);
      OneProgressKept(r.states[i], r.states[n - 1], r.acts[n - 1], t);
    }
  }

  /** A waiter that was registered when a `notify_all` took `m` has its token when that call is done. */
  lemma NotifyAllWakesEveryone(r: History, i: nat, n: nat, t: Tid, k: nat)
    requires IsRun(r) && i <= n < |r.states| && r.states[n].halt.Running? && Holds(r, i, n, t)
    requires t in r.states[i].pcs && r.states[i].pcs[t] == AllSignal(0)
    requires t in r.states[n].pcs && r.states[n].pcs[t] == NotifyDropM
    requires k < |r.states[i].sems|
    ensures k in r.states[n].issued <==> k in r.states[i].issued || InList(r.states[i].sems[k].stage)
  {
    RunInv(r, i);
    NotifyAllSnapshot(r, i, n, t);
    var s := r.states[i];
    assert Pending(s) == s.list;
    assert NodeAt(s, k);
  }

  // ---- Tokens --------------------------------------------------------------------------

  ghost predicate IsRelease(s: State, a: Action) {
    a.Run? && a.t in s.pcs && Signals(s, a.t)
  }

  /** A successful acquire: the wait will return no_timeout. */
  ghost predicate IsWakeup(s: State, a: Action) {
    a.Run? && a.t in s.pcs && s.pcs[a.t].Acquire? && s.pcs[a.t].k < |s.sems| && !Negative(s.sems[s.pcs[a.t].k].limit)
  }

  ghost function Releases(r: History, n: nat): nat
    requires n <= |r.acts| < |r.states|
  {
    if n == 0 then 0 else Releases(r, n - 1) + if IsRelease(r.states[n - 1], r.acts[n - 1]) then 1 else 0
  }

  ghost function Wakeups(r: History, n: nat): nat
    requires n <= |r.acts| < |r.states|
  {
    if n == 0 then 0 else Wakeups(r, n - 1) + if IsWakeup(r.states[n - 1], r.acts[n - 1]) then 1 else 0
  }

  ghost function Taken(s: State): set<nat> {
    set k: nat | k < |s.sems| && s.sems[k].stage.Woken?
  }

  /** Tokens issued to wait calls that have not timed out. */
  ghost function Ready(s: State): set<nat> {
    set k: nat | k < |s.sems| && s.sems[k].count == 1 && (s.sems[k].stage.Listed? || s.sems[k].stage.Blocked?)
  }

  /** Tokens issued to wait calls that have timed out. */
  ghost function Stranded(s: State): set<nat> {
    set k: nat | k < |s.sems| && s.sems[k].count == 1 && s.sems[k].stage.TimedOut?
  }

  /** Tokens issued to wait calls that then threw on a negative duration. */
  ghost function Burnt(s: State): set<nat> {
    set k: nat | k < |s.sems| && s.sems[k].count == 1 && s.sems[k].stage.Threw?
  }

  ghost function Elements(q: seq<nat>): set<nat> {
    set x | x in q
  }

  lemma {:induction false} CountIncreasing(q: seq<nat>)
    requires Increasing(q)
    ensures |Elements(q)| == |q|
  {
    if q != [] {
      var rest, last := q[..|q| - 1], q[|q| - 1];
      assert forall x :: x in q <==> x in rest || x == last;
      CountIncreasing(rest);
      assert Elements(q) == Elements(rest) + {last};
    }
  }

  /** Where the token of one semaphore is. */
  lemma TokenPlace(s: State, k: nat)
    requires Inv(s)
    ensures k in s.issued <==> k in Taken(s) || k in Ready(s) || k in Stranded(s) || k in Burnt(s)
  {
    if k < |s.sems| { assert NodeAt(s, k); }
  }

  lemma DisjointSum(a: set<nat>, b: set<nat>, c: set<nat>, d: set<nat>)
    requires a !! b !! c !! d
    ensures |a + b + c + d| == |a| + |b| + |c| + |d|
  {
    assert |a + b| == |a| + |b|;
    assert |a + b + c| == |a + b| + |c|;
  }

  lemma TokenPlaces(s: State)
    requires Inv(s)
    ensures Elements(s.issued) == Taken(s) + Ready(s) + Stranded(s) + Burnt(s)
  {
    forall k: nat ensures k in s.issued <==> k in Taken(s) || k in Ready(s) || k in Stranded(s) || k in Burnt(s) {
      TokenPlace(s, k);
    }
  }

  lemma PlacesDisjoint(s: State)
    ensures Taken(s) !! Ready(s) !! Stranded(s) !! Burnt(s)
  {}

  lemma CountIssued(s: State)
    requires Inv(s)
    ensures |Elements(s.issued)| == |s.issued|
  {
    SplitOrder(s.issued, Pending(s));
    CountIncreasing(s.issued);
  }

  /** In every state each issued token is in exactly one of four places. */
  lemma TokensAccounted(s: State)
    requires Inv(s)
    ensures |s.issued| == |Taken(s)| + |Ready(s)| + |Stranded(s)| + |Burnt(s)|
  {
    CountIssued(s);
    TokenPlaces(s);
    PlacesDisjoint(s);
    DisjointSum(Taken(s), Ready(s), Stranded(s), Burnt(s));
  }

  lemma WokenOld(s: State, a: Action, k: nat)
    requires Inv(s) && Enabled(s, a) && Next(s, a).halt.Running? && k < |s.sems|
    ensures k in Taken(Next(s, a)) <==> k in Taken(s) || (IsWakeup(s, a) && s.pcs[a.t].k == k)
  {
    StageStep(s, a, k);
    if a.Run? && s.pcs[a.t] == Acquire(k) { WaitStage(s, a.t); }
  }

  lemma WokenNew(s: State, a: Action, k: nat)
    requires Inv(s) && Enabled(s, a) && Next(s, a).halt.Running? && k >= |s.sems|
    ensures k !in Taken(Next(s, a))
  {
    StepLocal(s, a);
    assert OwnAt(Next(s, a), a.t);
  }

  lemma WokenStep(s: State, a: Action, k: nat)
    requires Inv(s) && Enabled(s, a) && Next(s, a).halt.Running?
    ensures k in Taken(Next(s, a)) <==> k in Taken(s) || (IsWakeup(s, a) && s.pcs[a.t].k == k)
  {
    if k < |s.sems| { WokenOld(s, a, k); } else { WokenNew(s, a, k); }
  }

  lemma WakeupIsFirst(s: State, a: Action)
    requires Inv(s) && Enabled(s, a) && IsWakeup(s, a)
    ensures s.pcs[a.t].k !in Taken(s)
  {
    assert OwnAt(s, a.t);
  }

  lemma TakenStep(s: State, a: Action)
    requires Inv(s) && Enabled(s, a) && Next(s, a).halt.Running?
    ensures |Taken(Next(s, a))| == |Taken(s)| + if IsWakeup(s, a) then 1 else 0
  {
    var before, after := Taken(s), Taken(Next(s, a));
    forall k: nat ensures k in after <==> k in before || (IsWakeup(s, a) && s.pcs[a.t].k == k) {
      WokenStep(s, a, k);
    }
    if IsWakeup(s, a) {
      WakeupIsFirst(s, a);
      assert after == before + {s.pcs[a.t].k};
    } else {
      assert after == before;
    }
  }

  lemma IssuedStep(s: State, a: Action)
    requires Inv(s) && Enabled(s, a) && Next(s, a).halt.Running?
    ensures |Next(s, a).issued| == |s.issued| + if IsRelease(s, a) then 1 else 0
    ensures s.issued <= Next(s, a).issued
  {}

  lemma {:induction false} TokensCounted(r: History, n: nat)
    requires IsRun(r) && n < |r.states| && r.states[n].halt.Running?
    ensures |r.states[n].issued| == Releases(r, n)
    ensures |Taken(r.states[n])| == Wakeups(r, n)
  {
    if n == 0 {
      assert Taken(r.states[0]) == {};
    } else {
      RunInv(r, n - 1);
      TokensCounted(r, n - 1);
      assert StepAt(r, n - 1);
      IssuedStep(r.states[n - 1], r.acts[n - 1]);
      TakenStep(r.states[n - 1], r.acts[n - 1]);
    }
  }

  /** Over every run: releases = wakeups + tokens ready + tokens stranded by timeouts + tokens burnt by exceptions. */
  lemma TokenConservation(r: History, n: nat)
    requires IsRun(r) && n < |r.states| && r.states[n].halt.Running?
    ensures Releases(r, n) == Wakeups(r, n) + |Ready(r.states[n])| + |Stranded(r.states[n])| + |Burnt(r.states[n])|
  {
    RunInv(r, n);
    TokensCounted(r, n);
    TokensAccounted(r.states[n]);
  }

  // ---- Bounded overtaking --------------------------------------------------------------

  lemma {:induction false} IssuedGrows(r: History, i: nat, n: nat)
    requires IsRun(r) && i <= n < |r.states| && r.states[n].halt.Running?
    ensures r.states[i].issued <= r.states[n].issued
  {
    if i < n {
      RunInv(r, n - 1);
      IssuedGrows(r, i, n - 1);
      assert StepAt(r, n - 1);
      IssuedStep(r.states[n - 1], r.acts[n - 1]);
    }
  }

  lemma {:induction false} ErasedForGood(r: History, i: nat, n: nat, k: nat)
    requires IsRun(r) && i <= n < |r.states| && r.states[n].halt.Running?
    requires k < |r.states[i].sems| && r.states[i].sems[k].stage.Erased?
    ensures k < |r.states[n].sems| && r.states[n].sems[k].stage.Erased?
  {
    if i < n {
      RunInv(r, n - 1);
      ErasedForGood(r, i, n - 1, k);
      assert StepAt(r, n - 1);
      StageStep(r.states[n - 1], r.acts[n - 1], k);
    }
  }

  /** A wait that is served later than state `i` and registered before node `k` was in front of `k`. */
  lemma ServedWasInFront(r: History, i: nat, n: nat, k: nat, x: nat)
    requires IsRun(r) && i <= n < |r.states| && r.states[n].halt.Running?
    requires Inv(r.states[i]) && k in Pending(r.states[i]) && x < k
    requires x in r.states[n].issued && x !in r.states[i].issued
    ensures x in Pending(r.states[i])
  {
    var s := r.states[i];
    assert k in s.list && SemAt(s, x) && NodeAt(s, x);
    if s.sems[x].stage.Erased? {
      ErasedForGood(r, i, n, x);
      RunInv(r, n);
      assert NodeAt(r.states[n], x);
    }
  }

  lemma {:induction false} ElementsBounded(q: seq<nat>)
    ensures |Elements(q)| <= |q|
  {
    if q != [] {
      assert Elements(q) == Elements(q[..|q| - 1]) + {q[|q| - 1]};
      ElementsBounded(q[..|q| - 1]);
    }
  }

  lemma DistinctFit(new_: seq<nat>, front: seq<nat>)
    requires Increasing(new_) && forall x :: x in new_ ==> x in front
    ensures |new_| <= |front|
  {
    CountIncreasing(new_);
    ElementsBounded(front);
    SubsetSize(Elements(new_), Elements(front));
  }

  lemma {:induction false} SubsetSize(a: set<nat>, b: set<nat>)
    requires a <= b
    ensures |a| <= |b|
  {
    if a != {} {
      var x :| x in a;
      SubsetSize(a - {x}, b - {x});
    }
  }

  /** A waiter is served, or has left, after at most as many further releases as there were nodes in front of it. */
  lemma OvertakenAtMost(r: History, i: nat, n: nat, p: nat)
    requires IsRun(r) && i <= n < |r.states| && r.states[n].halt.Running? && Inv(r.states[i]) && Inv(r.states[n])
    requires p < |Pending(r.states[i])| && Pending(r.states[i])[p] in Pending(r.states[n])
    ensures |r.states[n].issued| - |r.states[i].issued| <= p
  {
    var before, after := r.states[i].issued, r.states[n].issued;
    var q := Pending(r.states[i]);
    IssuedGrows(r, i, n);
    RegistrationOrder(r.states[i]);
    RegistrationOrder(r.states[n]);
    var new_ := after[|before|..];
    assert after == before + new_;
    SplitOrder(before, new_);
    forall x | x in new_ ensures x in q[..p] {
      assert x in after && x !in before;
      ServedWasInFront(r, i, n, q[p], x);
      InFront(q, p, x);
    }
    DistinctFit(new_, q[..p]);
  }

  lemma InFront(q: seq<nat>, p: nat, x: nat)
    requires Increasing(q) && p < |q| && x in q && x < q[p]
    ensures x in q[..p]
  {
    var j :| 0 <= j < |q| && q[j] == x;
    assert j < p;
    assert q[..p][j] == x;
  }
}
