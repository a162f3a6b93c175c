/** The inductive invariant of the condition variable and its preservation by every step. */
module CvInvariant {
  import opened Options
  import opened CvProtocol

  predicate HoldsM(pc: Pc) {
    pc.Insert? || pc.DropM? || pc.Erase? || pc.EraseDropM? || pc.OneSignal? || pc.OnePop? || pc.AllSignal? || pc.NotifyDropM?
  }

  /** Steps of a wait call made while the caller's mutex is held. */
  predicate HoldsU(pc: Pc) {
    pc.TakeM? || pc.Insert? || pc.DropM? || pc.DropU? || pc.EraseTakeM? || pc.Erase? || pc.EraseDropM? || pc.Return?
  }

  predicate LacksU(pc: Pc) {
    pc.Acquire? || pc.RetakeU?
  }

  ghost predicate LocksAt(s: State, t: Tid)
    requires t in s.pcs
  {
    && (HoldsM(s.pcs[t]) <==> s.m == Some(t))
    && (HoldsU(s.pcs[t]) ==> s.u == Some(t))
    && (LacksU(s.pcs[t]) ==> s.u != Some(t))
  }

  /** Mutual exclusion: the owner of each mutex is the thread whose Pc says so. */
  ghost predicate InvLocks(s: State) {
    && (s.u.Some? ==> s.u.value in s.pcs)
    && (s.m.Some? ==> s.m.value in s.pcs)
    && (forall t :: t in s.pcs ==> LocksAt(s, t))
  }

  /** The stage of the wait call at each of its steps. */
  predicate StageAt(pc: Pc, stage: Stage) {
    match pc
    case TakeM(_) => stage.Fresh?
    case Insert(_) => stage.Fresh?
    case DropM(_) => stage.Listed?
    case DropU(_) => stage.Listed?
    case Acquire(_) => stage.Blocked?
    case RetakeU(_, ok) => if ok then stage.Woken? else stage.TimedOut?
    case EraseTakeM(_) => stage.TimedOut?
    case Erase(_) => stage.TimedOut?
    case EraseDropM(_) => stage.Erased?
    case Return(_, ok) => if ok then stage.Woken? else stage.Erased?
    case _ => true
  }

  ghost predicate OwnAt(s: State, t: Tid)
    requires t in s.pcs
  {
    Ticket(s.pcs[t]).Some? ==>
      var k := Ticket(s.pcs[t]).value;
      k < |s.sems| && s.sems[k].owner == t && s.sems[k].alive && StageAt(s.pcs[t], s.sems[k].stage)
  }

  ghost predicate SemAt(s: State, k: nat)
    requires k < |s.sems|
  {
    var sem := s.sems[k];
    && (sem.alive ==> sem.owner in s.pcs && Ticket(s.pcs[sem.owner]) == Some(k))
    && (!sem.alive ==> sem.stage.Woken? || sem.stage.Erased? || sem.stage.Threw?)
    && (sem.stage.Threw? ==> !sem.alive && Negative(sem.limit))
    && (sem.stage.TimedOut? ==> sem.limit.Usec? && sem.limit.n >= 0)
    && (sem.stage.Fresh? || sem.stage.Listed? ==> k == |s.sems| - 1)
  }

  /** A semaphore lives exactly while its owner's Pc carries its ticket. */
  ghost predicate InvOwn(s: State) {
    && (forall t :: t in s.pcs ==> OwnAt(s, t))
    && (forall k :: 0 <= k < |s.sems| ==> SemAt(s, k))
  }

  /** Length of the list prefix that the notifier holding `m` has already signalled. */
  function Signalled(s: State): nat {
    if s.m.Some? && s.m.value in s.pcs then
      match s.pcs[s.m.value]
      case OnePop => 1
      case AllSignal(i) => i
      case _ => 0
    else 0
  }

  /** The nodes still waiting for a token. */
  function Pending(s: State): seq<nat>
    requires Signalled(s) <= |s.list|
  {
    s.list[Signalled(s)..]
  }

  predicate Increasing(q: seq<nat>) {
    forall i, j :: 0 <= i < j < |q| ==> q[i] < q[j]
  }

  predicate InList(stage: Stage) {
    stage.Listed? || stage.Blocked? || stage.TimedOut? || stage.Threw?
  }

  ghost predicate NodeAt(s: State, k: nat)
    requires k < |s.sems| && Signalled(s) <= |s.list|
  {
    var sem := s.sems[k];
    && (k in Pending(s) <==> InList(sem.stage) && k !in s.issued)
    && (k in s.issued ==> InList(sem.stage) || sem.stage.Woken?)
    && (sem.stage.Woken? ==> k in s.issued)
    && sem.count == (if k in s.issued && !sem.stage.Woken? then 1 else 0)
  }

  /** Tokens issued so far, then the nodes still waiting, in registration order. */
  ghost predicate InvQueue(s: State) {
    && Signalled(s) <= |s.list|
    && Signalled(s) <= |s.issued|
    && s.list[..Signalled(s)] == s.issued[|s.issued| - Signalled(s)..]
    && Increasing(s.issued + Pending(s))
    && (forall i :: 0 <= i < |s.issued| ==> s.issued[i] < |s.sems|)
    && (forall k :: 0 <= k < |s.sems| ==> NodeAt(s, k))
  }

  ghost predicate Inv(s: State) {
    WellFormed(s) && InvLocks(s) && InvOwn(s) && InvQueue(s)
  }

  lemma InitInv(s: State)
    requires Init(s)
    ensures Inv(s)
  {
    assert s.issued + Pending(s) == [];
  }

  /** What a step of thread `t` leaves alone: other threads' Pcs, and mutexes it neither had nor took. */
  ghost predicate Frame(s: State, t: Tid, s': State) {
    && t in s.pcs
    && s'.pcs.Keys == s.pcs.Keys
    && (forall o :: o in s.pcs && o != t ==> s'.pcs[o] == s.pcs[o])
    && (s'.m == s.m || (s.m == None && s'.m == Some(t)) || (s.m == Some(t) && s'.m == None))
    && (s'.u == s.u || (s.u == None && s'.u == Some(t)) || (s.u == Some(t) && s'.u == None))
  }

  /** Of the semaphores, the step changes at most the liveness and stage of its own thread's. */
  ghost predicate SemFrame(s: State, t: Tid, s': State)
    requires t in s.pcs
  {
    && |s.sems| <= |s'.sems| <= |s.sems| + 1
    && forall k :: 0 <= k < |s.sems| ==>
        && s'.sems[k].owner == s.sems[k].owner
        && s'.sems[k].limit == s.sems[k].limit
        && (Ticket(s.pcs[t]) != Some(k) ==> s'.sems[k].alive == s.sems[k].alive && s'.sems[k].stage == s.sems[k].stage)
  }

  /** What a step that does not stop the run owes the invariant at its own thread. */
  ghost predicate Local(s: State, t: Tid, s': State) {
    && Frame(s, t, s') && LocksAt(s', t)
    && SemFrame(s, t, s') && OwnAt(s', t)
    && (Ticket(s.pcs[t]).Some? ==> Ticket(s.pcs[t]).value < |s.sems| == |s'.sems| && SemAt(s', Ticket(s.pcs[t]).value))
    && (|s'.sems| > |s.sems| ==> s.u == Some(t) && SemAt(s', |s.sems|))
  }

  lemma LocalKeeps(s: State, t: Tid, s': State)
    requires WellFormed(s) && InvLocks(s) && InvOwn(s) && Local(s, t, s')
    ensures InvLocks(s') && InvOwn(s')
  {
    forall o | o in s'.pcs ensures LocksAt(s', o) && OwnAt(s', o) {
      assert LocksAt(s, o) && OwnAt(s, o);
    }
    forall k | 0 <= k < |s'.sems| ensures SemAt(s', k) {
      if k < |s.sems| {
        assert SemAt(s, k);
        var o := s.sems[k].owner;
        if s.sems[k].alive {
          assert LocksAt(s, o) && OwnAt(s, o);
        }
      }
    }
  }

  predicate UpToAcquire(pc: Pc) {
    pc.TakeM? || pc.Insert? || pc.DropM? || pc.DropU? || pc.Acquire?
  }

  lemma EnterLocal(s: State, t: Tid)
    requires WellFormed(s) && t in s.pcs && LocksAt(s, t) && OwnAt(s, t) && CanRun(s, t) && UpToAcquire(s.pcs[t])
    requires SemAt(s, Ticket(s.pcs[t]).value)
    ensures Local(s, t, NextWait(s, t))
  {}

  lemma LeaveLocal(s: State, t: Tid)
    requires WellFormed(s) && t in s.pcs && LocksAt(s, t) && OwnAt(s, t) && CanRun(s, t)
    requires Ticket(s.pcs[t]).Some? && !UpToAcquire(s.pcs[t])
    requires SemAt(s, Ticket(s.pcs[t]).value)
    ensures NextWait(s, t).halt == s.halt ==> Local(s, t, NextWait(s, t))
  {}

  /** The thread is about to release the semaphore of a list node. */
  predicate Signals(s: State, t: Tid)
    requires t in s.pcs
  {
    (s.pcs[t].OneSignal? && s.list != []) || (s.pcs[t].AllSignal? && s.pcs[t].i < |s.list|)
  }

  lemma SignalOneLocal(s: State, t: Tid)
    requires WellFormed(s) && t in s.pcs && LocksAt(s, t) && Signals(s, t) && s.pcs[t].OneSignal?
    ensures NextNotify(s, t).halt == s.halt ==> Local(s, t, NextNotify(s, t))
  {}

  lemma SignalAllLocal(s: State, t: Tid)
    requires WellFormed(s) && t in s.pcs && LocksAt(s, t) && Signals(s, t) && s.pcs[t].AllSignal?
    ensures NextNotify(s, t).halt == s.halt ==> Local(s, t, NextNotify(s, t))
  {}

  lemma NotifyOneLocal(s: State, t: Tid)
    requires WellFormed(s) && t in s.pcs && LocksAt(s, t) && CanRun(s, t) && !Signals(s, t)
    requires s.pcs[t].OneTakeM? || s.pcs[t].OneSignal? || s.pcs[t].OnePop?
    ensures Local(s, t, NextNotify(s, t))
  {}

  lemma NotifyAllLocal(s: State, t: Tid)
    requires WellFormed(s) && t in s.pcs && LocksAt(s, t) && CanRun(s, t) && !Signals(s, t)
    requires s.pcs[t].AllTakeM? || s.pcs[t].AllSignal? || s.pcs[t].NotifyDropM?
    ensures Local(s, t, NextNotify(s, t))
  {}

  lemma CallWaitLocal(s: State, t: Tid, limit: Limit)
    requires WellFormed(s) && t in s.pcs && LocksAt(s, t) && Enabled(s, CallWait(t, limit)) && s.u == Some(t)
    ensures Local(s, t, Next(s, CallWait(t, limit)))
  {}

  lemma ExpireLocal(s: State, t: Tid)
    requires WellFormed(s) && t in s.pcs && LocksAt(s, t) && OwnAt(s, t) && Enabled(s, Expire(t))
    requires SemAt(s, s.pcs[t].k)
    ensures Local(s, t, Next(s, Expire(t)))
  {}

  lemma UserLocal(s: State, a: Action)
    requires WellFormed(s) && a.t in s.pcs && LocksAt(s, a.t) && Enabled(s, a)
    requires a.UserLock? || a.UserUnlock? || a.CallNotifyOne? || a.CallNotifyAll?
    ensures Local(s, a.t, Next(s, a))
  {}

  lemma StepLocal(s: State, a: Action)
    requires WellFormed(s) && InvLocks(s) && InvOwn(s) && Enabled(s, a) && Next(s, a).halt.Running?
    ensures Local(s, a.t, Next(s, a))
  {
    var t := a.t;
    assert LocksAt(s, t) && OwnAt(s, t);
    assert Ticket(s.pcs[t]).Some? ==> SemAt(s, Ticket(s.pcs[t]).value);
    match a
    case CallWait(_, limit) => CallWaitLocal(s, t, limit);
    case Expire(_) => ExpireLocal(s, t);
    case Run(_) =>
      if Ticket(s.pcs[t]).Some? {
        if UpToAcquire(s.pcs[t]) { EnterLocal(s, t); } else { LeaveLocal(s, t); }
      } else {
        if Signals(s, t) { if s.pcs[t].OneSignal? { SignalOneLocal(s, t); } else { SignalAllLocal(s, t); } }
        else if s.pcs[t].OneTakeM? || s.pcs[t].OneSignal? || s.pcs[t].OnePop? { NotifyOneLocal(s, t); }
        else { NotifyAllLocal(s, t); }
      }
    case _ => UserLocal(s, a);
  }

  lemma WithoutElements(list: seq<nat>, k: nat)
    requires Increasing(list) && k in list
    ensures Increasing(Without(list, k))
    ensures forall x :: x in Without(list, k) <==> x in list && x != k
  {
    var n := NodeOf(list, k);
    var rest := Without(list, k);
    assert forall i :: 0 <= i < |rest| ==> rest[i] == if i < n then list[i] else list[i + 1];
    forall x | x in list && x != k ensures x in rest {
      var i :| 0 <= i < |list| && list[i] == x;
      assert x == rest[if i < n then i else i - 1];
    }
  }

  /** A step that moves no node and no token keeps the queue invariant. */
  lemma QueueUntouched(s: State, s': State)
    requires WellFormed(s) && InvQueue(s)
    requires s'.list == s.list && s'.issued == s.issued && |s'.sems| == |s.sems|
    requires Signalled(s') == Signalled(s)
    requires forall k :: 0 <= k < |s.sems| ==>
      && s'.sems[k].count == s.sems[k].count
      && InList(s'.sems[k].stage) == InList(s.sems[k].stage)
      && s'.sems[k].stage.Woken? == s.sems[k].stage.Woken?
    ensures InvQueue(s')
  {
    forall k | 0 <= k < |s'.sems| ensures NodeAt(s', k) {
      assert NodeAt(s, k);
    }
  }

  lemma InsertQueue(s: State, t: Tid)
    requires Inv(s) && s.halt.Running? && t in s.pcs && s.pcs[t].Insert? && CanRun(s, t)
    ensures InvQueue(NextWait(s, t))
  {
    var s' := NextWait(s, t);
    var k := s.pcs[t].k;
    assert LocksAt(s, t) && OwnAt(s, t) && SemAt(s, k) && NodeAt(s, k);
    assert s.issued + Pending(s') == (s.issued + Pending(s)) + [k];
    forall i | 0 <= i < |s.issued + Pending(s)| ensures (s.issued + Pending(s))[i] < k {
      var x := (s.issued + Pending(s))[i];
      assert x in s.issued || x in Pending(s);
      assert x in Pending(s) ==> x in s.list;
    }
    forall j | 0 <= j < |s'.sems| ensures NodeAt(s', j) {
      assert NodeAt(s, j);
    }
  }

  lemma TokenQueue(s: State, t: Tid)
    requires Inv(s) && s.halt.Running? && t in s.pcs && s.pcs[t].Acquire? && CanRun(s, t)
    ensures InvQueue(NextWait(s, t))
  {
    var s' := NextWait(s, t);
    var k := s.pcs[t].k;
    assert LocksAt(s, t) && OwnAt(s, t) && SemAt(s, k) && NodeAt(s, k);
    assert Signalled(s') == Signalled(s);
    forall j | 0 <= j < |s'.sems| ensures NodeAt(s', j) {
      assert NodeAt(s, j);
    }
  }

  lemma EraseQueue(s: State, t: Tid)
    requires Inv(s) && s.halt.Running? && t in s.pcs && s.pcs[t].Erase? && s.pcs[t].k in s.list
    ensures InvQueue(NextWait(s, t))
  {
    var s' := NextWait(s, t);
    var k := s.pcs[t].k;
    assert LocksAt(s, t) && OwnAt(s, t) && SemAt(s, k) && NodeAt(s, k);
    assert Pending(s) == s.list && Pending(s') == s'.list;
    assert Increasing(s.list) by {
      forall i, j | 0 <= i < j < |s.list| ensures s.list[i] < s.list[j] {
        assert s.list[i] == (s.issued + Pending(s))[|s.issued| + i];
        assert s.list[j] == (s.issued + Pending(s))[|s.issued| + j];
      }
    }
    WithoutElements(s.list, k);
    SortedPair(s.issued, s.list, s'.list);
    forall j | 0 <= j < |s'.sems| ensures NodeAt(s', j) {
      assert NodeAt(s, j);
    }
  }

  /** Replacing the tail of an increasing sequence by an increasing part of it. */
  lemma SortedPair(a: seq<nat>, b: seq<nat>, c: seq<nat>)
    requires Increasing(a + b) && Increasing(c)
    requires forall x :: x in c ==> x in b
    ensures Increasing(a + c)
  {
    forall i, j | 0 <= i < j < |a + c| ensures (a + c)[i] < (a + c)[j] {
      if i < |a| <= j {
        var x := c[j - |a|];
        assert x in b;
        var n :| 0 <= n < |b| && b[n] == x;
        assert (a + b)[|a| + n] == x && (a + b)[i] == a[i];
      } else if j < |a| {
        assert (a + b)[i] == a[i] && (a + b)[j] == a[j];
      }
    }
  }

  /** Moving the first waiting node over to the issued ones. */
  lemma MoveFirst(list: seq<nat>, p: nat, issued: seq<nat>)
    requires p < |list| && p <= |issued| && list[..p] == issued[|issued| - p..]
    ensures (issued + [list[p]]) + list[p + 1..] == issued + list[p..]
    ensures list[..p + 1] == (issued + [list[p]])[|issued| - p..]
  {
    assert list[p..] == [list[p]] + list[p + 1..];
    assert list[..p + 1] == list[..p] + [list[p]];
  }

  lemma OthersStay(issued: seq<nat>, k: nat, rest: seq<nat>)
    requires Increasing(issued + ([k] + rest))
    ensures k !in rest && k !in issued
  {
    var order := issued + ([k] + rest);
    var n := |issued|;
    assert order[n] == k;
    assert forall i :: 0 <= i < n ==> order[i] == issued[i];
    assert forall i :: 0 <= i < |rest| ==> order[n + 1 + i] == rest[i];
  }

  /** Releasing the next node moves it from the waiting nodes to the issued ones: the order is unchanged. */
  lemma SignalQueue(s: State, s': State)
    requires WellFormed(s) && InvQueue(s) && Signalled(s) < |s.list|
    requires s'.list == s.list && Signalled(s') == Signalled(s) + 1 && |s'.sems| == |s.sems|
    requires s'.issued == s.issued + [Pending(s)[0]]
    requires forall k :: 0 <= k < |s.sems| ==>
      && s'.sems[k].stage == s.sems[k].stage
      && s'.sems[k].count == if k == Pending(s)[0] then 1 else s.sems[k].count
    ensures InvQueue(s')
  {
    var k := Pending(s)[0];
    MoveFirst(s.list, Signalled(s), s.issued);
    assert Pending(s) == [k] + Pending(s');
    OthersStay(s.issued, k, Pending(s'));
    forall j | 0 <= j < |s'.sems| ensures NodeAt(s', j) {
      assert NodeAt(s, j);
      assert j in Pending(s) <==> j == k || j in Pending(s');
    }
  }

  lemma SignalStep(s: State, t: Tid)
    requires Inv(s) && s.halt.Running? && t in s.pcs && s.m == Some(t)
    requires Signals(s, t)
    requires NextNotify(s, t).halt.Running?
    ensures InvQueue(NextNotify(s, t))
  {
    SignalQueue(s, NextNotify(s, t));
  }

  /** Dropping the signalled prefix from the list leaves the waiting nodes as they were. */
  lemma PopQueue(s: State, t: Tid)
    requires Inv(s) && s.halt.Running? && t in s.pcs && s.m == Some(t)
    requires s.pcs[t].OnePop? || (s.pcs[t].AllSignal? && s.pcs[t].i >= |s.list|)
    ensures InvQueue(NextNotify(s, t))
    ensures NextNotify(s, t).list == Pending(s)
  {
    var s' := NextNotify(s, t);
    assert Pending(s') == Pending(s);
    forall j | 0 <= j < |s'.sems| ensures NodeAt(s', j) {
      assert NodeAt(s, j);
    }
  }

  lemma CallWaitQueue(s: State, t: Tid, limit: Limit)
    requires Inv(s) && Enabled(s, CallWait(t, limit)) && s.u == Some(t)
    ensures InvQueue(Next(s, CallWait(t, limit)))
  {
    var s' := Next(s, CallWait(t, limit));
    assert LocksAt(s, t);
    assert Signalled(s') == Signalled(s);
    forall j | 0 <= j < |s'.sems| ensures NodeAt(s', j) {
      if j < |s.sems| { assert NodeAt(s, j); }
      else { assert j !in s.issued && j !in Pending(s) by { assert forall x :: x in Pending(s) ==> x in s.list; } }
    }
  }

  /** A step by any thread that signals nothing leaves the notifier's progress alone. */
  lemma SignalledUntouched(s: State, t: Tid, s': State)
    requires InvLocks(s) && Frame(s, t, s')
    requires LocksAt(s', t)
    requires s.m == Some(t) ==> !s.pcs[t].OnePop? && !s.pcs[t].AllSignal?
    requires s'.m == Some(t) ==> s'.pcs[t] != OnePop && (s'.pcs[t].AllSignal? ==> s'.pcs[t].i == 0)
    ensures Signalled(s') == Signalled(s)
  {
    assert LocksAt(s, t);
  }

  /** Steps that only move mutexes, stages and Pcs. */
  predicate Quiet(s: State, a: Action)
    requires a.t in s.pcs
  {
    match a
    case CallWait(_, _) => false
    case Run(t) =>
      !s.pcs[t].Insert? && !s.pcs[t].Acquire? && !s.pcs[t].Erase? && !s.pcs[t].OnePop? && !s.pcs[t].AllSignal?
      && (s.pcs[t].OneSignal? ==> s.list == [])
    case _ => true
  }

  lemma QuietWait(s: State, t: Tid)
    requires Inv(s) && Enabled(s, Run(t)) && Quiet(s, Run(t)) && Ticket(s.pcs[t]).Some?
    ensures InvQueue(NextWait(s, t))
  {
    var s' := NextWait(s, t);
    assert LocksAt(s, t) && OwnAt(s, t);
    StepLocal(s, Run(t));
    SignalledUntouched(s, t, s');
    QueueUntouched(s, s');
  }

  lemma QuietRest(s: State, a: Action)
    requires Inv(s) && Enabled(s, a) && Quiet(s, a)
    requires a.Run? ==> Ticket(s.pcs[a.t]).None?
    ensures InvQueue(Next(s, a))
  {
    var s' := Next(s, a);
    assert LocksAt(s, a.t) && OwnAt(s, a.t);
    StepLocal(s, a);
    SignalledUntouched(s, a.t, s');
    QueueUntouched(s, s');
  }

  lemma QueueKept(s: State, a: Action)
    requires Inv(s) && Enabled(s, a) && Next(s, a).halt.Running?
    ensures InvQueue(Next(s, a))
  {
    var t := a.t;
    assert LocksAt(s, t);
    var signals := Signals(s, t);
    if Quiet(s, a) {
      if a.Run? && Ticket(s.pcs[t]).Some? { QuietWait(s, t); } else { QuietRest(s, a); }
    } else {
      match a
      case CallWait(_, limit) => CallWaitQueue(s, t, limit);
      case Run(_) =>
        match s.pcs[t]
        case Insert(_) => InsertQueue(s, t);
        case Acquire(_) => TokenQueue(s, t);
        case Erase(_) => EraseQueue(s, t);
        case _ => if signals { SignalStep(s, t); } else { PopQueue(s, t); }
    }
  }

  lemma ListKept(s: State, a: Action)
    requires Inv(s) && Enabled(s, a)
    ensures forall x :: x in Next(s, a).list ==> x in s.list || (a.Run? && s.pcs[a.t] == Insert(x))
  {
    if a.Run? && s.pcs[a.t].Erase? && s.pcs[a.t].k in s.list {
      var n := NodeOf(s.list, s.pcs[a.t].k);
      assert forall x :: x in Without(s.list, s.pcs[a.t].k) ==> x in s.list[..n] || x in s.list[n + 1..];
    }
  }

  /** Every step that does not stop the run keeps the invariant. */
  lemma InvKept(s: State, a: Action)
    requires Inv(s) && Enabled(s, a) && Next(s, a).halt.Running?
    ensures Inv(Next(s, a))
  {
    var s' := Next(s, a);
    StepLocal(s, a);
    LocalKeeps(s, a.t, s');
    QueueKept(s, a);
    ListKept(s, a);
    forall t | t in s'.pcs && Ticket(s'.pcs[t]).Some? ensures Ticket(s'.pcs[t]).value < |s'.sems| {
      assert OwnAt(s', t);
    }
    forall i | 0 <= i < |s'.list| ensures s'.list[i] < |s'.sems| {
      assert s'.list[i] in s'.list;
    }
  }
}
