/**
 The condition variable as a transition system over any number of threads.

 One step is one kernel call or one change of the list `m_wait`, and it belongs to
 one thread, so a run is an arbitrary interleaving.  `u` is the caller's mutex and
 `m` the mutex inside the condition variable.  Every call of `wait_for_usec` builds
 a binary semaphore on its stack; semaphores are numbered in the order they are
 built and numbers are never reused, so a pointer left in the list after its
 semaphore is gone stays recognisable.
 */
module CvProtocol {
  import opened Options

  type Tid = nat

  /** How long a wait may last.  `Untimed` is `wait` as intended: it never times out. */
  datatype Limit = Untimed | Usec(n: int)

  /** History of one wait call; no step ever tests it. */
  datatype Stage =
    | Fresh     // semaphore built, not in the list yet
    | Listed    // in the list, caller's mutex not released yet
    | Blocked   // caller's mutex released, no token taken and no timeout yet
    | Woken     // took a token
    | TimedOut  // acquire timed out, node not erased yet
    | Erased    // timed out and erased its own node
    | Threw     // acquire threw on a negative duration

  datatype Sem = Sem(owner: Tid, limit: Limit, count: nat, alive: bool, stage: Stage)

  /** The next step of a thread; the line numbers are those of src/ConditionVariable.cpp. */
  datatype Pc =
    | Idle                      // in user code
    | TakeM(k: nat)             // 68: semaphore k built
    | Insert(k: nat)            // 69
    | DropM(k: nat)             // 70
    | DropU(k: nat)             // 72
    | Acquire(k: nat)           // 73
    | RetakeU(k: nat, ok: bool) // 74
    | EraseTakeM(k: nat)        // 78
    | Erase(k: nat)             // 79
    | EraseDropM(k: nat)        // 81, end of the inner scope
    | Return(k: nat, ok: bool)  // 80 or 83: the semaphore is destroyed
    | OneTakeM                  // 37
    | OneSignal                 // 38-40
    | OnePop                    // 41
    | AllTakeM                  // 47
    | AllSignal(i: nat)         // 48-51: i nodes signalled so far
    | NotifyDropM               // 43 or 52

  /** Why the run has stopped, if it has. */
  datatype Halt =
    | Running
    | Terminated(t: Tid)      // 62-63: wait without owning the lock
    | StaleErase(k: nat)      // 79: the iterator points to a node that is gone
    | DeadRelease(k: nat)     // 40, 49: release of a destroyed semaphore
    | Overflow(k: nat)        // 40, 49: release of a semaphore already holding its token

  datatype State = State(
    u: Option<Tid>,
    m: Option<Tid>,
    list: seq<nat>,
    sems: seq<Sem>,
    pcs: map<Tid, Pc>,
    issued: seq<nat>,         // history: semaphores released so far, in order
    halt: Halt)

  datatype Action =
    | UserLock(t: Tid)
    | UserUnlock(t: Tid)
    | CallWait(t: Tid, limit: Limit)
    | CallNotifyOne(t: Tid)
    | CallNotifyAll(t: Tid)
    | Run(t: Tid)             // the thread makes the step its Pc names
    | Expire(t: Tid)          // the thread's acquire times out

  function Ticket(pc: Pc): Option<nat> {
    match pc
    case TakeM(k) => Some(k)
    case Insert(k) => Some(k)
    case DropM(k) => Some(k)
    case DropU(k) => Some(k)
    case Acquire(k) => Some(k)
    case RetakeU(k, _) => Some(k)
    case EraseTakeM(k) => Some(k)
    case Erase(k) => Some(k)
    case EraseDropM(k) => Some(k)
    case Return(k, _) => Some(k)
    case _ => None
  }

  /** Every ticket in use names a semaphore that was built. */
  predicate WellFormed(s: State) {
    && (forall t :: t in s.pcs && Ticket(s.pcs[t]).Some? ==> Ticket(s.pcs[t]).value < |s.sems|)
    && (forall i :: 0 <= i < |s.list| ==> s.list[i] < |s.sems|)
  }

  ghost predicate Init(s: State) {
    && s.u.None? && s.m.None?
    && s.list == [] && s.sems == [] && s.issued == []
    && s.halt.Running?
    && forall t :: t in s.pcs ==> s.pcs[t].Idle?
  }

  /** Mutex acquires block while the mutex is taken, the semaphore acquire while it is empty. */
  predicate CanRun(s: State, t: Tid)
    requires WellFormed(s) && t in s.pcs
  {
    match s.pcs[t]
    case Idle => false
    case TakeM(_) => s.m.None?
    case EraseTakeM(_) => s.m.None?
    case OneTakeM => s.m.None?
    case AllTakeM => s.m.None?
    case RetakeU(_, _) => s.u.None?
    case Acquire(k) => Negative(s.sems[k].limit) || s.sems[k].count > 0
    case _ => true
  }

  predicate Negative(limit: Limit) {
    limit.Usec? && limit.n < 0
  }

  predicate CanExpire(s: State, t: Tid)
    requires WellFormed(s) && t in s.pcs
  {
    s.pcs[t].Acquire? &&
    var sem := s.sems[s.pcs[t].k];
    sem.limit.Usec? && sem.limit.n >= 0 && sem.count == 0
  }

  predicate Enabled(s: State, a: Action)
    requires WellFormed(s)
  {
    s.halt.Running? && a.t in s.pcs &&
    match a
    case UserLock(t) => s.pcs[t].Idle? && s.u.None?
    case UserUnlock(t) => s.pcs[t].Idle? && s.u == Some(t)
    case CallWait(t, _) => s.pcs[t].Idle?
    case CallNotifyOne(t) => s.pcs[t].Idle?
    case CallNotifyAll(t) => s.pcs[t].Idle?
    case Run(t) => CanRun(s, t)
    case Expire(t) => CanExpire(s, t)
  }

  function Goto(s: State, t: Tid, pc: Pc): State {
    s.(pcs := s.pcs[t := pc])
  }

  /** `osSemaphoreRelease` on the semaphore a list node points to. */
  function Signal(s: State, k: nat): State
    requires k < |s.sems|
  {
    if !s.sems[k].alive then s.(halt := DeadRelease(k))
    else if s.sems[k].count > 0 then s.(halt := Overflow(k))
    else s.(sems := s.sems[k := s.sems[k].(count := 1)], issued := s.issued + [k])
  }

  /** The position of the node of semaphore `k`. */
  function NodeOf(list: seq<nat>, k: nat): (i: nat)
    requires k in list
    ensures i < |list| && list[i] == k
  {
    if list[0] == k then 0 else 1 + NodeOf(list[1..], k)
  }

  /** The list after `erase` of the node of semaphore `k`. */
  function Without(list: seq<nat>, k: nat): seq<nat>
    requires k in list
  {
    list[..NodeOf(list, k)] + list[NodeOf(list, k) + 1..]
  }

  function Mark(s: State, k: nat, stage: Stage): State
    requires k < |s.sems|
  {
    s.(sems := s.sems[k := s.sems[k].(stage := stage)])
  }

  function Destroy(s: State, k: nat): State
    requires k < |s.sems|
  {
    s.(sems := s.sems[k := s.sems[k].(alive := false)])
  }

  /** One step of a thread inside a wait call. */
  function NextWait(s: State, t: Tid): State
    requires WellFormed(s) && t in s.pcs && CanRun(s, t) && Ticket(s.pcs[t]).Some?
  {
    match s.pcs[t]
    case TakeM(k) => Goto(s.(m := Some(t)), t, Insert(k))
    case Insert(k) => Goto(Mark(s.(list := s.list + [k]), k, Listed), t, DropM(k))
    case DropM(k) => Goto(s.(m := None), t, DropU(k))
    case DropU(k) => Goto(Mark(s.(u := None), k, Blocked), t, Acquire(k))
    case Acquire(k) =>
      if Negative(s.sems[k].limit) then
        Goto(Destroy(Mark(s, k, Threw), k), t, Idle)
      else
        var sem := s.sems[k];
        Goto(s.(sems := s.sems[k := sem.(count := sem.count - 1, stage := Woken)]), t, RetakeU(k, true))
    case RetakeU(k, ok) => Goto(s.(u := Some(t)), t, if ok then Return(k, true) else EraseTakeM(k))
    case EraseTakeM(k) => Goto(s.(m := Some(t)), t, Erase(k))
    case Erase(k) =>
      if k in s.list then
        Goto(Mark(s.(list := Without(s.list, k)), k, Erased), t, EraseDropM(k))
      else
        s.(halt := StaleErase(k))
    case EraseDropM(k) => Goto(s.(m := None), t, Return(k, false))
    case Return(k, _) => Goto(Destroy(s, k), t, Idle)
  }

  /** One step of a thread inside `notify_one` or `notify_all`. */
  function NextNotify(s: State, t: Tid): State
    requires WellFormed(s) && t in s.pcs && CanRun(s, t) && Ticket(s.pcs[t]).None?
  {
    match s.pcs[t]
    case OneTakeM => Goto(s.(m := Some(t)), t, OneSignal)
    case OneSignal =>
      if s.list == [] then Goto(s, t, NotifyDropM) else Goto(Signal(s, s.list[0]), t, OnePop)
    case OnePop => Goto(s.(list := if s.list == [] then [] else s.list[1..]), t, NotifyDropM)
    case AllTakeM => Goto(s.(m := Some(t)), t, AllSignal(0))
    case AllSignal(i) =>
      if i < |s.list| then Goto(Signal(s, s.list[i]), t, AllSignal(i + 1))
      else Goto(s.(list := []), t, NotifyDropM)
    case NotifyDropM => Goto(s.(m := None), t, Idle)
  }

  function Next(s: State, a: Action): State
    requires WellFormed(s) && Enabled(s, a)
  {
    match a
    case UserLock(t) => s.(u := Some(t))
    case UserUnlock(t) => s.(u := None)
    case CallWait(t, limit) =>
      if s.u != Some(t) then s.(halt := Terminated(t))
      else Goto(s.(sems := s.sems + [Sem(t, limit, 0, true, Fresh)]), t, TakeM(|s.sems|))
    case CallNotifyOne(t) => Goto(s, t, OneTakeM)
    case CallNotifyAll(t) => Goto(s, t, AllTakeM)
    case Run(t) => if Ticket(s.pcs[t]).Some? then NextWait(s, t) else NextNotify(s, t)
    case Expire(t) =>
      var k := s.pcs[t].k;
      Goto(Mark(s, k, TimedOut), t, RetakeU(k, false))
  }
}
