/** `dispatch`: the kernel scheduler lock with the previous state saved in the locking object. */
module Dispatch {
  const OS_ERROR: int := -1

  /** The scheduler lock.  A kernel that is not running refuses to lock. */
  class Kernel {
    var running: bool
    var locked: bool

    /** `osKernelLock`: the previous state, or an error. */
    method OsLock() returns (previous: int)
      modifies this`locked
      ensures running ==> locked && previous == if old(locked) then 1 else 0
      ensures !running ==> locked == old(locked) && previous == OS_ERROR
    {
      if !running {
        return OS_ERROR;
      }
      previous := if locked then 1 else 0;
      locked := true;
    }

    /** `osKernelRestoreLock`: the new state, or an error. */
    method OsRestoreLock(lock: int) returns (state: int)
      modifies this`locked
      ensures running ==> locked == (lock == 1) && state == if lock == 1 then 1 else 0
      ensures !running ==> locked == old(locked) && state == OS_ERROR
    {
      if !running {
        return OS_ERROR;
      }
      locked := lock == 1;
      state := if locked then 1 else 0;
    }
  }

  class Dispatch {
    const kernel: Kernel
    var previous: int    // m_previous_lock_state

    constructor (kernel: Kernel)
      ensures this.kernel == kernel && previous == OS_ERROR
    {
      this.kernel, previous := kernel, OS_ERROR;
    }

    /** `lock`; it throws if the kernel refuses. */
    method Lock() returns (ok: bool)
      modifies this, kernel
      ensures kernel.running == old(kernel.running) && ok == kernel.running
      ensures ok ==> kernel.locked && previous == if old(kernel.locked) then 1 else 0
      ensures !ok ==> kernel.locked == old(kernel.locked) && previous == OS_ERROR
    {
      previous := kernel.OsLock();
      ok := previous >= 0;
    }

    /** `unlock`; it throws if this object never locked, or if the kernel refuses. */
    method Unlock() returns (ok: bool)
      modifies this, kernel
      ensures kernel.running == old(kernel.running) && (ok <==> old(previous) >= 0 && kernel.running)
      ensures ok ==> kernel.locked == (old(previous) == 1) && previous == if kernel.locked then 1 else 0
      ensures !ok ==> kernel.locked == old(kernel.locked) && previous < 0
    {
      if previous < 0 {
        return false;
      }
      previous := kernel.OsRestoreLock(previous);
      ok := previous >= 0;
    }
  }

  // ---- Nested and sequenced scopes -----------------------------------------------------

  /** A program that locks and unlocks through scopes; `Probe` stands for any code that is run. */
  datatype Prog =
    | Skip
    | Probe
    | Seq(first: Prog, second: Prog)
    | Scope(obj: nat, body: Prog)

  /** The lock, and the saved state of each dispatch object. */
  datatype World = World(locked: bool, saved: seq<int>)

  predicate Fits(p: Prog, n: nat) {
    match p
    case Seq(first, second) => Fits(first, n) && Fits(second, n)
    case Scope(obj, body) => obj < n && Fits(body, n)
    case _ => true
  }

  function Enter(w: World, obj: nat): World
    requires obj < |w.saved|
  {
    World(true, w.saved[obj := if w.locked then 1 else 0])
  }

  function Exit(w: World, obj: nat): World
    requires obj < |w.saved|
  {
    World(w.saved[obj] == 1, w.saved[obj := if w.saved[obj] == 1 then 1 else 0])
  }

  function Exec(p: Prog, w: World): (w': World)
    requires Fits(p, |w.saved|)
    ensures |w'.saved| == |w.saved|
  {
    match p
    case Seq(first, second) => Exec(second, Exec(first, w))
    case Scope(obj, body) => Exit(Exec(body, Enter(w, obj)), obj)
    case _ => w
  }

  /** What each probe finds. */
  function Probes(p: Prog, w: World): seq<bool>
    requires Fits(p, |w.saved|)
  {
    match p
    case Skip => []
    case Probe => [w.locked]
    case Seq(first, second) => Probes(first, w) + Probes(second, Exec(first, w))
    case Scope(obj, body) => Probes(body, Enter(w, obj))
  }

  predicate Mentions(p: Prog, obj: nat) {
    match p
    case Seq(first, second) => Mentions(first, obj) || Mentions(second, obj)
    case Scope(o, body) => o == obj || Mentions(body, obj)
    case _ => false
  }

  /** Entered locked, a program stays locked all through, and each object it uses ends up saving "locked". */
  lemma {:induction false} FromLocked(p: Prog, w: World, obj: nat)
    requires w.locked && Fits(p, |w.saved|) && obj < |w.saved|
    ensures Exec(p, w).locked
    ensures Exec(p, w).saved[obj] == if Mentions(p, obj) then 1 else w.saved[obj]
    ensures forall x :: x in Probes(p, w) ==> x
  {
    match p
    case Seq(first, second) =>
      FromLocked(first, w, obj);
      FromLocked(second, Exec(first, w), obj);
    case Scope(o, body) =>
      FromLocked(body, Enter(w, o), o);
      FromLocked(body, Enter(w, o), obj);
    case _ =>
  }

  /** No outermost scope locks its own object again inside its body. */
  predicate OuterScopesClean(p: Prog) {
    match p
    case Seq(first, second) => OuterScopesClean(first) && OuterScopesClean(second)
    case Scope(obj, body) => !Mentions(body, obj)
    case _ => true
  }

  /** From an unlocked kernel the lock is given back exactly if no outermost scope's object is locked again inside it. */
  lemma {:induction false} RestoredExactly(p: Prog, w: World)
    requires !w.locked && Fits(p, |w.saved|)
    ensures !Exec(p, w).locked <==> OuterScopesClean(p)
  {
    match p
    case Seq(first, second) =>
      RestoredExactly(first, w);
      var w1 := Exec(first, w);
      if w1.locked {
        StaysLocked(second, w1);
      } else {
        RestoredExactly(second, w1);
      }
    case Scope(obj, body) => FromLocked(body, Enter(w, obj), obj);
    case _ =>
  }

  lemma StaysLocked(p: Prog, w: World)
    requires w.locked && Fits(p, |w.saved|)
    ensures Exec(p, w).locked
  {
    if w.saved != [] {
      FromLocked(p, w, 0);
    } else {
      NoObjects(p, w);
    }
  }

  lemma {:induction false} NoObjects(p: Prog, w: World)
    requires w.saved == [] && Fits(p, 0)
    ensures Exec(p, w) == w
  {
    if p.Seq? {
      NoObjects(p.first, w);
      NoObjects(p.second, w);
    }
  }

  /** The objects on every chain of enclosing scopes are distinct. */
  predicate ChainsDistinct(p: Prog, enclosing: set<nat>) {
    match p
    case Seq(first, second) => ChainsDistinct(first, enclosing) && ChainsDistinct(second, enclosing)
    case Scope(obj, body) => obj !in enclosing && ChainsDistinct(body, enclosing + {obj})
    case _ => true
  }

  lemma {:induction false} ChainsAvoid(p: Prog, enclosing: set<nat>, obj: nat)
    requires ChainsDistinct(p, enclosing) && obj in enclosing
    ensures !Mentions(p, obj)
  {
    match p
    case Seq(first, second) =>
      ChainsAvoid(first, enclosing, obj);
      ChainsAvoid(second, enclosing, obj);
    case Scope(o, body) => ChainsAvoid(body, enclosing + {o}, obj);
    case _ =>
  }

  lemma {:induction false} ChainsAreClean(p: Prog)
    requires ChainsDistinct(p, {})
    ensures OuterScopesClean(p)
  {
    match p
    case Seq(first, second) =>
      ChainsAreClean(first);
      ChainsAreClean(second);
    case Scope(obj, body) => ChainsAvoid(body, {} + {obj}, obj);
    case _ =>
  }

  /** Scopes whose enclosing objects are distinct give back the lock state they found, whatever it was. */
  lemma DistinctChainsRestore(p: Prog, w: World)
    requires Fits(p, |w.saved|) && ChainsDistinct(p, {})
    ensures Exec(p, w).locked == w.locked
  {
    ChainsAreClean(p);
    if w.locked { StaysLocked(p, w); } else { RestoredExactly(p, w); }
  }

  /** Inside any scope, however nested and from whatever state, the kernel is locked. */
  lemma LockedThroughoutScope(obj: nat, body: Prog, w: World)
    requires Fits(Scope(obj, body), |w.saved|)
    ensures forall x :: x in Probes(Scope(obj, body), w) ==> x
  {
    FromLocked(body, Enter(w, obj), obj);
  }

  /** For each probe, whether it is inside a scope. */
  function InsideScope(p: Prog, inside: bool): seq<bool> {
    match p
    case Skip => []
    case Probe => [inside]
    case Seq(first, second) => InsideScope(first, inside) + InsideScope(second, inside)
    case Scope(_, body) => InsideScope(body, true)
  }

  lemma {:induction false} AllInside(p: Prog)
    ensures forall x :: x in InsideScope(p, true) ==> x
  {
    match p
    case Seq(first, second) =>
      AllInside(first);
      AllInside(second);
    case Scope(_, body) => AllInside(body);
    case _ =>
  }

  /** Where the lock is always given back, a probe finds it exactly if it is inside a scope. */
  lemma {:induction false} LockedExactlyInside(p: Prog, w: World)
    requires !w.locked && Fits(p, |w.saved|) && OuterScopesClean(p)
    ensures Probes(p, w) == InsideScope(p, false)
  {
    match p
    case Seq(first, second) =>
      RestoredExactly(first, w);
      LockedExactlyInside(first, w);
      LockedExactlyInside(second, Exec(first, w));
    case Scope(obj, body) =>
      LockedThroughoutScope(obj, body, w);
      AllInside(body);
      SameLength(body, Enter(w, obj), true);
      AllTrue(Probes(p, w), InsideScope(p, false));
    case _ =>
  }

  lemma AllTrue(a: seq<bool>, b: seq<bool>)
    requires |a| == |b| && (forall x :: x in a ==> x) && (forall x :: x in b ==> x)
    ensures a == b
  {
    forall i | 0 <= i < |a| ensures a[i] == b[i] {
      assert a[i] in a && b[i] in b;
    }
  }

  lemma {:induction false} SameLength(p: Prog, w: World, inside: bool)
    requires Fits(p, |w.saved|)
    ensures |Probes(p, w)| == |InsideScope(p, inside)|
  {
    match p
    case Seq(first, second) =>
      SameLength(first, w, inside);
      SameLength(second, Exec(first, w), inside);
    case Scope(obj, body) => SameLength(body, Enter(w, obj), true);
    case _ =>
  }

  // ---- The same programs on the objects ------------------------------------------------

  class Program {
    const kernel: Kernel
    const objs: seq<Dispatch>

    constructor (kernel: Kernel, objs: seq<Dispatch>)
      ensures this.kernel == kernel && this.objs == objs
    {
      this.kernel, this.objs := kernel, objs;
    }

    ghost predicate Valid()
      reads objs, kernel
    {
      && kernel.running
      && (forall i :: 0 <= i < |objs| ==> objs[i].kernel == kernel)
      && (forall i, j :: 0 <= i < j < |objs| ==> objs[i] != objs[j])
    }

    function View(): World
      reads objs, kernel
    {
      World(kernel.locked, seq(|objs|, i requires 0 <= i < |objs| reads objs => objs[i].previous))
    }

    /** Runs `p` with `lock` and `unlock` of the objects; nothing throws. */
    method Execute(p: Prog) returns (probes: seq<bool>)
      requires Valid() && Fits(p, |objs|)
      modifies kernel, objs
      ensures Valid() && View() == Exec(p, old(View()))
      ensures probes == Probes(p, old(View()))
      decreases p
    {
      ghost var w := View();
      match p
      case Skip => probes := [];
      case Probe => probes := [kernel.locked];
      case Seq(first, second) =>
        probes := Execute(first);
        var more := Execute(second);
        probes := probes + more;
      case Scope(obj, body) =>
        var ok := objs[obj].Lock();
        assert View() == Enter(w, obj);
        probes := Execute(body);
        SavedNonNegative(body, Enter(w, obj), obj);
        ghost var w2 := View();
        ok := objs[obj].Unlock();
        assert View() == Exit(w2, obj);
    }
  }

  lemma SavedNonNegative(p: Prog, w: World, obj: nat)
    requires w.locked && Fits(p, |w.saved|) && obj < |w.saved| && w.saved[obj] >= 0
    ensures Exec(p, w).saved[obj] >= 0
  {
    FromLocked(p, w, obj);
  }
}
