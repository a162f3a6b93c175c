/** `thread` and `thread_impl`: who owns a kernel thread, and who may still join it. */
module Thread {
  import opened Options

  /** How a call on a `thread` ends. */
  datatype Outcome =
    | Done
    | InvalidArgument    // join or detach of a thread that is not joinable
    | WouldDeadlock      // join from the thread itself
    | SystemError        // the kernel refused
    | Terminated         // std::terminate

  class ThreadImpl {
    var detached: bool         // m_detached: joined or detached
    var alive: bool            // the kernel thread has not been terminated by the destructor

    constructor ()
      ensures !detached && alive
    {
      detached, alive := false, true;
    }

    /** `join` or `detach`, with the kernel's answer. */
    method Claim(kernelOk: bool) returns (r: Outcome)
      modifies this`detached
      ensures kernelOk ==> r.Done? && detached
      ensures !kernelOk ==> r.SystemError? && detached == old(detached)
    {
      if !kernelOk {
        return SystemError;
      }
      detached := true;
      r := Done;
    }

    /** The destructor: `osThreadTerminate`. */
    method Destroy()
      modifies this`alive
      ensures !alive
    {
      alive := false;
    }
  }

  class Thread {
    var impl: ThreadImpl?    // m_pThread

    constructor (impl: ThreadImpl?)
      ensures this.impl == impl
    {
      this.impl := impl;
    }

    /** The `thread_impl` this thread owns, if any. */
    function Held(): set<ThreadImpl>
      reads this
    {
      if impl == null then {} else {impl}
    }

    predicate Joinable()
      reads this, impl
    {
      impl != null && !impl.detached
    }

    method Join(fromItself: bool, kernelOk: bool) returns (r: Outcome)
      modifies Held()`detached
      ensures !old(Joinable()) ==> r.InvalidArgument?
      ensures old(Joinable()) && fromItself ==> r.WouldDeadlock?
      ensures old(Joinable()) && !fromItself ==> r == if kernelOk then Done else SystemError
      ensures r.Done? ==> impl != null && impl.detached
      ensures !r.Done? && impl != null ==> impl.detached == old(impl.detached)
    {
      if !Joinable() { return InvalidArgument; }
      if fromItself { return WouldDeadlock; }
      r := impl.Claim(kernelOk);
    }

    method Detach(kernelOk: bool) returns (r: Outcome)
      modifies Held()`detached
      ensures r == if !old(Joinable()) then InvalidArgument else if kernelOk then Done else SystemError
      ensures r.Done? ==> impl != null && impl.detached
      ensures !r.Done? && impl != null ==> impl.detached == old(impl.detached)
    {
      if !Joinable() { return InvalidArgument; }
      r := impl.Claim(kernelOk);
    }

    method Swap(other: Thread)
      modifies this`impl, other`impl
      ensures impl == old(other.impl) && other.impl == old(impl)
    {
      var mine := impl;
      impl := other.impl;
      other.impl := mine;
    }

    /** `operator=(thread&&)`: it swaps, so the source gets what this thread had. */
    method MoveAssign(other: Thread) returns (r: Outcome)
      modifies this`impl, other`impl
      ensures r == if old(Joinable()) then Terminated else Done
      ensures r.Done? ==> impl == old(other.impl) && other.impl == old(impl)
      ensures r.Terminated? ==> impl == old(impl) && other.impl == old(other.impl)
    {
      if Joinable() { return Terminated; }
      Swap(other);
      r := Done;
    }

    /** The destructor, which destroys the `thread_impl` it owns. */
    method Destroy() returns (r: Outcome)
      modifies this`impl, Held()`alive
      ensures r == if old(Joinable()) then Terminated else Done
      ensures r.Done? ==> impl == null && (old(impl) != null ==> !old(impl).alive)
      ensures r.Terminated? ==> impl == old(impl) && impl != null && impl.alive == old(impl.alive)
    {
      if Joinable() { return Terminated; }
      if impl != null { impl.Destroy(); }
      impl := null;
      r := Done;
    }
  }

  // ---- Programs on values --------------------------------------------------------------

  datatype Op =
    | Default
    | Spawn
    | MoveConstruct(src: nat)
    | MoveAssign(dst: nat, src: nat)
    | Swap(a: nat, b: nat)
    | Join(h: nat, fromItself: bool, kernelOk: bool)
    | Detach(h: nat, kernelOk: bool)
    | Destroy(h: nat)

  datatype Status = Status(detached: bool, alive: bool)

  /** Which `thread_impl` each `thread` owns, and the state of every `thread_impl` ever made. */
  datatype Threads = Threads(held: seq<Option<nat>>, impls: seq<Status>, terminated: bool)

  predicate IsJoinable(s: Threads, h: nat) {
    h < |s.held| && s.held[h].Some? && s.held[h].value < |s.impls| && !s.impls[s.held[h].value].detached
  }

  function Exchange(s: Threads, a: nat, b: nat): Threads
    requires a < |s.held| && b < |s.held|
  {
    s.(held := s.held[a := s.held[b]][b := s.held[a]])
  }

  /** A successful join or detach through `thread` `h`. */
  function Claimed(s: Threads, h: nat): Threads
    requires IsJoinable(s, h)
  {
    var k := s.held[h].value;
    s.(impls := s.impls[k := s.impls[k].(detached := true)])
  }

  /** `thread` `h` and what it owns are gone. */
  function Dropped(s: Threads, h: nat): Threads
    requires h < |s.held|
  {
    var gone := s.(held := s.held[h := None]);
    match s.held[h]
    case None => gone
    case Some(k) => if k < |s.impls| then gone.(impls := s.impls[k := s.impls[k].(alive := false)]) else gone
  }

  /** One operation; an operation on a `thread` that does not exist is none. */
  function Call(s: Threads, op: Op): (Threads, Outcome) {
    match op
    case Default => (s.(held := s.held + [None]), Done)
    case Spawn => (s.(held := s.held + [Some(|s.impls|)], impls := s.impls + [Status(false, true)]), Done)
    case MoveConstruct(src) =>
      (if src < |s.held| then s.(held := s.held[src := None] + [s.held[src]]) else s, Done)
    case MoveAssign(dst, src) =>
      if dst >= |s.held| || src >= |s.held| then (s, Done)
      else if IsJoinable(s, dst) then (s.(terminated := true), Terminated)
      else (Exchange(s, dst, src), Done)
    case Swap(a, b) => (if a < |s.held| && b < |s.held| then Exchange(s, a, b) else s, Done)
    case Join(h, fromItself, kernelOk) =>
      if h >= |s.held| then (s, Done)
      else if !IsJoinable(s, h) then (s, InvalidArgument)
      else if fromItself then (s, WouldDeadlock)
      else if !kernelOk then (s, SystemError)
      else (Claimed(s, h), Done)
    case Detach(h, kernelOk) =>
      if h >= |s.held| then (s, Done)
      else if !IsJoinable(s, h) then (s, InvalidArgument)
      else if !kernelOk then (s, SystemError)
      else (Claimed(s, h), Done)
    case Destroy(h) =>
      if h >= |s.held| then (s, Done)
      else if IsJoinable(s, h) then (s.(terminated := true), Terminated)
      else (Dropped(s, h), Done)
  }

  /** The state after a program, which goes no further than `std::terminate`. */
  function After(s: Threads, ops: seq<Op>): Threads {
    if ops == [] then s
    else
      var before := After(s, ops[..|ops| - 1]);
      if before.terminated then before else Call(before, ops[|ops| - 1]).0
  }

  function Outcomes(s: Threads, ops: seq<Op>): seq<Outcome> {
    if ops == [] then []
    else
      var init := ops[..|ops| - 1];
      var before := After(s, init);
      Outcomes(s, init) + if before.terminated then [] else [Call(before, ops[|ops| - 1]).1]
  }

  /** Each `thread_impl` has one owner until it is destroyed, and is destroyed only when it is no longer joinable. */
  ghost predicate Sound(s: Threads) {
    && (forall i, j :: 0 <= i < j < |s.held| && s.held[i].Some? ==> s.held[i] != s.held[j])
    && (forall i :: 0 <= i < |s.held| && s.held[i].Some? ==> s.held[i].value < |s.impls|)
    && (forall k :: 0 <= k < |s.impls| ==> (s.impls[k].alive <==> Some(k) in s.held))
    && (forall k :: 0 <= k < |s.impls| ==> s.impls[k].alive || s.impls[k].detached)
  }

  lemma ExchangeSound(s: Threads, a: nat, b: nat)
    requires Sound(s) && a < |s.held| && b < |s.held|
    ensures Sound(Exchange(s, a, b))
  {
    var held := Exchange(s, a, b).held;
    forall x ensures x in held <==> x in s.held {
      if x in s.held {
        var i :| 0 <= i < |held| && s.held[i] == x;
        assert held[if i == a then b else if i == b then a else i] == x;
      }
    }
  }

  lemma DropSound(s: Threads, h: nat)
    requires Sound(s) && h < |s.held| && !IsJoinable(s, h)
    ensures Sound(Dropped(s, h))
  {
    var held := Dropped(s, h).held;
    forall x: Option<nat> | x.Some? ensures x in held <==> x in s.held && x != s.held[h] {
      if x in s.held && x != s.held[h] {
        var i :| 0 <= i < |held| && s.held[i] == x;
        assert held[i] == x;
      }
    }
    if s.held[h].Some? { assert s.held[h] in s.held; }
  }

  lemma MoveSound(s: Threads, src: nat)
    requires Sound(s) && src < |s.held|
    ensures Sound(Call(s, MoveConstruct(src)).0)
  {
    var held := Call(s, MoveConstruct(src)).0.held;
    forall x: Option<nat> | x.Some? ensures x in held <==> x in s.held {
      if x in s.held {
        var i :| 0 <= i < |s.held| && s.held[i] == x;
        assert held[if i == src then |s.held| else i] == x;
      }
    }
  }

  lemma SpawnSound(s: Threads)
    requires Sound(s)
    ensures Sound(Call(s, Spawn).0)
  {
    var n := |s.impls|;
    assert Some(n) !in s.held;
    assert forall k: nat :: Some(k) in s.held + [Some(n)] <==> Some(k) in s.held || k == n;
  }

  lemma DefaultSound(s: Threads)
    requires Sound(s)
    ensures Sound(Call(s, Default).0)
  {
    assert forall k: nat :: Some(k) in s.held + [None] <==> Some(k) in s.held;
  }

  lemma ClaimSound(s: Threads, h: nat)
    requires Sound(s) && IsJoinable(s, h)
    ensures Sound(Claimed(s, h))
  {}

  lemma CallSound(s: Threads, op: Op)
    requires Sound(s)
    ensures Sound(Call(s, op).0)
  {
    match op
    case MoveConstruct(src) => if src < |s.held| { MoveSound(s, src); }
    case MoveAssign(dst, src) =>
      if dst < |s.held| && src < |s.held| && !IsJoinable(s, dst) { ExchangeSound(s, dst, src); }
    case Swap(a, b) => if a < |s.held| && b < |s.held| { ExchangeSound(s, a, b); }
    case Default => DefaultSound(s);
    case Spawn => SpawnSound(s);
    case Join(h, fromItself, kernelOk) => if IsJoinable(s, h) { ClaimSound(s, h); }
    case Detach(h, kernelOk) => if IsJoinable(s, h) { ClaimSound(s, h); }
    case Destroy(h) => if h < |s.held| && !IsJoinable(s, h) { DropSound(s, h); }
  }

  lemma {:induction false} RunSound(s: Threads, ops: seq<Op>)
    requires Sound(s)
    ensures Sound(After(s, ops))
  {
    if ops != [] {
      RunSound(s, ops[..|ops| - 1]);
      CallSound(After(s, ops[..|ops| - 1]), ops[|ops| - 1]);
    }
  }

  // ---- What a program does to one thread_impl ------------------------------------------

  /** Call `op` is a successful join or detach of `k`. */
  predicate Claims(s: Threads, op: Op, k: nat) {
    && !s.terminated && (op.Join? || op.Detach?)
    && op.h < |s.held| && s.held[op.h] == Some(k) && Call(s, op).1.Done?
  }

  /** Call `op` is the destruction of the `thread` that owns `k`, which is no longer joinable. */
  predicate Destroys(s: Threads, op: Op, k: nat) {
    && !s.terminated && op.Destroy?
    && op.h < |s.held| && s.held[op.h] == Some(k) && k < |s.impls| && s.impls[k].detached
  }

  ghost predicate ClaimsAt(s: Threads, ops: seq<Op>, i: nat, k: nat) {
    i < |ops| && Claims(After(s, ops[..i]), ops[i], k)
  }

  ghost predicate DestroysAt(s: Threads, ops: seq<Op>, i: nat, k: nat) {
    i < |ops| && Destroys(After(s, ops[..i]), ops[i], k)
  }

  predicate IsClaimed(s: Threads, k: nat) {
    k < |s.impls| && s.impls[k].detached
  }

  predicate IsDead(s: Threads, k: nat) {
    k < |s.impls| && !s.impls[k].alive
  }

  lemma CallEffect(s: Threads, op: Op, k: nat)
    requires Sound(s) && !s.terminated
    ensures IsClaimed(Call(s, op).0, k) <==> IsClaimed(s, k) || Claims(s, op, k)
    ensures IsDead(Call(s, op).0, k) <==> IsDead(s, k) || Destroys(s, op, k)
  {}

  /** Over any program, joinability is lost exactly by a successful join or detach. */
  lemma {:induction false} ClaimedExactly(s: Threads, ops: seq<Op>, k: nat)
    requires Sound(s)
    ensures IsClaimed(After(s, ops), k) <==> IsClaimed(s, k) || exists i: nat :: ClaimsAt(s, ops, i, k)
  {
    if ops != [] {
      var n := |ops| - 1;
      var init := ops[..n];
      var before := After(s, init);
      ClaimedExactly(s, init, k);
      RunSound(s, init);
      if !before.terminated { CallEffect(before, ops[n], k); }
      forall i: nat ensures ClaimsAt(s, ops, i, k) <==> ClaimsAt(s, init, i, k) || (i == n && Claims(before, ops[n], k)) {
        assert i < n ==> init[..i] == ops[..i];
      }
      assert ClaimsAt(s, ops, n, k) <==> Claims(before, ops[n], k);
    }
  }

  /** At most one join or detach ever succeeds for a `thread_impl`. */
  lemma ClaimedOnce(s: Threads, ops: seq<Op>, i: nat, j: nat, k: nat)
    requires Sound(s) && ClaimsAt(s, ops, i, k) && ClaimsAt(s, ops, j, k)
    ensures i == j && !IsClaimed(s, k)
  {
    ClaimedBefore(s, ops, j, k);
    ClaimedBefore(s, ops, i, k);
  }

  lemma ClaimedBefore(s: Threads, ops: seq<Op>, j: nat, k: nat)
    requires Sound(s) && ClaimsAt(s, ops, j, k)
    ensures !IsClaimed(s, k) && forall i: nat :: i < j ==> !ClaimsAt(s, ops, i, k)
  {
    ClaimedExactly(s, ops[..j], k);
    forall i: nat | i < j ensures ClaimsAt(s, ops[..j], i, k) == ClaimsAt(s, ops, i, k) {
      assert ops[..j][..i] == ops[..i];
    }
  }

  /** Over any program, a kernel thread is terminated exactly by the destruction of its owner, after its join or detach. */
  lemma {:induction false} DeadExactly(s: Threads, ops: seq<Op>, k: nat)
    requires Sound(s)
    ensures IsDead(After(s, ops), k) <==> IsDead(s, k) || exists i: nat :: DestroysAt(s, ops, i, k)
  {
    if ops != [] {
      var n := |ops| - 1;
      var init := ops[..n];
      var before := After(s, init);
      DeadExactly(s, init, k);
      RunSound(s, init);
      if !before.terminated { CallEffect(before, ops[n], k); }
      forall i: nat ensures DestroysAt(s, ops, i, k) <==> DestroysAt(s, init, i, k) || (i == n && Destroys(before, ops[n], k)) {
        assert i < n ==> init[..i] == ops[..i];
      }
      assert DestroysAt(s, ops, n, k) <==> Destroys(before, ops[n], k);
    }
  }

  // ---- Programs ------------------------------------------------------------------------

  /** A program with any number of `thread` objects. */
  class Program {
    var handles: seq<Thread>
    var terminated: bool
    ghost var impls: seq<ThreadImpl>   // every thread_impl ever made
    ghost var model: Threads           // the same as values

    /** The objects are as the values say. */
    ghost predicate Linked()
      reads this, handles, impls
    {
      && model.terminated == terminated
      && |model.held| == |handles| && |model.impls| == |impls|
      && (forall i, j :: 0 <= i < j < |handles| ==> handles[i] != handles[j])
      && (forall i, j :: 0 <= i < j < |impls| ==> impls[i] != impls[j])
      && (forall i :: 0 <= i < |handles| ==> Owns(i, model.held[i]))
      && (forall k :: 0 <= k < |impls| ==> model.impls[k] == Status(impls[k].detached, impls[k].alive))
    }

    ghost predicate Owns(i: nat, held: Option<nat>)
      reads this, handles
      requires i < |handles|
    {
      if held.None? then handles[i].impl == null else held.value < |impls| && handles[i].impl == impls[held.value]
    }

    ghost predicate Valid()
      reads this, handles, impls
    {
      Sound(model) && Linked()
    }

    constructor ()
      ensures Valid() && model == Threads([], [], false)
    {
      handles, terminated, impls, model := [], false, [], Threads([], [], false);
    }

    twostate predicate OnlyFreshAdded()
      reads this
    {
      && (forall i :: 0 <= i < |handles| ==> handles[i] in old(handles) || fresh(handles[i]))
      && (forall k :: 0 <= k < |impls| ==> impls[k] in old(impls) || fresh(impls[k]))
    }

    /** `thread()`. */
    method Construct()
      requires Linked()
      modifies this`handles, this`model
      ensures Linked() && OnlyFreshAdded() && model == Call(old(model), Default).0
      ensures |handles| == |old(handles)| + 1 && handles[..|old(handles)|] == old(handles)
      ensures fresh(handles[|old(handles)|]) && handles[|old(handles)|].impl == null && impls == old(impls)
    {
      var h := new Thread(null);
      handles, model := handles + [h], Call(model, Default).0;
    }

    /** `thread(attr, f)`. */
    method Spawn()
      requires Linked()
      modifies this`handles, this`impls, this`model
      ensures Linked() && OnlyFreshAdded() && model == Call(old(model), Op.Spawn).0
      ensures |handles| == |old(handles)| + 1 && handles[..|old(handles)|] == old(handles)
      ensures fresh(handles[|old(handles)|]) && handles[|old(handles)|].Joinable()
      ensures impls == old(impls) + [handles[|old(handles)|].impl] && fresh(handles[|old(handles)|].impl)
    {
      var impl := new ThreadImpl();
      var h := new Thread(impl);
      handles, impls, model := handles + [h], impls + [impl], Call(model, Op.Spawn).0;
    }

    /** `thread(thread&&)`. */
    method MoveConstruct(src: nat)
      requires Linked() && src < |handles|
      modifies this`handles, this`model, handles`impl
      ensures Linked() && OnlyFreshAdded() && model == Call(old(model), Op.MoveConstruct(src)).0
      ensures |handles| == |old(handles)| + 1 && handles[..|old(handles)|] == old(handles)
      ensures fresh(handles[|old(handles)|]) && handles[|old(handles)|].impl == old(handles[src].impl)
      ensures handles[src].impl == null && impls == old(impls)
      ensures forall i :: 0 <= i < |old(handles)| && i != src ==> handles[i].impl == old(handles[i].impl)
    {
      var h := new Thread(handles[src].impl);
      handles[src].impl := null;
      handles, model := handles + [h], Call(model, Op.MoveConstruct(src)).0;
    }

    /** `a.swap(b)`. */
    method SwapHandles(a: nat, b: nat)
      requires Linked() && a < |handles| && b < |handles|
      modifies this`model, handles`impl
      ensures Linked() && model == Call(old(model), Swap(a, b)).0
      ensures handles[a].impl == old(handles[b].impl) && handles[b].impl == old(handles[a].impl)
      ensures forall i :: 0 <= i < |handles| && i != a && i != b ==> handles[i].impl == old(handles[i].impl)
    {
      handles[a].Swap(handles[b]);
      model := Call(model, Swap(a, b)).0;
    }

    /** `a = std::move(b)`. */
    method Assign(a: nat, b: nat) returns (r: Outcome)
      requires Linked() && a < |handles| && b < |handles|
      modifies this`terminated, this`model, handles`impl
      ensures Linked() && (model, r) == Call(old(model), MoveAssign(a, b))
      ensures r == if old(handles[a].Joinable()) then Terminated else Done
      ensures r.Done? ==> handles[a].impl == old(handles[b].impl) && handles[b].impl == old(handles[a].impl)
      ensures forall i :: 0 <= i < |handles| && i != a && i != b ==> handles[i].impl == old(handles[i].impl)
    {
      assert Owns(a, model.held[a]) && Owns(b, model.held[b]);
      r := handles[a].MoveAssign(handles[b]);
      model := Call(model, MoveAssign(a, b)).0;
      if r.Terminated? {
        terminated := true;
      } else {
        assert Owns(a, model.held[a]) && Owns(b, model.held[b]);
      }
    }

    method JoinHandle(h: nat, fromItself: bool, kernelOk: bool) returns (r: Outcome)
      requires Linked() && h < |handles|
      modifies this`model, impls`detached
      ensures Linked() && (model, r) == Call(old(model), Join(h, fromItself, kernelOk))
      ensures r == if !old(handles[h].Joinable()) then InvalidArgument else if fromItself then WouldDeadlock
                   else if kernelOk then Done else SystemError
      ensures handles[h].Joinable() == (old(handles[h].Joinable()) && !r.Done?)
    {
      assert Owns(h, model.held[h]);
      r := handles[h].Join(fromItself, kernelOk);
      model := Call(model, Join(h, fromItself, kernelOk)).0;
    }

    method DetachHandle(h: nat, kernelOk: bool) returns (r: Outcome)
      requires Linked() && h < |handles|
      modifies this`model, impls`detached
      ensures Linked() && (model, r) == Call(old(model), Detach(h, kernelOk))
      ensures r == if !old(handles[h].Joinable()) then InvalidArgument else if kernelOk then Done else SystemError
      ensures handles[h].Joinable() == (old(handles[h].Joinable()) && !r.Done?)
    {
      assert Owns(h, model.held[h]);
      r := handles[h].Detach(kernelOk);
      model := Call(model, Detach(h, kernelOk)).0;
    }

    /** `~thread()`. */
    method DestroyHandle(h: nat) returns (r: Outcome)
      requires Linked() && h < |handles|
      modifies this`terminated, this`model, handles`impl, impls`alive
      ensures Linked() && (model, r) == Call(old(model), Destroy(h))
      ensures r == if old(handles[h].Joinable()) then Terminated else Done
      ensures r.Done? ==> handles[h].impl == null && (old(handles[h].impl) != null ==> !old(handles[h].impl).alive)
      ensures forall i :: 0 <= i < |handles| && i != h ==> handles[i].impl == old(handles[i].impl)
    {
      assert Owns(h, model.held[h]);
      r := handles[h].Destroy();
      terminated := terminated || r.Terminated?;
      model := Call(model, Destroy(h)).0;
    }

    /** One operation of a program; an operation on a handle that does not exist is none. */
    method Apply(op: Op) returns (r: Outcome)
      requires Valid()
      modifies this, handles`impl, impls
      ensures Valid() && OnlyFreshAdded() && (model, r) == Call(old(model), op)
    {
      CallSound(model, op);
      r := Done;
      match op
      case Default => Construct();
      case Spawn => Spawn();
      case MoveConstruct(src) => if src < |handles| { MoveConstruct(src); }
      case MoveAssign(dst, src) => if dst < |handles| && src < |handles| { r := Assign(dst, src); }
      case Swap(a, b) => if a < |handles| && b < |handles| { SwapHandles(a, b); }
      case Join(h, fromItself, kernelOk) => if h < |handles| { r := JoinHandle(h, fromItself, kernelOk); }
      case Detach(h, kernelOk) => if h < |handles| { r := DetachHandle(h, kernelOk); }
      case Destroy(h) => if h < |handles| { r := DestroyHandle(h); }
    }

    /** Any program, up to the operation that terminates it. */
    method Execute(ops: seq<Op>) returns (outcomes: seq<Outcome>)
      requires Valid()
      modifies this, handles`impl, impls
      ensures Valid() && model == After(old(model), ops) && outcomes == Outcomes(old(model), ops)
    {
      outcomes := [];
      for i := 0 to |ops|
        invariant Valid() && OnlyFreshAdded()
        invariant model == After(old(model), ops[..i]) && outcomes == Outcomes(old(model), ops[..i])
      {
        assert ops[..i + 1][..i] == ops[..i];
        if !terminated {
          var r := Apply(ops[i]);
          outcomes := outcomes + [r];
        }
      }
      assert ops[..|ops|] == ops;
    }
  }
}
