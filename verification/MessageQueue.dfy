/** The message queue of `std::unique_ptr`: where each object is, over any sequence of calls. */
module MessageQueue {
  import opened Options
  import opened Ticks
  import opened CmsisOs

  datatype Result =
    | NoTimeout
    | Timeout
    | Full
    | Empty
    | Threw       // negative duration, or any other kernel status
    | Undefined   // the tick product overflowed
    | NotYet      // the untimed call blocks
    | Nothing     // no result: a call that has none, or on a variable or queue that does not exist

  /** A null unique_ptr; objects are numbered from 1. */
  const NULL: nat := 0

  function NonNull(p: nat): seq<nat> {
    if p == NULL then [] else [p]
  }

  /** How often `p` occurs. */
  ghost function Count(s: seq<nat>, p: nat): nat {
    if s == [] then 0 else Count(s[..|s| - 1], p) + if s[|s| - 1] == p then 1 else 0
  }

  lemma {:induction false} CountConcat(s: seq<nat>, q: seq<nat>, p: nat)
    ensures Count(s + q, p) == Count(s, p) + Count(q, p)
  {
    if q == [] {
      assert s + q == s;
    } else {
      assert (s + q)[..|s + q| - 1] == s + q[..|q| - 1];
      CountConcat(s, q[..|q| - 1], p);
    }
  }

  lemma CountOne(x: nat, p: nat)
    ensures Count([x], p) == if x == p then 1 else 0
    ensures p != NULL ==> Count(NonNull(x), p) == if x == p then 1 else 0
  {
    assert [x][..0] == [];
  }

  lemma CountAdd(s: seq<nat>, x: nat, p: nat)
    requires p != NULL
    ensures Count(s + [x], p) == Count(s, p) + if x == p then 1 else 0
    ensures Count(s + NonNull(x), p) == Count(s, p) + if x == p then 1 else 0
  {
    CountConcat(s, [x], p);
    CountConcat(s, NonNull(x), p);
    CountOne(x, p);
  }

  lemma CountSplit(s: seq<nat>, i: nat, p: nat)
    requires i < |s|
    ensures Count(s, p) == Count(s[..i] + s[i + 1..], p) + if s[i] == p then 1 else 0
  {
    assert s == s[..i] + ([s[i]] + s[i + 1..]);
    CountConcat(s[..i], [s[i]] + s[i + 1..], p);
    CountConcat([s[i]], s[i + 1..], p);
    CountConcat(s[..i], s[i + 1..], p);
    CountOne(s[i], p);
  }

  lemma CountSet(s: seq<nat>, i: nat, x: nat, p: nat)
    requires i < |s|
    ensures Count(s[i := x], p) == Count(s, p) - (if s[i] == p then 1 else 0) + if x == p then 1 else 0
  {
    CountSplit(s, i, p);
    CountSplit(s[i := x], i, p);
    assert s[i := x][..i] + s[i := x][i + 1..] == s[..i] + s[i + 1..];
  }

  lemma {:induction false} CountNulls(n: nat, p: nat)
    requires p != NULL
    ensures Count(seq(n, _ => NULL), p) == 0
  {
    if n > 0 {
      var s := seq(n, _ => NULL);
      assert s[..n - 1] == seq(n - 1, _ => NULL);
      CountNulls(n - 1, p);
    }
  }

  /** `message_queue_impl::put` and `get` with a duration: how they read the kernel's answer. */
  function StatusToResult(timeout: nat, sta: KernelStatus, noWait: Result): Result {
    if timeout == 0 && sta.OsErrorResource? then noWait
    else if !sta.OsOk? && !sta.OsErrorTimeout? then Threw
    else if sta.OsOk? then NoTimeout else Timeout
  }

  // ---- The calls on values -------------------------------------------------------------

  datatype Ledger = Ledger(
    live: bool, queue: seq<nat>, blocked: seq<nat>, vars: seq<nat>, freed: seq<nat>, lost: seq<nat>, next: nat)

  datatype Op =
    | OpMake(v: nat)
    | OpDrop(v: nat)
    | OpPut(v: nat, error: bool)
    | OpResume(i: nat, error: bool)   // the `i`-th blocked put gets its chance
    | OpPutFor(v: nat, usec: int, freq: Frequency, error: bool)
    | OpGet(v: nat, pick: nat, error: bool)
    | OpGetFor(v: nat, usec: int, freq: Frequency, pick: nat, error: bool)
    | OpClear(picks: nat -> nat)
    | OpDelete

  /** Variable `v` is reset to `p`. */
  function ResetTo(l: Ledger, v: nat, p: nat): Ledger
    requires v < |l.vars|
  {
    l.(vars := l.vars[v := p], freed := l.freed + NonNull(l.vars[v]))
  }

  /** The object of variable `v` goes to the end of the queue, or is lost. */
  function Moved(l: Ledger, v: nat, enqueued: bool): Ledger
    requires v < |l.vars|
  {
    if enqueued then l.(vars := l.vars[v := NULL], queue := l.queue + [l.vars[v]])
    else l.(vars := l.vars[v := NULL], lost := l.lost + [l.vars[v]])
  }

  /** The `i`-th message goes to variable `v`. */
  function Fetched(l: Ledger, v: nat, i: nat): Ledger
    requires v < |l.vars| && i < |l.queue|
  {
    ResetTo(l.(queue := l.queue[..i] + l.queue[i + 1..]), v, l.queue[i])
  }

  /** What a drain deletes, in the order in which the kernel delivers. */
  function Drained(queue: seq<nat>, picks: nat -> nat): seq<nat>
    decreases |queue|
  {
    if queue == [] then []
    else
      var i := picks(|queue|) % |queue|;
      NonNull(queue[i]) + Drained(queue[..i] + queue[i + 1..], picks)
  }

  /** Why a call with a duration fails whatever the queue holds. */
  function Refused(ready: bool, usec: int, freq: Frequency): Option<Result> {
    if usec < 0 then Some(Threw)
    else if Overflows(usec, freq) then Some(Undefined)
    else if !ready then Some(Threw)
    else None
  }

  function PutUntimed(capacity: nat, l: Ledger, v: nat, error: bool): (Ledger, Result)
    requires v < |l.vars|
  {
    if error || !l.live then (Moved(l, v, false), Threw)
    else if |l.queue| < capacity then (Moved(l, v, true), NoTimeout)
    else (l.(vars := l.vars[v := NULL], blocked := l.blocked + [l.vars[v]]), NotYet)
  }

  /** A blocked put goes on: its object is enqueued, lost, or still on its stack. */
  function PutResumed(capacity: nat, l: Ledger, i: nat, error: bool): (Ledger, Result)
    requires i < |l.blocked|
  {
    var p, gone := l.blocked[i], l.(blocked := l.blocked[..i] + l.blocked[i + 1..]);
    if error || !l.live then (gone.(lost := l.lost + [p]), Threw)
    else if |l.queue| < capacity then (gone.(queue := l.queue + [p]), NoTimeout)
    else (l, NotYet)
  }

  function PutTimed(capacity: nat, l: Ledger, v: nat, usec: int, freq: Frequency, error: bool): (Ledger, Result)
    requires v < |l.vars|
  {
    match Refused(l.live && !error, usec, freq)
    case Some(why) => (Moved(l, v, false), why)
    case None =>
      if |l.queue| < capacity then (Moved(l, v, true), NoTimeout)
      else (Moved(l, v, false), if CodeTicks(usec, freq) == Some(0) then Full else Timeout)
  }

  function GetUntimed(l: Ledger, v: nat, pick: nat, error: bool): (Ledger, Result)
    requires v < |l.vars|
  {
    if error || !l.live then (l, Threw)
    else if l.queue != [] then (Fetched(l, v, pick % |l.queue|), NoTimeout)
    else (l, NotYet)
  }

  function GetTimed(l: Ledger, v: nat, usec: int, freq: Frequency, pick: nat, error: bool): (Ledger, Result)
    requires v < |l.vars|
  {
    match Refused(l.live && !error, usec, freq)
    case Some(why) => (l, why)
    case None =>
      if l.queue != [] then (Fetched(l, v, pick % |l.queue|), NoTimeout)
      else (ResetTo(l, v, NULL), if CodeTicks(usec, freq) == Some(0) then Empty else Timeout)
  }

  lemma ConcatAssociates(a: seq<nat>, b: seq<nat>, c: seq<nat>)
    ensures a + (b + c) == a + b + c
  {}

  lemma DrainStep(freed: seq<nat>, queue: seq<nat>, picks: nat -> nat, i: nat)
    requires queue != [] && i == picks(|queue|) % |queue|
    ensures i < |queue|
    ensures freed + Drained(queue, picks) == freed + NonNull(queue[i]) + Drained(queue[..i] + queue[i + 1..], picks)
  {
    ConcatAssociates(freed, NonNull(queue[i]), Drained(queue[..i] + queue[i + 1..], picks));
  }

  /** One call: the ledger after it, and its result. */
  function Call(capacity: nat, l: Ledger, op: Op): (Ledger, Result) {
    match op
    case OpMake(v) => (if v < |l.vars| then ResetTo(l, v, l.next).(next := l.next + 1) else l, Nothing)
    case OpDrop(v) => (if v < |l.vars| then ResetTo(l, v, NULL) else l, Nothing)
    case OpPut(v, error) => if v < |l.vars| then PutUntimed(capacity, l, v, error) else (l, Nothing)
    case OpResume(i, error) => if i < |l.blocked| then PutResumed(capacity, l, i, error) else (l, Nothing)
    case OpPutFor(v, usec, freq, error) =>
      if v < |l.vars| then PutTimed(capacity, l, v, usec, freq, error) else (l, Nothing)
    case OpGet(v, pick, error) => if v < |l.vars| then GetUntimed(l, v, pick, error) else (l, Nothing)
    case OpGetFor(v, usec, freq, pick, error) =>
      if v < |l.vars| then GetTimed(l, v, usec, freq, pick, error) else (l, Nothing)
    case OpClear(picks) =>
      (if l.live then l.(queue := [], freed := l.freed + Drained(l.queue, picks)) else l, Nothing)
    case OpDelete =>
      (if l.live then l.(live := false, queue := [], lost := l.lost + l.queue) else l, Nothing)
  }

  /** The ledger after the first calls of a program. */
  function After(capacity: nat, l: Ledger, ops: seq<Op>): Ledger {
    if ops == [] then l else Call(capacity, After(capacity, l, ops[..|ops| - 1]), ops[|ops| - 1]).0
  }

  function Results(capacity: nat, l: Ledger, ops: seq<Op>): seq<Result> {
    if ops == [] then []
    else
      var init := ops[..|ops| - 1];
      Results(capacity, l, init) + [Call(capacity, After(capacity, l, init), ops[|ops| - 1]).1]
  }

  // ---- Where objects end ---------------------------------------------------------------

  /** Call `op` puts the object `p` without enqueueing it, or deletes the queue with `p` in it. */
  ghost predicate Loses(capacity: nat, l: Ledger, op: Op, p: nat) {
    match op
    case OpPut(v, _) => v < |l.vars| && l.vars[v] == p && Call(capacity, l, op).1.Threw?
    case OpResume(i, _) => i < |l.blocked| && l.blocked[i] == p && Call(capacity, l, op).1.Threw?
    case OpPutFor(v, _, _, _) => v < |l.vars| && l.vars[v] == p && !Call(capacity, l, op).1.NoTimeout?
    case OpDelete => l.live && p in l.queue
    case _ => false
  }

  /** Call `op` fetches a message into a variable holding `p`, resets or drops it, or drains a queue with `p` in it. */
  ghost predicate Frees(capacity: nat, l: Ledger, op: Op, p: nat) {
    match op
    case OpMake(v) => v < |l.vars| && l.vars[v] == p
    case OpDrop(v) => v < |l.vars| && l.vars[v] == p
    case OpGet(v, _, _) => v < |l.vars| && l.vars[v] == p && Call(capacity, l, op).1.NoTimeout?
    case OpGetFor(v, _, _, _, _) =>
      v < |l.vars| && l.vars[v] == p && !Call(capacity, l, op).1.Threw? && !Call(capacity, l, op).1.Undefined?
    case OpClear(_) => l.live && p in l.queue
    case _ => false
  }

  lemma {:induction false} CountsMembers(s: seq<nat>, p: nat)
    ensures p in s <==> Count(s, p) > 0
  {
    if s != [] {
      assert s == s[..|s| - 1] + [s[|s| - 1]];
      CountsMembers(s[..|s| - 1], p);
    }
  }

  lemma DrainedMembers(queue: seq<nat>, picks: nat -> nat, p: nat)
    requires p != NULL
    ensures p in Drained(queue, picks) <==> p in queue
  {
    DrainedIsQueue(queue, picks, p);
    CountsMembers(queue, p);
    CountsMembers(Drained(queue, picks), p);
  }

  lemma CallLoses(capacity: nat, l: Ledger, op: Op, p: nat)
    requires p != NULL
    ensures p in Call(capacity, l, op).0.lost <==> p in l.lost || Loses(capacity, l, op, p)
  {}

  lemma CallFrees(capacity: nat, l: Ledger, op: Op, p: nat)
    requires p != NULL
    ensures p in Call(capacity, l, op).0.freed <==> p in l.freed || Frees(capacity, l, op, p)
  {
    if op.OpClear? { DrainedMembers(l.queue, op.picks, p); }
  }

  ghost predicate LosesAt(capacity: nat, l: Ledger, ops: seq<Op>, i: nat, p: nat) {
    i < |ops| && Loses(capacity, After(capacity, l, ops[..i]), ops[i], p)
  }

  ghost predicate FreesAt(capacity: nat, l: Ledger, ops: seq<Op>, i: nat, p: nat) {
    i < |ops| && Frees(capacity, After(capacity, l, ops[..i]), ops[i], p)
  }

  /** Over any calls, an object is lost exactly by a put that did not enqueue it or by the deletion of its queue. */
  lemma {:induction false} LostExactly(capacity: nat, l: Ledger, ops: seq<Op>, p: nat)
    requires p != NULL
    ensures p in After(capacity, l, ops).lost <==> p in l.lost || exists i: nat :: LosesAt(capacity, l, ops, i, p)
  {
    if ops != [] {
      var n := |ops| - 1;
      var init := ops[..n];
      LostExactly(capacity, l, init, p);
      CallLoses(capacity, After(capacity, l, init), ops[n], p);
      forall i: nat ensures LosesAt(capacity, l, ops, i, p) <==>
        LosesAt(capacity, l, init, i, p) || (i == n && Loses(capacity, After(capacity, l, init), ops[n], p)) {
        assert i < n ==> init[..i] == ops[..i];
      }
      assert LosesAt(capacity, l, ops, n, p) <==> Loses(capacity, After(capacity, l, init), ops[n], p);
    }
  }

  /** Over any calls, an object is freed exactly by its variable or by a drain of its queue. */
  lemma {:induction false} FreedExactly(capacity: nat, l: Ledger, ops: seq<Op>, p: nat)
    requires p != NULL
    ensures p in After(capacity, l, ops).freed <==> p in l.freed || exists i: nat :: FreesAt(capacity, l, ops, i, p)
  {
    if ops != [] {
      var n := |ops| - 1;
      var init := ops[..n];
      FreedExactly(capacity, l, init, p);
      CallFrees(capacity, After(capacity, l, init), ops[n], p);
      forall i: nat ensures FreesAt(capacity, l, ops, i, p) <==>
        FreesAt(capacity, l, init, i, p) || (i == n && Frees(capacity, After(capacity, l, init), ops[n], p)) {
        assert i < n ==> init[..i] == ops[..i];
      }
      assert FreesAt(capacity, l, ops, n, p) <==> Frees(capacity, After(capacity, l, init), ops[n], p);
    }
  }

  /** In whatever order the kernel delivers, a drain deletes every object of the queue as often as it is there. */
  lemma {:induction false} DrainedIsQueue(queue: seq<nat>, picks: nat -> nat, p: nat)
    requires p != NULL
    ensures Count(Drained(queue, picks), p) == Count(queue, p)
    decreases |queue|
  {
    if queue != [] {
      var i := picks(|queue|) % |queue|;
      CountConcat(NonNull(queue[i]), Drained(queue[..i] + queue[i + 1..], picks), p);
      CountOne(queue[i], p);
      CountSplit(queue, i, p);
      DrainedIsQueue(queue[..i] + queue[i + 1..], picks, p);
    }
  }

  class UniquePtrQueue {
    const capacity: nat
    var live: bool
    var queue: seq<nat>      // messages in the kernel's queue
    var blocked: seq<nat>    // pointers that blocked puts have released, on the stacks of their threads
    var vars: seq<nat>       // the callers' unique_ptr variables
    var freed: seq<nat>      // every delete so far
    ghost var lost: seq<nat> // objects that nothing points to any more
    var next: nat            // number of the next object

    ghost function View(): Ledger
      reads this
    {
      Ledger(live, queue, blocked, vars, freed, lost, next)
    }

    /** How many times object `p` is held, by anybody, freed or lost. */
    ghost function Total(p: nat): nat
      reads this`queue, this`blocked, this`vars, this`freed, this`lost
    {
      Count(queue, p) + Count(blocked, p) + Count(vars, p) + Count(freed, p) + Count(lost, p)
    }

    /** Every object ever made is in exactly one place, once; in particular nothing is freed twice. */
    ghost predicate Valid()
      reads this
    {
      && next > 0 && |queue| <= capacity
      && (forall p: nat :: p != NULL ==> Total(p) == if p < next then 1 else 0)
    }

    constructor (capacity: nat, variables: nat)
      ensures Valid() && live && this.capacity == capacity
      ensures queue == [] && blocked == [] && vars == seq(variables, _ => NULL) && freed == [] && lost == [] && next == 1
    {
      this.capacity, live, queue, blocked, freed, lost, next := capacity, true, [], [], [], [], 1;
      vars := seq(variables, _ => NULL);
      new;
      forall p: nat | p != NULL ensures Total(p) == 0 {
        CountNulls(variables, p);
      }
    }

    /** `vars[v].reset(p)`: deletes what the variable held. */
    method Reset(v: nat, p: nat)
      requires v < |vars|
      modifies this`vars, this`freed
      ensures vars == old(vars)[v := p] && freed == old(freed) + NonNull(old(vars)[v])
      ensures forall x: nat :: x != NULL ==> Total(x) == old(Total(x)) + if x == p then 1 else 0
    {
      forall x: nat | x != NULL
        ensures Count(vars[v := p], x) == Count(vars, x) - (if vars[v] == x then 1 else 0) + if p == x then 1 else 0
        ensures Count(freed + NonNull(vars[v]), x) == Count(freed, x) + if vars[v] == x then 1 else 0
      {
        CountSet(vars, v, p, x);
        CountAdd(freed, vars[v], x);
      }
      freed := freed + NonNull(vars[v]);
      vars := vars[v := p];
    }

    /** `vars[v] = std::make_unique<T>()`. */
    method Make(v: nat)
      requires Valid() && v < |vars|
      modifies this`vars, this`freed, this`next
      ensures Valid()
      ensures vars == old(vars)[v := old(next)] && freed == old(freed) + NonNull(old(vars)[v]) && next == old(next) + 1
    {
      Reset(v, next);
      next := next + 1;
    }

    /** `vars[v].release()`: the object is now only in the hands of the call. */
    method ReleasePtr(v: nat) returns (p: nat)
      requires v < |vars|
      modifies this`vars
      ensures p == old(vars)[v] && vars == old(vars)[v := NULL]
      ensures forall x: nat :: x != NULL ==> Total(x) == old(Total(x)) - if x == p then 1 else 0
    {
      p := vars[v];
      forall x: nat | x != NULL
        ensures Count(vars[v := NULL], x) == Count(vars, x) - if p == x then 1 else 0
      {
        CountSet(vars, v, NULL, x);
      }
      vars := vars[v := NULL];
    }

    /** The pointer a failed call had released is gone. */
    ghost method Lose(p: nat)
      modifies this`lost
      ensures lost == old(lost) + [p]
      ensures forall x: nat :: x != NULL ==> Total(x) == old(Total(x)) + if x == p then 1 else 0
    {
      forall x: nat | x != NULL ensures Count(lost + [p], x) == Count(lost, x) + if p == x then 1 else 0 {
        CountAdd(lost, p, x);
      }
      lost := lost + [p];
    }

    /** `osMessageQueuePut`: it fails on a full queue, or with `error` for any reason of the kernel's own. */
    method OsPut(p: nat, timeout: nat, error: bool) returns (sta: KernelStatus)
      requires |queue| <= capacity
      modifies this`queue
      ensures |queue| <= capacity
      ensures sta.OsOk? <==> live && !error && |old(queue)| < capacity
      ensures queue == if sta.OsOk? then old(queue) + [p] else old(queue)
      ensures live && !error && !sta.OsOk? ==> sta == if timeout == 0 then OsErrorResource else OsErrorTimeout
      ensures !live || error ==> sta.OsErrorParameter?
      ensures forall x: nat :: x != NULL ==> Total(x) == old(Total(x)) + if sta.OsOk? && x == p then 1 else 0
    {
      forall x: nat | x != NULL ensures Count(queue + [p], x) == Count(queue, x) + if p == x then 1 else 0 {
        CountAdd(queue, p, x);
      }
      if !live || error {
        sta := OsErrorParameter;
      } else if |queue| < capacity {
        queue := queue + [p];
        sta := OsOk;
      } else {
        sta := if timeout == 0 then OsErrorResource else OsErrorTimeout;
      }
    }

    /** `osMessageQueueGet`: the kernel picks which message comes first. */
    method OsGet(timeout: nat, pick: nat, error: bool) returns (sta: KernelStatus, p: nat)
      modifies this`queue
      ensures sta.OsOk? <==> live && !error && old(queue) != []
      ensures sta.OsOk? ==> var i := pick % |old(queue)|; p == old(queue)[i] && queue == old(queue)[..i] + old(queue)[i + 1..]
      ensures !sta.OsOk? ==> p == NULL && queue == old(queue)
      ensures live && !error && !sta.OsOk? ==> sta == if timeout == 0 then OsErrorResource else OsErrorTimeout
      ensures !live || error ==> sta.OsErrorParameter?
      ensures forall x: nat :: x != NULL ==> Count(queue, x) == old(Count(queue, x)) - if sta.OsOk? && x == p then 1 else 0
      ensures forall x: nat :: x != NULL ==> Total(x) == old(Total(x)) - if sta.OsOk? && x == p then 1 else 0
    {
      p := NULL;
      if !live || error {
        sta := OsErrorParameter;
      } else if queue != [] {
        var i := pick % |queue|;
        sta, p := OsOk, queue[i];
        forall x: nat ensures Count(queue, x) == Count(queue[..i] + queue[i + 1..], x) + if p == x then 1 else 0 {
          CountSplit(queue, i, x);
        }
        queue := queue[..i] + queue[i + 1..];
      } else {
        sta := if timeout == 0 then OsErrorResource else OsErrorTimeout;
      }
    }

    /** `put(std::move(vars[v]))`: the object leaves the variable at once, and is on the caller's stack while the put blocks. */
    method Put(v: nat, error: bool) returns (r: Result)
      requires Valid() && v < |vars|
      modifies this`queue, this`blocked, this`vars, this`lost
      ensures Valid() && vars == old(vars)[v := NULL]
      ensures r.NotYet? <==> live && !error && |old(queue)| == capacity
      ensures r.NoTimeout? <==> live && !error && |old(queue)| < capacity
      ensures r.Threw? <==> !live || error
      ensures queue == if r.NoTimeout? then old(queue) + [old(vars)[v]] else old(queue)
      ensures blocked == if r.NotYet? then old(blocked) + [old(vars)[v]] else old(blocked)
      ensures lost == if r.Threw? then old(lost) + [old(vars)[v]] else old(lost)
    {
      var p := ReleasePtr(v);
      if live && !error && |queue| == capacity {
        Block(p);
        return NotYet;
      }
      var sta := OsPut(p, OS_WAIT_FOREVER, error);
      if sta.OsOk? {
        return NoTimeout;
      }
      Lose(p);
      r := Threw;
    }

    method Block(p: nat)
      modifies this`blocked
      ensures blocked == old(blocked) + [p]
      ensures forall x: nat :: x != NULL ==> Total(x) == old(Total(x)) + if x == p then 1 else 0
    {
      forall x: nat | x != NULL ensures Count(blocked + [p], x) == Count(blocked, x) + if p == x then 1 else 0 {
        CountAdd(blocked, p, x);
      }
      blocked := blocked + [p];
    }

    method Unblock(i: nat) returns (p: nat)
      requires i < |blocked|
      modifies this`blocked
      ensures p == old(blocked)[i] && blocked == old(blocked)[..i] + old(blocked)[i + 1..]
      ensures forall x: nat :: x != NULL ==> Total(x) == old(Total(x)) - if x == p then 1 else 0
    {
      p := blocked[i];
      forall x: nat ensures Count(blocked, x) == Count(blocked[..i] + blocked[i + 1..], x) + if p == x then 1 else 0 {
        CountSplit(blocked, i, x);
      }
      blocked := blocked[..i] + blocked[i + 1..];
    }

    /** The `i`-th blocked put goes on, if the queue has room or the kernel fails the call. */
    method ResumePut(i: nat, error: bool) returns (r: Result)
      requires Valid() && i < |blocked|
      modifies this`queue, this`blocked, this`lost
      ensures Valid()
      ensures r.NotYet? <==> live && !error && |old(queue)| == capacity
      ensures r.NoTimeout? <==> live && !error && |old(queue)| < capacity
      ensures r.Threw? <==> !live || error
      ensures queue == if r.NoTimeout? then old(queue) + [old(blocked)[i]] else old(queue)
      ensures blocked == if r.NotYet? then old(blocked) else old(blocked)[..i] + old(blocked)[i + 1..]
      ensures lost == if r.Threw? then old(lost) + [old(blocked)[i]] else old(lost)
    {
      if live && !error && |queue| == capacity {
        return NotYet;
      }
      var p := Unblock(i);
      var sta := OsPut(p, OS_WAIT_FOREVER, error);
      if sta.OsOk? {
        return NoTimeout;
      }
      Lose(p);
      r := Threw;
    }

    /** `put(std::move(vars[v]), priority, usec)`: the object is released before anything can go wrong. */
    method PutFor(v: nat, usec: int, freq: Frequency, error: bool) returns (r: Result)
      requires Valid() && v < |vars|
      modifies this`queue, this`vars, this`lost
      ensures Valid() && vars == old(vars)[v := NULL]
      ensures r.NoTimeout? <==> usec >= 0 && !Overflows(usec, freq) && live && !error && |old(queue)| < capacity
      ensures r.NoTimeout? ==> queue == old(queue) + [old(vars)[v]] && lost == old(lost)
      ensures !r.NoTimeout? ==> queue == old(queue) && lost == old(lost) + [old(vars)[v]]
      ensures r.Full? || r.Timeout? <==> usec >= 0 && !Overflows(usec, freq) && live && !error && |old(queue)| == capacity
      ensures r.Full? || r.Timeout? ==> (r.Full? <==> CodeTicks(usec, freq) == Some(0))
      ensures usec < 0 ==> r.Threw?
      ensures usec >= 0 && Overflows(usec, freq) <==> r.Undefined?
      ensures r.NoTimeout? || r.Full? || r.Timeout? || r.Undefined? || r.Threw?
    {
      var p := ReleasePtr(v);
      r := Threw;
      if usec >= 0 {
        match CodeTicks(usec, freq)
        case None => r := Undefined;
        case Some(timeout) =>
          var sta := OsPut(p, timeout, error);
          r := StatusToResult(timeout, sta, Full);
      }
      if !r.NoTimeout? { Lose(p); }
    }

    /** `vars[v] = get()`: what the variable held is deleted when the message has come. */
    method Get(v: nat, pick: nat, error: bool) returns (r: Result)
      requires Valid() && v < |vars|
      modifies this`queue, this`vars, this`freed
      ensures Valid()
      ensures r.NotYet? <==> live && !error && old(queue) == []
      ensures r.NoTimeout? <==> live && !error && old(queue) != []
      ensures r.NotYet? || r.NoTimeout? || r.Threw?
      ensures !r.NoTimeout? ==> queue == old(queue) && vars == old(vars) && freed == old(freed)
      ensures r.NoTimeout? ==> var i := pick % |old(queue)|;
        queue == old(queue)[..i] + old(queue)[i + 1..] && vars == old(vars)[v := old(queue)[i]]
      ensures r.NoTimeout? ==> freed == old(freed) + NonNull(old(vars)[v])
    {
      if live && !error && queue == [] {
        return NotYet;
      }
      var sta, p := OsGet(OS_WAIT_FOREVER, pick, error);
      if !sta.OsOk? {
        return Threw;
      }
      Reset(v, p);
      r := NoTimeout;
    }

    /** `get(vars[v], usec)`: unless it throws, it deletes what the variable held, message or not. */
    method GetFor(v: nat, usec: int, freq: Frequency, pick: nat, error: bool) returns (r: Result)
      requires Valid() && v < |vars|
      modifies this`queue, this`vars, this`freed
      ensures Valid()
      ensures r.NoTimeout? <==> usec >= 0 && !Overflows(usec, freq) && live && !error && old(queue) != []
      ensures r.NoTimeout? ==> var i := pick % |old(queue)|;
        queue == old(queue)[..i] + old(queue)[i + 1..] && vars == old(vars)[v := old(queue)[i]]
      ensures r.Empty? || r.Timeout? <==> usec >= 0 && !Overflows(usec, freq) && live && !error && old(queue) == []
      ensures r.Empty? || r.Timeout? ==> queue == old(queue) && vars == old(vars)[v := NULL]
      ensures r.Empty? || r.Timeout? ==> (r.Empty? <==> CodeTicks(usec, freq) == Some(0))
      ensures usec >= 0 && Overflows(usec, freq) <==> r.Undefined?
      ensures r.NoTimeout? || r.Empty? || r.Timeout? || r.Undefined? || r.Threw?
      ensures r.Threw? || r.Undefined? ==> queue == old(queue) && vars == old(vars) && freed == old(freed)
      ensures !r.Threw? && !r.Undefined? ==> freed == old(freed) + NonNull(old(vars)[v])
      ensures usec < 0 ==> r.Threw?
    {
      if usec < 0 {
        return Threw;
      }
      match CodeTicks(usec, freq)
      case None => return Undefined;
      case Some(timeout) =>
        var sta, p := OsGet(timeout, pick, error);
        r := StatusToResult(timeout, sta, Empty);
        if r.Threw? {
          return r;
        }
        Reset(v, p);
    }

    /** A variable goes out of scope. */
    method Drop(v: nat)
      requires Valid() && v < |vars|
      modifies this`vars, this`freed
      ensures Valid() && vars == old(vars)[v := NULL] && freed == old(freed) + NonNull(old(vars)[v])
    {
      Reset(v, NULL);
    }

    /** `get()` whose result nobody keeps: the temporary deletes the object. */
    method GetAndDelete(pick: nat)
      requires Valid() && live && queue != []
      modifies this`queue, this`freed
      ensures Valid() && live
      ensures var i := pick % |old(queue)|;
        queue == old(queue)[..i] + old(queue)[i + 1..] && freed == old(freed) + NonNull(old(queue)[i])
    {
      var sta, p := OsGet(OS_WAIT_FOREVER, pick, false);
      Delete(p);
      forall x: nat | x != NULL ensures Total(x) == old(Total(x)) {
        assert Count(queue, x) + Count(freed, x) == old(Count(queue, x)) + old(Count(freed, x));
      }
    }

    /** The destructor of a unique_ptr temporary. */
    method Delete(p: nat)
      modifies this`freed
      ensures freed == old(freed) + NonNull(p)
      ensures forall x: nat :: x != NULL ==> Count(freed, x) == old(Count(freed, x)) + if x == p then 1 else 0
    {
      forall x: nat | x != NULL ensures Count(freed + NonNull(p), x) == Count(freed, x) + if p == x then 1 else 0 {
        CountAdd(freed, p, x);
      }
      freed := freed + NonNull(p);
    }

    /** `clear()` with nobody else using the queue, whatever order the kernel delivers in: drain, then reset. */
    method Clear(picks: nat -> nat)
      requires Valid() && live
      modifies this`queue, this`freed
      ensures Valid() && queue == [] && freed == old(freed) + Drained(old(queue), picks)
    {
      while queue != []
        invariant Valid() && live
        invariant old(freed) + Drained(old(queue), picks) == freed + Drained(queue, picks)
        decreases |queue|
      {
        DrainStep(freed, queue, picks, picks(|queue|) % |queue|);
        GetAndDelete(picks(|queue|));
      }
      queue := [];    // osMessageQueueReset
    }

    /** The queue's destructor leaves the objects still queued to nobody. */
    method DeleteQueue()
      requires Valid() && live
      modifies this`live, this`queue, this`lost
      ensures Valid() && !live && queue == [] && lost == old(lost) + old(queue)
    {
      forall x: nat ensures Count(lost + queue, x) == Count(lost, x) + Count(queue, x) {
        CountConcat(lost, queue, x);
      }
      assert forall x: nat :: x != NULL ==>
        Total(x) == Count(lost + queue, x) + Count(blocked, x) + Count(vars, x) + Count(freed, x);
      lost := lost + queue;
      queue, live := [], false;
    }

    /** One call; a call on a variable that does not exist, or a second delete, is none. */
    method Apply(op: Op) returns (r: Result)
      requires Valid()
      modifies this
      ensures Valid() && (View(), r) == Call(capacity, old(View()), op)
    {
      r := Nothing;
      match op
      case OpPut(v, error) => if v < |vars| { r := Put(v, error); }
      case OpResume(i, error) => if i < |blocked| { r := ResumePut(i, error); }
      case OpPutFor(v, usec, freq, error) => if v < |vars| { r := PutFor(v, usec, freq, error); }
      case OpMake(v) => if v < |vars| { Make(v); }
      case OpDrop(v) => if v < |vars| { Drop(v); }
      case OpGet(v, pick, error) => if v < |vars| { r := Get(v, pick, error); }
      case OpGetFor(v, usec, freq, pick, error) => if v < |vars| { r := GetFor(v, usec, freq, pick, error); }
      case OpClear(picks) => if live { Clear(picks); }
      case OpDelete => if live { DeleteQueue(); }
    }

    /** Any sequence of calls: every object is in exactly one place, and the ledger and the results are those of the calls. */
    method Execute(ops: seq<Op>) returns (results: seq<Result>)
      requires Valid()
      modifies this
      ensures Valid() && View() == After(capacity, old(View()), ops)
      ensures results == Results(capacity, old(View()), ops)
    {
      results := [];
      for i := 0 to |ops|
        invariant Valid() && View() == After(capacity, old(View()), ops[..i])
        invariant results == Results(capacity, old(View()), ops[..i])
      {
        var r := Apply(ops[i]);
        assert ops[..i + 1][..i] == ops[..i];
        results := results + [r];
      }
      assert ops[..|ops|] == ops;
    }
  }
}
