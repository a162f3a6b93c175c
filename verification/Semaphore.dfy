/** The counting semaphore: the release loop and the non-blocking and timed acquires. */
module Semaphore {
  import opened Options
  import opened Ticks
  import opened CmsisOs

  datatype Acquired =
    | Acquired(ok: bool)
    | Threw(status: KernelStatus)
    | Undefined              // the tick product overflowed

  class Semaphore {
    const max: nat
    var count: nat

    ghost predicate Valid()
      reads this
    {
      count <= max
    }

    constructor (max: nat, desired: nat)
      requires desired <= max
      ensures Valid() && this.max == max && count == desired
    {
      this.max, count := max, desired;
    }

    /** `osSemaphoreRelease` with nobody waiting. */
    method OsRelease() returns (sta: KernelStatus)
      requires Valid()
      modifies this
      ensures Valid()
      ensures old(count) < max ==> sta.OsOk? && count == old(count) + 1
      ensures old(count) == max ==> sta.OsErrorResource? && count == old(count)
    {
      if count < max {
        count := count + 1;
        sta := OsOk;
      } else {
        sta := OsErrorResource;
      }
    }

    /** `osSemaphoreAcquire`; with no token, `granted(n)` says whether one arrives within `n` ticks. */
    method OsAcquire(timeout: nat, granted: nat -> bool) returns (sta: KernelStatus)
      requires Valid()
      modifies this
      ensures Valid()
      ensures old(count) > 0 ==> sta.OsOk? && count == old(count) - 1
      ensures old(count) == 0 ==> count == 0
      ensures old(count) == 0 && timeout == 0 ==> sta.OsErrorResource?
      ensures old(count) == 0 && timeout > 0 ==> sta == if granted(timeout) then OsOk else OsErrorTimeout
    {
      if count > 0 {
        count := count - 1;
        sta := OsOk;
      } else if timeout == 0 {
        sta := OsErrorResource;
      } else {
        sta := if granted(timeout) then OsOk else OsErrorTimeout;
      }
    }

    /**
     `release(update)`.  It stops at the first failing release, which throws; a negative `update` counts
     away from zero, so it fills the semaphore and then throws.
     */
    method Release(update: int) returns (thrown: Option<KernelStatus>)
      requires Valid()
      modifies this
      ensures Valid()
      ensures thrown.None? <==> 0 <= update <= max - old(count)
      ensures thrown.None? ==> count == old(count) + update
      ensures thrown.Some? ==> thrown.value.OsErrorResource? && count == max
    {
      var left := update;
      while left != 0
        invariant Valid() && count - old(count) == update - left
        invariant old(count) <= count
        invariant update >= 0 ==> left >= 0
        invariant update < 0 ==> left < 0
        decreases max - count
      {
        left := left - 1;
        var sta := OsRelease();
        if !sta.OsOk? {
          return Some(sta);
        }
      }
      thrown := None;
    }

    method TryAcquire() returns (ok: bool)
      requires Valid()
      modifies this
      ensures Valid()
      ensures ok <==> old(count) > 0
      ensures count == if ok then old(count) - 1 else old(count)
    {
      var sta := OsAcquire(0, _ => false);
      ok := sta.OsOk?;
    }

    /** `try_acquire_for`, with the kernel's answer `granted` for the case that there is no token. */
    method TryAcquireFor(usec: int, freq: Frequency, granted: nat -> bool) returns (r: Acquired)
      requires Valid()
      modifies this
      ensures Valid()
      ensures usec < 0 <==> r.Threw?
      ensures r.Threw? ==> r.status.OsErrorParameter?
      ensures usec >= 0 && Overflows(usec, freq) <==> r.Undefined?
      ensures !r.Acquired? ==> count == old(count)
      ensures r.Acquired? && old(count) > 0 ==> r.ok && count == old(count) - 1
      ensures r.Acquired? && old(count) == 0 ==>
        count == 0 && var ticks := CodeTicks(usec, freq).value; (r.ok <==> ticks > 0 && granted(ticks))
    {
      if usec < 0 {
        return Threw(OsErrorParameter);
      }
      match CodeTicks(usec, freq)
      case None => return Undefined;
      case Some(timeout) =>
        var sta := OsAcquire(timeout, granted);
        if timeout == 0 && sta.OsErrorResource? {
          return Acquired(false);
        }
        r := Acquired(sta.OsOk?);
    }

    /** One call. */
    method Apply(op: Op) returns (r: Result)
      requires Valid()
      modifies this
      ensures Valid() && (count, r) == Call(old(count), max, op)
    {
      match op
      case OpRelease(update) =>
        var thrown := Release(update);
        r := Released(thrown);
      case OpTryAcquire =>
        var ok := TryAcquire();
        r := Tried(ok);
      case OpTryAcquireFor(usec, freq, granted) =>
        var acquired := TryAcquireFor(usec, freq, granted);
        r := TriedFor(acquired);
    }

    /** Any sequence of calls, whatever their outcomes. */
    method Execute(ops: seq<Op>) returns (results: seq<Result>)
      requires Valid()
      modifies this
      ensures Valid()
      ensures count == CountAfter(old(count), max, ops) && results == Results(old(count), max, ops)
    {
      results := [];
      for i := 0 to |ops|
        invariant Valid()
        invariant count == CountAfter(old(count), max, ops[..i]) && results == Results(old(count), max, ops[..i])
      {
        assert ops[..i + 1][..i] == ops[..i];
        var r := Apply(ops[i]);
        results := results + [r];
      }
      assert ops[..|ops|] == ops;
    }
  }

  // ---- The calls on values -------------------------------------------------------------

  datatype Op =
    | OpRelease(update: int)
    | OpTryAcquire
    | OpTryAcquireFor(usec: int, freq: Frequency, granted: nat -> bool)

  datatype Result =
    | Released(thrown: Option<KernelStatus>)
    | Tried(ok: bool)
    | TriedFor(r: Acquired)

  /** A release that does not fit fills the semaphore and throws; an acquire takes at most one token. */
  function Call(count: nat, max: nat, op: Op): (cr: (nat, Result))
    requires count <= max
    ensures cr.0 <= max
  {
    match op
    case OpRelease(update) =>
      if 0 <= update <= max - count then (count + update, Released(None)) else (max, Released(Some(OsErrorResource)))
    case OpTryAcquire => if count > 0 then (count - 1, Tried(true)) else (0, Tried(false))
    case OpTryAcquireFor(usec, freq, granted) =>
      if usec < 0 then (count, TriedFor(Threw(OsErrorParameter)))
      else
        match CodeTicks(usec, freq)
        case None => (count, TriedFor(Undefined))
        case Some(n) =>
          if count > 0 then (count - 1, TriedFor(Acquired(true))) else (0, TriedFor(Acquired(n > 0 && granted(n))))
  }

  function CountAfter(count: nat, max: nat, ops: seq<Op>): (c: nat)
    requires count <= max
    ensures c <= max
  {
    if ops == [] then count else Call(CountAfter(count, max, ops[..|ops| - 1]), max, ops[|ops| - 1]).0
  }

  function Results(count: nat, max: nat, ops: seq<Op>): (results: seq<Result>)
    requires count <= max
    ensures |results| == |ops|
  {
    if ops == [] then []
    else
      var init := ops[..|ops| - 1];
      Results(count, max, init) + [Call(CountAfter(count, max, init), max, ops[|ops| - 1]).1]
  }

  // ---- Conservation --------------------------------------------------------------------

  /** The successful acquires. */
  function Taken(results: seq<Result>): nat {
    if results == [] then 0
    else
      var r := results[|results| - 1];
      Taken(results[..|results| - 1]) + if r == Tried(true) || r == TriedFor(Acquired(true)) then 1 else 0
  }

  /** The tokens released: all of a release that returns, and as many as fit of one that throws. */
  function Given(count: nat, max: nat, ops: seq<Op>): int
    requires count <= max
  {
    if ops == [] then 0
    else
      var init, op := ops[..|ops| - 1], ops[|ops| - 1];
      Given(count, max, init) +
      if !op.OpRelease? then 0
      else if Results(count, max, ops)[|ops| - 1] == Released(None) then op.update
      else max - CountAfter(count, max, init)
  }

  /** The tokens that reached a waiting acquire from elsewhere. */
  function Arrived(count: nat, max: nat, ops: seq<Op>): nat
    requires count <= max
  {
    if ops == [] then 0
    else
      var init := ops[..|ops| - 1];
      Arrived(count, max, init) +
      if CountAfter(count, max, init) == 0 && Results(count, max, ops)[|ops| - 1] == TriedFor(Acquired(true)) then 1 else 0
  }

  /** Over any calls, no token appears or disappears: what is left and what was taken is what there was and what came. */
  lemma {:induction false} TokensConserved(count: nat, max: nat, ops: seq<Op>)
    requires count <= max
    ensures CountAfter(count, max, ops) + Taken(Results(count, max, ops)) ==
            count + Given(count, max, ops) + Arrived(count, max, ops)
  {
    if ops != [] {
      var init := ops[..|ops| - 1];
      TokensConserved(count, max, init);
      assert Results(count, max, ops)[..|ops| - 1] == Results(count, max, init);
    }
  }

  /** Releasing what was acquired gives the count back: a release and as many acquires cancel out. */
  lemma {:induction false} AcquiresUndoRelease(count: nat, max: nat, n: nat)
    requires count + n <= max
    ensures CountAfter(count, max, [OpRelease(n)] + seq(n, _ => OpTryAcquire)) == count
  {
    AcquiresCount(count, max, n, n);
  }

  lemma {:induction false} AcquiresCount(count: nat, max: nat, n: nat, taken: nat)
    requires count + n <= max && taken <= n
    ensures CountAfter(count, max, [OpRelease(n)] + seq(taken, _ => OpTryAcquire)) == count + n - taken
  {
    var ops := [OpRelease(n)] + seq(taken, _ => OpTryAcquire);
    if taken == 0 {
      assert ops == [OpRelease(n)];
      assert ops[..0] == [];
    } else {
      assert ops[..|ops| - 1] == [OpRelease(n)] + seq(taken - 1, _ => OpTryAcquire);
      AcquiresCount(count, max, n, taken - 1);
    }
  }
}
