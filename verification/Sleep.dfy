/** `this_thread::sleep_for` and `sleep_until` against the kernel's tick counter. */
module Sleep {
  import opened Options
  import opened Ticks

  datatype Outcome =
    | Slept
    | Failed       // osDelay did not return osOK: system_error
    | Undefined    // the tick product overflowed

  datatype Awakening = Awakening(late: nat, ok: bool, reading: int)

  /** The `i`-th result of the clock. */
  function Reading(first: int, world: seq<Awakening>, i: nat): int
    requires i <= |world|
  {
    if i == 0 then first else world[i - 1].reading
  }

  /** What the first `n` sleeps are asked for. */
  function Sleeps(sleepTime: int, den: nat, first: int, world: seq<Awakening>, n: nat): seq<int>
    requires den > 0 && n <= |world| + 1
  {
    if n == 0 then [] else Sleeps(sleepTime, den, first, world, n - 1) + [ToUsec(sleepTime - Reading(first, world, n - 1), den)]
  }

  /** The ticks that pass in the first `n` sleeps. */
  function Delayed(sleepTime: int, den: nat, first: int, world: seq<Awakening>, freq: Frequency, n: nat): nat
    requires den > 0 && n <= |world|
  {
    if n == 0 then 0
    else
      var usec := ToUsec(sleepTime - Reading(first, world, n - 1), den);
      Delayed(sleepTime, den, first, world, freq, n - 1)
      + if usec <= 0 then 0 else usec * freq / MICRO % UINT32_LIMIT + world[n - 1].late
  }

  /** Each sleep is for the time left by the last reading, in whole microseconds. */
  lemma {:induction false} SleepsForTheTimeLeft(sleepTime: int, den: nat, first: int, world: seq<Awakening>, n: nat, i: nat)
    requires den > 0 && i < n <= |world| + 1
    ensures |Sleeps(sleepTime, den, first, world, n)| == n
    ensures var left := sleepTime - if i == 0 then first else world[i - 1].reading;
      var usec := Sleeps(sleepTime, den, first, world, n)[i];
      left >= 0 ==> usec * den <= left * MICRO < (usec + 1) * den
  {
    SleepsCounted(sleepTime, den, first, world, n);
    if i < n - 1 {
      SleepsForTheTimeLeft(sleepTime, den, first, world, n - 1, i);
      SleepsCounted(sleepTime, den, first, world, n - 1);
    } else {
      SleepsCounted(sleepTime, den, first, world, n - 1);
      CastRounds(sleepTime - Reading(first, world, i), den);
    }
  }

  lemma {:induction false} SleepsCounted(sleepTime: int, den: nat, first: int, world: seq<Awakening>, n: nat)
    requires den > 0 && n <= |world| + 1
    ensures |Sleeps(sleepTime, den, first, world, n)| == n
  {
    if n > 0 { SleepsCounted(sleepTime, den, first, world, n - 1); }
  }

  /** A sleep in range lets pass the time asked for, short by less than one tick, and the kernel's lateness. */
  lemma DelayPasses(sleepTime: int, den: nat, first: int, world: seq<Awakening>, freq: Frequency, n: nat)
    requires den > 0 && n < |world|
    requires InRange(ToUsec(sleepTime - Reading(first, world, n), den), freq)
    requires (sleepTime - if n == 0 then first else world[n - 1].reading) * MICRO >= den
    ensures var usec := ToUsec(sleepTime - if n == 0 then first else world[n - 1].reading, den);
      var passed := Delayed(sleepTime, den, first, world, freq, n + 1) - Delayed(sleepTime, den, first, world, freq, n);
      passed >= world[n].late && (passed - world[n].late) * MICRO <= usec * freq < (passed - world[n].late + 1) * MICRO
  {
    var usec := ToUsec(sleepTime - Reading(first, world, n), den);
    CastSign(sleepTime - Reading(first, world, n), den);
    RangeIsExact(usec, freq);
    CodeWraps(usec, freq);
  }

  /** In rounds that start less than one microsecond before the deadline no tick passes: the loop spins. */
  lemma {:induction false} SpinsBelowMicrosecond(
      sleepTime: int, den: nat, first: int, world: seq<Awakening>, freq: Frequency, i: nat, n: nat)
    requires den > 0 && i <= n <= |world|
    requires forall j :: i <= j < n ==> (sleepTime - Reading(first, world, j)) * MICRO < den
    ensures Delayed(sleepTime, den, first, world, freq, n) == Delayed(sleepTime, den, first, world, freq, i)
  {
    if i < n {
      SpinsBelowMicrosecond(sleepTime, den, first, world, freq, i, n - 1);
      CastSign(sleepTime - Reading(first, world, n - 1), den);
    }
  }

  /** On the microsecond clock itself the cast changes nothing. */
  lemma MicrosecondCast(duration: int)
    ensures ToUsec(duration, MICRO) == duration
  {}

  /** The kernel's clock.  `osDelay(k)` advances it by at least `k` ticks; by how much is the kernel's choice. */
  class Kernel {
    const freq: Frequency
    var ticks: nat
    ghost var asked: seq<int>   // the durations of all sleeps so far

    constructor (freq: Frequency)
      ensures this.freq == freq && ticks == 0 && asked == []
    {
      this.freq, ticks, asked := freq, 0, [];
    }

    /** `system_clock::now`: the time that the ticks make, in whole microseconds. */
    function Now(): (usec: nat)
      reads this
      ensures ticks < UINT32_LIMIT ==> usec * freq <= ticks * MICRO < usec * freq + freq
    {
      if ticks < UINT32_LIMIT then
        ConvertDurationExact(ticks, MICRO, freq);
        DivBounds(ticks * MICRO, freq);
        TicksToUsec(ticks, freq)
      else
        TicksToUsec(ticks, freq)
    }

    method Delay(k: nat, late: nat, ok: bool) returns (r: Outcome)
      modifies this`ticks
      ensures r == if ok then Slept else Failed
      ensures ticks == if ok then old(ticks) + k + late else old(ticks)
    {
      if ok {
        ticks := ticks + k + late;
        r := Slept;
      } else {
        r := Failed;
      }
    }

    /** `sleep_for_usec`, with the kernel's choices for its `osDelay`. */
    method SleepForUsec(usec: int, late: nat, ok: bool) returns (r: Outcome)
      modifies this
      ensures asked == old(asked) + [usec]
      ensures usec <= 0 ==> r.Slept? && ticks == old(ticks)
      ensures usec > 0 && Overflows(usec, freq) ==> r.Undefined? && ticks == old(ticks)
      ensures usec > 0 && !Overflows(usec, freq) ==> r == if ok then Slept else Failed
      ensures usec > 0 && !Overflows(usec, freq) && ok ==>
        ticks == old(ticks) + usec * freq / MICRO % UINT32_LIMIT + late
      ensures !r.Slept? ==> ticks == old(ticks)
    {
      asked := asked + [usec];
      if usec > 0 {
        match CodeTicks(usec, freq)
        case None => r := Undefined;
        case Some(k) =>
          CodeWraps(usec, freq);
          r := Delay(k, late, ok);
      } else {
        r := Slept;
      }
    }

    /**
     `sleep_until` on a clock that is not steady and ticks `den` times a second.  `reading` is its first
     result and `world` the rest of the run: for each sleep the kernel's choices and the next result of
     the clock.  The sleep is cut to whole microseconds.
     */
    method SleepUntilUnsteady(sleepTime: int, den: nat, reading: int, world: seq<Awakening>)
      returns (r: Option<Outcome>, n: nat)
      requires den > 0
      modifies this
      ensures n <= |world|
      ensures forall i :: 0 <= i < n ==> Reading(reading, world, i) < sleepTime
      ensures r == Some(Slept) <==> Reading(reading, world, n) >= sleepTime
      ensures r == Some(Slept) ==> (if n == 0 then reading else world[n - 1].reading) >= sleepTime
      ensures (n > 0 ==> reading < sleepTime) && forall i :: 0 <= i < n - 1 ==> world[i].reading < sleepTime
      ensures r.None? ==> n == |world|
      ensures r.Some? && !r.value.Slept? ==> n < |world|
      ensures r == Some(Undefined) ==> Overflows(ToUsec(sleepTime - Reading(reading, world, n), den), freq)
      ensures r == Some(Failed) ==> !world[n].ok && !Overflows(ToUsec(sleepTime - Reading(reading, world, n), den), freq)
      ensures asked == old(asked) + Sleeps(sleepTime, den, reading, world, if r.Some? && !r.value.Slept? then n + 1 else n)
      ensures ticks == old(ticks) + Delayed(sleepTime, den, reading, world, freq, n)
    {
      var now := reading;
      n := 0;
      while now < sleepTime && n < |world|
        invariant n <= |world| && now == Reading(reading, world, n)
        invariant forall i :: 0 <= i < n ==> Reading(reading, world, i) < sleepTime
        invariant (n > 0 ==> reading < sleepTime) && forall i :: 0 <= i < n - 1 ==> world[i].reading < sleepTime
        invariant asked == old(asked) + Sleeps(sleepTime, den, reading, world, n)
        invariant ticks == old(ticks) + Delayed(sleepTime, den, reading, world, freq, n)
        decreases |world| - n
      {
        var outcome := SleepForUsec(ToUsec(sleepTime - now, den), world[n].late, world[n].ok);
        if !outcome.Slept? {
          return Some(outcome), n;
        }
        now := world[n].reading;
        n := n + 1;
      }
      r := if now < sleepTime then None else Some(Slept);
    }

    /** `sleep_until` on the steady microsecond clock. */
    method SleepUntil(sleepTime: int, late: nat, ok: bool) returns (r: Outcome)
      requires ticks < UINT32_LIMIT
      modifies this
      ensures sleepTime <= old(Now()) ==> r.Slept? && ticks == old(ticks) && asked == old(asked)
      ensures !r.Slept? ==> ticks == old(ticks)
      ensures sleepTime > old(Now()) ==> asked == old(asked) + [sleepTime - old(Now())]
      ensures sleepTime > old(Now()) && r.Slept? ==>
        ticks == old(ticks) + (sleepTime - old(Now())) * freq / MICRO % UINT32_LIMIT + late
      ensures sleepTime > old(Now()) ==> (r.Undefined? <==> Overflows(sleepTime - old(Now()), freq))
      ensures r.Failed? ==> !ok
      ensures r.Slept? && ticks < UINT32_LIMIT && InRange(sleepTime - old(Now()), freq) ==>
        (sleepTime - Now()) * freq < MICRO + freq
      ensures r.Slept? && ticks < UINT32_LIMIT && late == 0 && sleepTime > old(Now()) ==>
        ((sleepTime - Now()) * freq < MICRO + freq <==> InRange(sleepTime - old(Now()), freq))
      ensures r.Slept? && (sleepTime > old(Now()) ==> InRange(sleepTime - old(Now()), freq)) ==>
        sleepTime * freq < ticks * MICRO + MICRO
    {
      var now := Now();
      r := Slept;
      if now < sleepTime {
        MicrosecondCast(sleepTime - now);
        r := SleepForUsec(ToUsec(sleepTime - now, MICRO), late, ok);
        if r.Slept? { SleptEnough(old(ticks), ticks, late, sleepTime - now, freq); }
      } else {
        AlreadyPast(ticks, sleepTime, freq);
      }
    }
  }

  /** What a sleep of `delay` from tick `before` to tick `after` means for the deadline. */
  lemma SleptEnough(before: nat, after: nat, late: nat, delay: nat, freq: Frequency)
    requires before < UINT32_LIMIT && after == before + delay * freq / MICRO % UINT32_LIMIT + late
    ensures after < UINT32_LIMIT && InRange(delay, freq) ==>
      (TicksToUsec(before, freq) + delay - TicksToUsec(after, freq)) * freq < MICRO + freq
    ensures after < UINT32_LIMIT && late == 0 && !InRange(delay, freq) ==>
      (TicksToUsec(before, freq) + delay - TicksToUsec(after, freq)) * freq >= MICRO + freq
    ensures InRange(delay, freq) ==> (TicksToUsec(before, freq) + delay) * freq < after * MICRO + MICRO
  {
    if after < UINT32_LIMIT {
      DeadlineError(before, after, delay, freq);
      if late == 0 { EarlyWake(before, after, delay, freq); }
    }
    DeadlineInTicks(before, after, delay, freq);
  }

  /** Measured in ticks, a sleep in range ends less than one tick before the deadline. */
  lemma DeadlineInTicks(before: nat, after: nat, delay: nat, freq: Frequency)
    requires before < UINT32_LIMIT && after >= before + delay * freq / MICRO % UINT32_LIMIT
    ensures InRange(delay, freq) ==> (TicksToUsec(before, freq) + delay) * freq < after * MICRO + MICRO
  {
    ConvertDurationExact(before, MICRO, freq);
    DivBounds(before * MICRO, freq);
    var b := TicksToUsec(before, freq);
    assert (b + delay) * freq == b * freq + delay * freq;
    InTicksLinear(before, after, b * freq, delay * freq);
  }

  lemma InTicksLinear(before: nat, after: nat, b: nat, product: nat)
    requires b <= before * MICRO && after >= before + product / MICRO % UINT32_LIMIT
    ensures product / MICRO <= UINT32_MAX ==> b + product < after * MICRO + MICRO
  {}

  lemma AlreadyPast(ticks: nat, sleepTime: int, freq: Frequency)
    requires ticks < UINT32_LIMIT && sleepTime <= TicksToUsec(ticks, freq)
    ensures sleepTime * freq <= ticks * MICRO
  {
    ConvertDurationExact(ticks, MICRO, freq);
    DivBounds(ticks * MICRO, freq);
    MulMono(sleepTime, TicksToUsec(ticks, freq), freq);
  }

  /** Sleeping for the converted delay ends less than one tick plus one microsecond before the deadline. */
  lemma DeadlineError(before: nat, after: nat, delay: nat, freq: Frequency)
    requires before < UINT32_LIMIT && after < UINT32_LIMIT
    requires after >= before + delay * freq / MICRO % UINT32_LIMIT
    ensures InRange(delay, freq) ==>
      (TicksToUsec(before, freq) + delay - TicksToUsec(after, freq)) * freq < MICRO + freq
  {
    var b, a := TicksToUsec(before, freq), TicksToUsec(after, freq);
    ScaledReadings(before, after, delay, freq);
    InRangeLinear(before, after, b * freq, a * freq, delay * freq, freq);
  }

  /** Out of range the delay wraps, and an exact kernel wakes the thread at least 2^32 ticks too soon. */
  lemma EarlyWake(before: nat, after: nat, delay: nat, freq: Frequency)
    requires before < UINT32_LIMIT && after < UINT32_LIMIT
    requires after == before + delay * freq / MICRO % UINT32_LIMIT
    ensures !InRange(delay, freq) ==>
      (TicksToUsec(before, freq) + delay - TicksToUsec(after, freq)) * freq >= MICRO + freq
  {
    var b, a := TicksToUsec(before, freq), TicksToUsec(after, freq);
    ScaledReadings(before, after, delay, freq);
    OutOfRangeLinear(before, after, b * freq, a * freq, delay * freq, freq);
  }

  /** The clock readings scaled by the frequency, against the ticks they come from. */
  lemma ScaledReadings(before: nat, after: nat, delay: nat, freq: Frequency)
    requires before < UINT32_LIMIT && after < UINT32_LIMIT
    ensures var b, a := TicksToUsec(before, freq), TicksToUsec(after, freq);
      && b * freq <= before * MICRO < b * freq + freq
      && a * freq <= after * MICRO < a * freq + freq
      && (b + delay - a) * freq == b * freq + delay * freq - a * freq
  {
    ConvertDurationExact(before, MICRO, freq);
    ConvertDurationExact(after, MICRO, freq);
    DivBounds(before * MICRO, freq);
    DivBounds(after * MICRO, freq);
  }

  lemma InRangeLinear(before: nat, after: nat, b: nat, a: nat, product: nat, freq: nat)
    requires b <= before * MICRO && after * MICRO < a + freq
    requires after >= before + product / MICRO % UINT32_LIMIT
    ensures product / MICRO <= UINT32_MAX ==> b + product - a < MICRO + freq
  {}

  lemma OutOfRangeLinear(before: nat, after: nat, b: nat, a: nat, product: nat, freq: nat)
    requires before * MICRO < b + freq && a <= after * MICRO && freq < UINT32_LIMIT
    requires after == before + product / MICRO % UINT32_LIMIT
    ensures product / MICRO > UINT32_MAX ==> b + product - a >= MICRO + freq
  {
    var k := product / MICRO;
    assert k > UINT32_MAX ==> k >= k % UINT32_LIMIT + UINT32_LIMIT;
  }
}
