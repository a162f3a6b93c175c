/** The two conversions between time and kernel ticks, at their machine widths. */
module Ticks {
  import opened Options

  const INT64_LIMIT: int := 0x8000_0000_0000_0000
  const UINT64_LIMIT: int := 0x1_0000_0000_0000_0000
  const UINT32_LIMIT: int := 0x1_0000_0000
  const UINT32_MAX: int := 0xFFFF_FFFF
  const OS_WAIT_FOREVER: int := 0xFFFF_FFFF
  const MICRO: int := 1_000_000
  const NANO: int := 1_000_000_000
  const MAX_USEC: int := INT64_LIMIT - 1   // microseconds::max().count()

  type Frequency = f: int | 0 < f < UINT32_LIMIT witness 1000

  /** C++ integer division: towards zero. */
  function TruncDiv(a: int, b: int): int
    requires b > 0
  {
    if a >= 0 then a / b else -((-a) / b)
  }

  /** `duration_cast<microseconds>` of a duration in units of 1/`den` seconds. */
  function ToUsec(duration: int, den: nat): int
    requires den > 0
  {
    TruncDiv(duration * MICRO, den)
  }

  /** The signed 64-bit product `usec.count() * osKernelGetTickFreq()` is undefined. */
  predicate Overflows(usec: int, freq: Frequency) {
    !(-INT64_LIMIT <= usec * freq < INT64_LIMIT)
  }

  /** Microseconds to ticks as coded: divide, cast to uint32_t, then compare; nothing if the product overflows. */
  function CodeTicks(usec: int, freq: Frequency): Option<nat> {
    if Overflows(usec, freq) then None
    else
      var timeout := TruncDiv(usec * freq, MICRO) % UINT32_LIMIT;
      Some(if timeout > UINT32_MAX then OS_WAIT_FOREVER else timeout)
  }

  /** Microseconds to ticks as intended: everything out of range means forever. */
  function SaturatedTicks(usec: nat, freq: Frequency): nat {
    var ticks := usec * freq / MICRO;
    if ticks > UINT32_MAX then OS_WAIT_FOREVER else ticks
  }

  /** The clamp never acts, so the code wraps where it means to saturate. */
  lemma CodeWraps(usec: nat, freq: Frequency)
    requires !Overflows(usec, freq)
    ensures CodeTicks(usec, freq) == Some(usec * freq / MICRO % UINT32_LIMIT)
  {}

  /** The code saturates as intended exactly on the 32-bit range and on the ticks that wrap onto osWaitForever. */
  lemma SaturatesExactly(usec: nat, freq: Frequency)
    requires !Overflows(usec, freq)
    ensures CodeTicks(usec, freq) == Some(SaturatedTicks(usec, freq)) <==>
      var ticks := usec * freq / MICRO;
      ticks <= UINT32_MAX || ticks % UINT32_LIMIT == UINT32_MAX
  {
    var ticks := usec * freq / MICRO;
    assert 0 <= ticks <= UINT32_MAX ==> ticks % UINT32_LIMIT == ticks;
  }

  /** The durations that the code converts exactly. */
  predicate InRange(usec: int, freq: Frequency) {
    usec >= 0 && usec * freq / MICRO <= UINT32_MAX
  }

  /** In range the product does not overflow, and the result is short by less than one tick. */
  lemma RangeIsExact(usec: nat, freq: Frequency)
    requires InRange(usec, freq)
    ensures !Overflows(usec, freq)
    ensures CodeTicks(usec, freq).Some?
    ensures var ticks := CodeTicks(usec, freq).value; ticks * MICRO <= usec * freq < (ticks + 1) * MICRO
  {}

  lemma RangeIsMonotone(short: nat, long: nat, freq: Frequency)
    requires short <= long && InRange(long, freq)
    ensures InRange(short, freq) && CodeTicks(short, freq).value <= CodeTicks(long, freq).value
  {
    MulMono(short, long, freq);
    DivMono(short * freq, long * freq);
    RangeIsExact(short, freq);
    RangeIsExact(long, freq);
  }

  lemma DivMono(a: nat, b: nat)
    requires a <= b
    ensures a / MICRO <= b / MICRO
  {}

  lemma MulMono(a: int, b: int, c: nat)
    requires a <= b
    ensures a * c <= b * c
  {
    assert b * c == a * c + (b - a) * c;
  }

  lemma MulGap(a: int, b: int, c: nat)
    ensures a < b ==> a * c + c <= b * c
  {
    if a < b { MulMono(a + 1, b, c); }
  }

  // ---- The untimed wait ----------------------------------------------------------------

  /** `wait` passes microseconds::max(): the product overflows above 1 Hz, and at 1 Hz the wait is finite. */
  lemma UntimedWaitIsNeverForever(freq: Frequency)
    ensures Overflows(MAX_USEC, freq) <==> freq > 1
    ensures CodeTicks(MAX_USEC, freq) == if freq > 1 then None else Some(2077252342)
    ensures CodeTicks(MAX_USEC, freq) != Some(OS_WAIT_FOREVER)
  {
    if freq > 1 { assert MAX_USEC * freq >= MAX_USEC * 2; }
  }

  /** The value of a 64-bit word read as two's complement. */
  function Signed64(x: int): int {
    var low := x % UINT64_LIMIT;
    if low < INT64_LIMIT then low else low - UINT64_LIMIT
  }

  /** Microseconds to ticks where the product silently wraps around. */
  function WrappingTicks(usec: int, freq: Frequency): nat {
    TruncDiv(Signed64(usec * freq), MICRO) % UINT32_LIMIT
  }

  /** The low word of the wrapped product: minus the frequency, and half the range off at odd frequencies. */
  lemma UntimedProduct(freq: Frequency)
    ensures Signed64(MAX_USEC * freq) == if freq % 2 == 0 then 0 - freq else INT64_LIMIT - freq
  {
    var half := freq / 2;
    if freq % 2 == 0 {
      assert MAX_USEC * freq == half * UINT64_LIMIT - freq == (half - 1) * UINT64_LIMIT + (UINT64_LIMIT - freq);
      WrapOff(half - 1, UINT64_LIMIT - freq);
    } else {
      assert freq == 2 * half + 1;
      assert MAX_USEC * freq == half * UINT64_LIMIT + (INT64_LIMIT - freq);
      WrapOff(half, INT64_LIMIT - freq);
    }
  }

  /**
   Where the product wraps around, an untimed wait does not wait at all exactly at the even frequencies
   below 1 MHz, and waits forever as meant exactly at the even ones from 1 MHz to below 2 MHz.
   */
  lemma UntimedWaitExactly(freq: Frequency)
    ensures WrappingTicks(MAX_USEC, freq) == 0 <==> freq % 2 == 0 && freq < MICRO
    ensures WrappingTicks(MAX_USEC, freq) == OS_WAIT_FOREVER <==> freq % 2 == 0 && MICRO <= freq < 2 * MICRO
  {
    UntimedProduct(freq);
    if freq % 2 == 0 {
      NegativeWord(freq / MICRO);
    } else {
      PositiveWord((INT64_LIMIT - freq) / MICRO);
    }
  }

  lemma NegativeWord(q: nat)
    requires q < 4295
    ensures (0 - q) % UINT32_LIMIT == if q == 0 then 0 else UINT32_LIMIT - q
  {}

  lemma PositiveWord(q: nat)
    requires 2147 * UINT32_LIMIT < q < 2148 * UINT32_LIMIT - 1
    ensures q % UINT32_LIMIT == q - 2147 * UINT32_LIMIT
  {}

  lemma WrapOff(n: int, low: int)
    requires 0 <= low < UINT64_LIMIT
    ensures (n * UINT64_LIMIT + low) % UINT64_LIMIT == low
  {}

  // ---- Ticks to time -------------------------------------------------------------------

  /** `convertDuration`: the product is taken in uint64_t. */
  function ConvertDuration(count: nat, den: nat, freq: Frequency): nat {
    count * den % UINT64_LIMIT / freq
  }

  function TicksToUsec(ticks: nat, freq: Frequency): nat {
    ConvertDuration(ticks, MICRO, freq)
  }

  /** No 32-bit count overflows, at microseconds or at nanoseconds. */
  lemma ConvertDurationExact(count: nat, den: nat, freq: Frequency)
    requires count < UINT32_LIMIT && den <= NANO
    ensures ConvertDuration(count, den, freq) == count * den / freq < INT64_LIMIT
  {
    MulMono(count, UINT32_MAX, den);
    var product := count * den;
    assert product <= UINT32_MAX * NANO;
    DivBounds(product, freq);
  }

  lemma DivBounds(a: nat, d: nat)
    requires d > 0
    ensures a / d * d <= a < a / d * d + d
    ensures a / d <= a
    ensures a % d == a - a / d * d
  {
    var q := a / d;
    assert a == q * d + a % d;
    MulMono(1, d, q);
  }

  /** A quotient from its bounds. */
  lemma DivUnique(a: nat, d: nat, q: nat)
    requires d > 0 && q * d <= a < q * d + d
    ensures a / d == q
  {
    DivBounds(a, d);
    var r := a / d;
    if r < q {
      MulMono(r + 1, q, d);
    } else if r > q {
      MulMono(q + 1, r, d);
    }
  }

  // ---- Round trips ---------------------------------------------------------------------

  /** Ticks to microseconds and back: exact exactly when the microseconds are, else one tick short. */
  lemma TicksRoundTrip(ticks: nat, freq: Frequency)
    requires ticks < UINT32_LIMIT && freq <= MICRO
    ensures var back := CodeTicks(TicksToUsec(ticks, freq), freq);
      back == Some(ticks) || (ticks > 0 && back == Some(ticks - 1))
    ensures CodeTicks(TicksToUsec(ticks, freq), freq) == Some(ticks) <==> ticks * MICRO % freq == 0
  {
    ConvertDurationExact(ticks, MICRO, freq);
    var usec := TicksToUsec(ticks, freq);
    DivBounds(ticks * MICRO, freq);
    BackToTicks(ticks, usec * freq, ticks * MICRO % freq);
    CodeWraps(usec, freq);
  }

  lemma BackToTicks(ticks: nat, product: nat, rest: nat)
    requires ticks < UINT32_LIMIT && product == ticks * MICRO - rest && rest < MICRO
    ensures product < INT64_LIMIT
    ensures product / MICRO % UINT32_LIMIT == if rest == 0 then ticks else ticks - 1
  {}

  /** A frequency that divides one million makes every round trip exact. */
  lemma TicksRoundTripExact(ticks: nat, freq: Frequency)
    requires ticks < UINT32_LIMIT && MICRO % freq == 0
    ensures CodeTicks(TicksToUsec(ticks, freq), freq) == Some(ticks)
  {
    DivBounds(MICRO, freq);
    var n := MICRO / freq;
    assert freq <= MICRO;
    assert ticks * MICRO == (ticks * n) * freq;
    DivUnique(ticks * MICRO, freq, ticks * n);
    DivBounds(ticks * MICRO, freq);
    TicksRoundTrip(ticks, freq);
  }

  /** Microseconds to ticks and back: never longer, and short by less than one tick plus one microsecond. */
  lemma UsecRoundTrip(usec: nat, freq: Frequency)
    requires InRange(usec, freq)
    ensures CodeTicks(usec, freq).Some?
    ensures var back := TicksToUsec(CodeTicks(usec, freq).value, freq);
      back <= usec && (usec - back) * freq < MICRO + freq
  {
    RangeIsExact(usec, freq);
    var ticks := CodeTicks(usec, freq).value;
    ConvertDurationExact(ticks, MICRO, freq);
    var back := TicksToUsec(ticks, freq);
    DivBounds(ticks * MICRO, freq);
    NotAbove(back, usec, freq, ticks * MICRO);
  }

  lemma NotAbove(back: nat, usec: nat, freq: Frequency, product: nat)
    requires back * freq <= product <= usec * freq < product + MICRO
    requires product < back * freq + freq
    ensures back <= usec && (usec - back) * freq < MICRO + freq
  {
    MulGap(usec, back, freq);
    assert (usec - back) * freq == usec * freq - back * freq;
  }

  // ---- Casts to microseconds -----------------------------------------------------------

  /** The cast to microseconds loses a duration shorter than one microsecond, of either sign. */
  lemma CastSign(duration: int, den: nat)
    requires den > 0
    ensures ToUsec(duration, den) < 0 <==> duration * MICRO + den <= 0
    ensures ToUsec(duration, den) > 0 <==> duration * MICRO >= den
  {
    var scaled := duration * MICRO;
    QuotientSign(if scaled >= 0 then scaled else -scaled, den);
  }

  /** Any other is rounded towards zero to whole microseconds. */
  lemma CastRounds(duration: int, den: nat)
    requires den > 0
    ensures var usec := ToUsec(duration, den);
      if duration >= 0 then usec >= 0 && usec * den <= duration * MICRO < (usec + 1) * den
      else usec <= 0 && (usec - 1) * den < duration * MICRO <= usec * den
  {
    var size := if duration >= 0 then duration * MICRO else -(duration * MICRO);
    DivBounds(size, den);
    var q := size / den;
    assert (q + 1) * den == q * den + den;
    assert (-q - 1) * den == -(q * den) - den && (-q) * den == -(q * den);
  }

  lemma QuotientSign(a: nat, d: nat)
    requires d > 0
    ensures a / d >= 0
    ensures a / d == 0 <==> a < d
  {
    DivBounds(a, d);
    MulGap(0, a / d, d);
  }
}
