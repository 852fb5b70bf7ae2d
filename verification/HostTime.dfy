/** CoreMIDI host times: tick counts converted to instants around one calibrated reference. */
module HostTime {
  import opened Bytes

  type U32 = x: int | 0 <= x < 0x1_0000_0000

  /** The timebase the kernel reports; the source raises a zero denominator to 1. */
  datatype Timebase = Timebase(numer: U32, denom: U32)

  /** A clock whose instants, in nanoseconds, lie between two bounds. */
  datatype Clock = Clock(first: int, last: int)

  datatype Calibration = Calibration(refHostTime: U64, refInstant: int)

  function Denominator(tb: Timebase): (d: int)
    ensures 1 <= d
  {
    if tb.denom < 1 then 1 else tb.denom
  }

  /** Whole nanoseconds, before the cast; the 128-bit product never overflows. */
  function ExactNanos(tb: Timebase, ticks: U64): nat {
    ticks * tb.numer / Denominator(tb)
  }

  /** `as u64`. */
  function HostTimeToNanos(tb: Timebase, ticks: U64): (n: int)
    ensures 0 <= n < TWO_64
  {
    ExactNanos(tb, ticks) % TWO_64
  }

  function CheckedAdd(clock: Clock, instant: int, nanos: int, fallback: int): int {
    if clock.first <= instant + nanos <= clock.last then instant + nanos else fallback
  }

  /** `now` stands for the current instant, which a zero host time means. */
  function ToInstant(tb: Timebase, clock: Clock, cal: Calibration, hostTime: U64, now: int): int {
    if hostTime == 0 then now
    else if hostTime >= cal.refHostTime then
      CheckedAdd(clock, cal.refInstant, HostTimeToNanos(tb, hostTime - cal.refHostTime), cal.refInstant)
    else
      CheckedAdd(clock, cal.refInstant, -HostTimeToNanos(tb, cal.refHostTime - hostTime), cal.refInstant)
  }

  // ---- When the conversion is exact -----------------------------------------------------------

  /** Ticks between a host time and the reference. */
  function Distance(cal: Calibration, hostTime: U64): U64 {
    if hostTime >= cal.refHostTime then hostTime - cal.refHostTime else cal.refHostTime - hostTime
  }

  /** The instant a host time ideally means, rounded towards the reference. */
  function Ideal(tb: Timebase, cal: Calibration, hostTime: U64): int {
    var nanos := ExactNanos(tb, Distance(cal, hostTime));
    if hostTime >= cal.refHostTime then cal.refInstant + nanos else cal.refInstant - nanos
  }

  /** The nanoseconds fit in 64 bits and the instant exists. */
  predicate Fits(tb: Timebase, clock: Clock, cal: Calibration, hostTime: U64) {
    && ExactNanos(tb, Distance(cal, hostTime)) < TWO_64
    && clock.first <= Ideal(tb, cal, hostTime) <= clock.last
  }

  /**
    The cast and the fallback are harmless exactly when the nanoseconds fit and the instant exists. If only the instant
    does not exist, the reference stands for it; a zero host time means now, and a zero denominator one.
    */
  lemma ExactIffFits(tb: Timebase, clock: Clock, cal: Calibration, hostTime: U64, now: int)
    requires clock.first <= cal.refInstant <= clock.last
    ensures var t := ToInstant(tb, clock, cal, hostTime, now);
            && (hostTime == 0 ==> t == now)
            && (hostTime != 0 ==> (t == Ideal(tb, cal, hostTime) <==> Fits(tb, clock, cal, hostTime)))
            && (hostTime != 0 && !Fits(tb, clock, cal, hostTime) && ExactNanos(tb, Distance(cal, hostTime)) < TWO_64 ==>
                  t == cal.refInstant)
            && (tb.denom == 0 ==> t == ToInstant(Timebase(tb.numer, 1), clock, cal, hostTime, now))
  {
    var nanos := ExactNanos(tb, Distance(cal, hostTime));
    assert nanos < TWO_64 ==> nanos % TWO_64 == nanos;
  }

  lemma QuotientBounds(x: nat, d: int)
    requires d > 0
    ensures x / d * d <= x < (x / d + 1) * d
  {
    assert x == x / d * d + x % d;
    assert (x / d + 1) * d == x / d * d + d;
  }

  /** A host time that fits lies as many whole nanoseconds from the reference as its ticks make, rounded towards it. */
  lemma RoundsTowardsReference(tb: Timebase, clock: Clock, cal: Calibration, hostTime: U64, now: int)
    requires hostTime != 0 && clock.first <= cal.refInstant <= clock.last && Fits(tb, clock, cal, hostTime)
    ensures var t, d := ToInstant(tb, clock, cal, hostTime, now), if tb.denom == 0 then 1 else tb.denom;
            && (hostTime >= cal.refHostTime ==>
                  && 0 <= t - cal.refInstant
                  && (t - cal.refInstant) * d
                     <= (hostTime - cal.refHostTime) * tb.numer
                     < (t - cal.refInstant + 1) * d)
            && (hostTime < cal.refHostTime ==>
                  && 0 <= cal.refInstant - t
                  && (cal.refInstant - t) * d
                     <= (cal.refHostTime - hostTime) * tb.numer
                     < (cal.refInstant - t + 1) * d)
  {
    hide ToInstant, Fits;
    ExactIffFits(tb, clock, cal, hostTime, now);
    QuotientBounds(Distance(cal, hostTime) * tb.numer, Denominator(tb));
  }

  // ---- Rounding -------------------------------------------------------------------------------

  /** Division of a sum differs from the sum of the divisions by less than one. */
  lemma DivSum(a: int, b: int, d: int)
    requires 0 <= a && 0 <= b && d > 0
    ensures a / d + b / d <= (a + b) / d <= a / d + b / d + 1
  {
    var r := a % d + b % d;
    assert a + b == (a / d + b / d) * d + r;
    if r < d {
      QuotientIs(a + b, d, a / d + b / d, r);
    } else {
      assert a + b == (a / d + b / d + 1) * d + (r - d);
      QuotientIs(a + b, d, a / d + b / d + 1, r - d);
    }
  }

  lemma ProductMonotone(a: int, b: int, d: int)
    requires a <= b && d > 0
    ensures a * d <= b * d
  {
  }

  lemma QuotientIs(x: int, d: int, q: int, r: int)
    requires d > 0 && 0 <= r < d && x == q * d + r
    ensures x / d == q
  {
    var q' := x / d;
    assert x == q' * d + x % d;
    if q > q' {
      ProductMonotone(q' + 1, q, d);
    } else if q < q' {
      ProductMonotone(q + 1, q', d);
    }
  }

  lemma NanosSum(tb: Timebase, x: U64, y: U64)
    requires x + y < TWO_64
    ensures ExactNanos(tb, x) + ExactNanos(tb, y) <= ExactNanos(tb, x + y) <= ExactNanos(tb, x) + ExactNanos(tb, y) + 1
  {
    assert (x + y) * tb.numer == x * tb.numer + y * tb.numer;
    DivSum(x * tb.numer, y * tb.numer, Denominator(tb));
  }

  /**
    Order and distance survive: for nonzero host times that fit, on either side of the reference or across it, later
    ticks give no earlier instants, and the gap between two instants is within a nanosecond of the converted gap.
    */
  lemma MonotoneAndClose(tb: Timebase, clock: Clock, cal: Calibration, t1: U64, t2: U64, now: int)
    requires 0 < t1 <= t2 && clock.first <= cal.refInstant <= clock.last
    requires Fits(tb, clock, cal, t1) && Fits(tb, clock, cal, t2)
    ensures var i1, i2 := ToInstant(tb, clock, cal, t1, now), ToInstant(tb, clock, cal, t2, now);
            i1 <= i2 && ExactNanos(tb, t2 - t1) - 1 <= i2 - i1 <= ExactNanos(tb, t2 - t1) + 1
  {
    hide ExactNanos, ToInstant, Fits;
    ExactIffFits(tb, clock, cal, t1, now);
    ExactIffFits(tb, clock, cal, t2, now);
    if t1 >= cal.refHostTime {
      NanosSum(tb, t1 - cal.refHostTime, t2 - t1);
    } else if t2 < cal.refHostTime {
      NanosSum(tb, cal.refHostTime - t2, t2 - t1);
    } else {
      NanosSum(tb, t2 - cal.refHostTime, cal.refHostTime - t1);
    }
  }

  // ---- When order holds -----------------------------------------------------------------------

  /** About eight seconds on either side of the reference: one tick is less than half of it. */
  const ROOM: int := 0x2_0000_0000

  predicate Roomy(clock: Clock, cal: Calibration) {
    clock.first + ROOM <= cal.refInstant <= clock.last - ROOM
  }

  /** Later nonzero host times never give earlier instants. */
  ghost predicate Monotone(tb: Timebase, clock: Clock, cal: Calibration, now: int) {
    forall t1: U64, t2: U64 | 0 < t1 <= t2 ::
      ToInstant(tb, clock, cal, t1, now) <= ToInstant(tb, clock, cal, t2, now)
  }

  lemma NanosStep(tb: Timebase, ticks: U64)
    requires ticks + 1 < TWO_64
    ensures ExactNanos(tb, ticks) <= ExactNanos(tb, ticks + 1) <= ExactNanos(tb, ticks) + 0x1_0000_0000
  {
    NanosSum(tb, ticks, 1);
    OneTick(tb);
  }

  lemma OneTick(tb: Timebase)
    ensures ExactNanos(tb, 0) == 0 && ExactNanos(tb, 1) <= tb.numer
  {
  }

  /** After the last host time that fits, time jumps back: the cast wraps, or the instant falls back. */
  lemma UpperEdge(tb: Timebase, clock: Clock, cal: Calibration, t: U64, now: int)
    requires Roomy(clock, cal) && cal.refHostTime <= t && 0 < t && t + 1 < TWO_64
    requires Fits(tb, clock, cal, t) && !Fits(tb, clock, cal, t + 1)
    ensures ToInstant(tb, clock, cal, t + 1, now) < ToInstant(tb, clock, cal, t, now)
  {
    hide ExactNanos;
    NanosStep(tb, t - cal.refHostTime);
    ExactIffFits(tb, clock, cal, t, now);
    var nanos := ExactNanos(tb, t + 1 - cal.refHostTime);
    if nanos >= TWO_64 {
      assert nanos % TWO_64 == nanos - TWO_64;
    }
  }

  /** Before the first host time that fits, time jumps forward. */
  lemma LowerEdge(tb: Timebase, clock: Clock, cal: Calibration, t: U64, now: int)
    requires Roomy(clock, cal) && 1 < t <= cal.refHostTime
    requires Fits(tb, clock, cal, t) && !Fits(tb, clock, cal, t - 1)
    ensures ToInstant(tb, clock, cal, t, now) < ToInstant(tb, clock, cal, t - 1, now)
  {
    hide ExactNanos;
    OneTick(tb);
    NanosStep(tb, cal.refHostTime - t);
    ExactIffFits(tb, clock, cal, t, now);
    var nanos := ExactNanos(tb, cal.refHostTime - (t - 1));
    if nanos >= TWO_64 {
      assert nanos % TWO_64 == nanos - TWO_64;
    }
  }

  lemma FindUpperEdge(tb: Timebase, clock: Clock, cal: Calibration, lo: U64, hi: U64) returns (t: U64)
    requires lo < hi && Fits(tb, clock, cal, lo) && !Fits(tb, clock, cal, hi)
    ensures lo <= t < hi && Fits(tb, clock, cal, t) && !Fits(tb, clock, cal, t + 1)
    decreases hi - lo
  {
    if Fits(tb, clock, cal, hi - 1) {
      t := hi - 1;
    } else {
      t := FindUpperEdge(tb, clock, cal, lo, hi - 1);
    }
  }

  lemma FindLowerEdge(tb: Timebase, clock: Clock, cal: Calibration, lo: U64, hi: U64) returns (t: U64)
    requires lo < hi && !Fits(tb, clock, cal, lo) && Fits(tb, clock, cal, hi)
    ensures lo < t <= hi && !Fits(tb, clock, cal, t - 1) && Fits(tb, clock, cal, t)
    decreases hi - lo
  {
    if Fits(tb, clock, cal, lo + 1) {
      t := lo + 1;
    } else {
      t := FindLowerEdge(tb, clock, cal, lo + 1, hi);
    }
  }

  /** A host time no further from the reference, on the same side, fits as well. */
  lemma NearerFits(tb: Timebase, clock: Clock, cal: Calibration, t: U64, far: U64)
    requires cal.refHostTime <= t <= far || far <= t < cal.refHostTime
    requires clock.first <= cal.refInstant <= clock.last && Fits(tb, clock, cal, far)
    ensures Fits(tb, clock, cal, t)
  {
    hide ExactNanos;
    var near, gap := Distance(cal, t), Distance(cal, far) - Distance(cal, t);
    NanosSum(tb, near, gap);
  }

  /** The reference itself, and the tick after it, fit on a roomy clock. */
  lemma StartFits(tb: Timebase, clock: Clock, cal: Calibration, t: U64)
    requires Roomy(clock, cal) && cal.refHostTime <= t <= cal.refHostTime + 1
    ensures Fits(tb, clock, cal, t)
  {
    OneTick(tb);
  }

  /**
    Order over all nonzero host times holds exactly when the two extreme ones fit: that their nanoseconds fit in
    64 bits and their instants exist. If not, there is a tick at which time runs backwards.
    */
  lemma OrderIffExtremesFit(tb: Timebase, clock: Clock, cal: Calibration, now: int)
    requires Roomy(clock, cal)
    ensures Monotone(tb, clock, cal, now) <==> Fits(tb, clock, cal, 1) && Fits(tb, clock, cal, TWO_64 - 1)
  {
    hide Fits, ToInstant;
    if Fits(tb, clock, cal, 1) && Fits(tb, clock, cal, TWO_64 - 1) {
      forall t1: U64, t2: U64 | 0 < t1 <= t2
        ensures ToInstant(tb, clock, cal, t1, now) <= ToInstant(tb, clock, cal, t2, now)
      {
        NearerFits(tb, clock, cal, t1, if cal.refHostTime <= t1 then TWO_64 - 1 else 1);
        NearerFits(tb, clock, cal, t2, if cal.refHostTime <= t2 then TWO_64 - 1 else 1);
        MonotoneAndClose(tb, clock, cal, t1, t2, now);
      }
    } else if !Fits(tb, clock, cal, TWO_64 - 1) {
      var first: U64 := if cal.refHostTime == 0 then 1 else cal.refHostTime;
      StartFits(tb, clock, cal, first);
      var t := FindUpperEdge(tb, clock, cal, first, TWO_64 - 1);
      UpperEdge(tb, clock, cal, t, now);
    } else {
      if cal.refHostTime <= 1 {
        StartFits(tb, clock, cal, 1);
      } else {
        StartFits(tb, clock, cal, cal.refHostTime);
        var t := FindLowerEdge(tb, clock, cal, 1, cal.refHostTime);
        LowerEdge(tb, clock, cal, t, now);
      }
    }
  }

  // ---- Where it breaks ------------------------------------------------------------------------

  /** With 125/3 nanoseconds to a tick, the last distance whose nanoseconds fit in 64 bits. */
  const LAST_TICK: int := (3 * TWO_64 - 1) / 125

  /** The 64-bit wrap at that timebase, on every clock that could show later instants: one tick more goes back. */
  lemma WrapBreaksOrder(clock: Clock, cal: Calibration, now: int)
    requires Roomy(clock, cal) && cal.refInstant + TWO_64 <= clock.last
    requires cal.refHostTime + LAST_TICK + 1 < TWO_64
    ensures var t: U64 := cal.refHostTime + LAST_TICK;
            ToInstant(Timebase(125, 3), clock, cal, t + 1, now) < ToInstant(Timebase(125, 3), clock, cal, t, now)
  {
    UpperEdge(Timebase(125, 3), clock, cal, cal.refHostTime + LAST_TICK, now);
  }

  /** The end of any clock: one tick past it falls back to the reference. */
  lemma FallbackBreaksOrder(clock: Clock, cal: Calibration, now: int)
    requires clock.first <= cal.refInstant < clock.last
    requires cal.refHostTime + (clock.last - cal.refInstant) + 1 < TWO_64
    ensures var t: U64 := cal.refHostTime + (clock.last - cal.refInstant);
            && ToInstant(Timebase(1, 1), clock, cal, t, now) == clock.last
            && ToInstant(Timebase(1, 1), clock, cal, t + 1, now) == cal.refInstant
  {
  }
}
