/**
 * Re-arming of recurring reminders. Times and durations are in nanoseconds; the code computes in
 * milliseconds.
 */
module Reminders {
  import opened Wrappers
  import opened Durations

  const MILLI: int := 1_000_000

  const SECOND: int := 1_000 * MILLI

  /** The longest duration the clock library represents. */
  const LONGEST: int := 0x7FFF_FFFF_FFFF_FFFF * MILLI

  /** Cron expressions are not part of this model. */
  datatype ScheduleKind = OneShot | Interval(duration: nat)

  datatype ScheduleError = BadInterval(error: DurationError) | TooShort(seconds: nat)

  // ----- Computing the next fire time

  /** `num_milliseconds` of a duration: truncated toward zero. */
  function Millis(d: int): int {
    if d >= 0 then d / MILLI else -((-d) / MILLI)
  }

  function Max(a: int, b: int): int {
    if a >= b then a else b
  }

  function NextAfter(kind: ScheduleKind, lastFire: int, now: int): (r: Option<int>)
    ensures r.Some? ==> r.value > now && r.value > lastFire
  {
    match kind
    case OneShot => None
    case Interval(d) =>
      if d > LONGEST || d <= 0 then None
      else if lastFire + d > now then Some(lastFire + d)
      else
        var elapsed := Max(Millis(now - lastFire), 0);
        var step := Max(Millis(d), 1);
        var skips := elapsed / step + 1;
        SkipsPass(now - lastFire, step);
        Some(lastFire + skips * step * MILLI)
  }

  lemma SkipsPass(elapsed: int, step: int)
    requires elapsed >= 0 && step >= 1
    ensures (Millis(elapsed) / step + 1) * step * MILLI > elapsed
  {
    var e := Millis(elapsed);
    assert (e / step + 1) * step >= e + 1 by {
      assert e == (e / step) * step + e % step;
    }
  }

  // ----- The least grid point after now

  /** `next` is `last + k * d` for the least `k >= 1` that is after `now`. */
  ghost predicate IsLeastAfter(last: int, d: int, now: int, next: int) {
    && next > now
    && exists k: int :: k >= 1 && next == Grid(last, d, k) && (k == 1 || Grid(last, d, k - 1) <= now)
  }

  function Grid(last: int, d: int, k: int): int {
    last + k * d
  }

  predicate WholeMillis(d: int) {
    d % MILLI == 0
  }

  lemma WholeMillisIsLeast(d: nat, last: int, now: int)
    requires 0 < d <= LONGEST && WholeMillis(d)
    ensures IsLeastAfter(last, d, now, NextAfter(Interval(d), last, now).value)
  {
    var next := NextAfter(Interval(d), last, now).value;
    if last + d > now {
      assert next == Grid(last, d, 1);
    } else {
      var e, step := Millis(now - last), d / MILLI;
      var k := e / step + 1;
      assert d == step * MILLI;
      assert next == Grid(last, d, k) by {
        assert k * step * MILLI == k * (step * MILLI);
      }
      assert Grid(last, d, k - 1) <= now by {
        assert (e / step) * step <= e;
        assert (k - 1) * d == (e / step) * step * MILLI;
      }
    }
  }

  /** An interval that is no whole number of milliseconds leaves the grid. */
  lemma OtherwiseLeavesGrid(d: nat) returns (now: int)
    requires 0 < d <= LONGEST && !WholeMillis(d)
    ensures !IsLeastAfter(0, d, now, NextAfter(Interval(d), 0, now).value)
  {
    var q := d / MILLI;
    assert d == q * MILLI + d % MILLI;
    if q >= 1 {
      now := d;
      assert Millis(now) / q == 1;
      assert NextAfter(Interval(d), 0, now).value == 2 * q * MILLI;
      OffGrid(d, now, 2 * q * MILLI, 1);
    } else {
      now := 2 * d;
      var e := Millis(now);
      assert e == 0 || e == 1;
      assert NextAfter(Interval(d), 0, now).value == (e + 1) * MILLI;
      OffGrid(d, now, (e + 1) * MILLI, 2);
    }
  }

  lemma OffGrid(d: nat, now: int, next: int, j: int)
    requires d > 0 && j >= 1 && now == j * d && next > now && next != (j + 1) * d
    ensures !IsLeastAfter(0, d, now, next)
  {
    forall k: int | k >= 1 && next == Grid(0, d, k) ensures k != 1 && Grid(0, d, k - 1) > now {
      if k <= j {
        TimesMonotone(k, j, d);
      } else {
        assert k >= j + 2;
        TimesMonotone(j + 1, k - 1, d);
        assert (j + 1) * d == j * d + d;
      }
    }
  }

  lemma TimesMonotone(a: int, b: int, d: nat)
    requires a <= b
    ensures a * d <= b * d
  {
    assert b * d - a * d == (b - a) * d;
  }

  /** The re-arm lands on the least grid point, for every clock reading, exactly for whole milliseconds. */
  lemma LeastIffWholeMillis(d: nat)
    requires 0 < d <= LONGEST
    ensures (forall last: int, now: int :: IsLeastAfter(last, d, now, NextAfter(Interval(d), last, now).value))
       <==> WholeMillis(d)
  {
    if WholeMillis(d) {
      forall last: int, now: int ensures IsLeastAfter(last, d, now, NextAfter(Interval(d), last, now).value) {
        WholeMillisIsLeast(d, last, now);
      }
    } else {
      var now := OtherwiseLeavesGrid(d);
    }
  }

  // ----- Firing again and again

  lemma RearmsIff(kind: ScheduleKind, lastFire: int, now: int)
    ensures NextAfter(kind, lastFire, now).Some? <==> kind.Interval? && 0 < kind.duration <= LONGEST
  {
  }

  /** The fire time after re-arming at each of `nows` in turn. */
  function FireAt(d: nat, first: int, nows: seq<int>): int
    requires 0 < d <= LONGEST
  {
    if nows == [] then first
    else NextAfter(Interval(d), FireAt(d, first, nows[..|nows| - 1]), nows[|nows| - 1]).value
  }

  ghost predicate OnGrid(d: nat, first: int, least: nat, t: int) {
    exists k: int :: k >= least && t == Grid(first, d, k)
  }

  /**
   * Whatever the clock reads at each firing, a reminder stays on the grid of its first fire time,
   * moves forward, and skips only grid points that are past: missed firings collapse into one.
   */
  lemma {:induction false} FiresOnGrid(d: nat, first: int, nows: seq<int>)
    requires 0 < d <= LONGEST && WholeMillis(d)
    ensures OnGrid(d, first, |nows|, FireAt(d, first, nows))
    ensures nows != [] ==>
              var before := FireAt(d, first, nows[..|nows| - 1]);
              && FireAt(d, first, nows) > before
              && IsLeastAfter(before, d, nows[|nows| - 1], FireAt(d, first, nows))
  {
    if nows == [] {
      assert first == Grid(first, d, 0);
    } else {
      var before, now := FireAt(d, first, nows[..|nows| - 1]), nows[|nows| - 1];
      FiresOnGrid(d, first, nows[..|nows| - 1]);
      WholeMillisIsLeast(d, before, now);
      var j: int :| j >= |nows| - 1 && before == Grid(first, d, j);
      var k: int :| k >= 1 && FireAt(d, first, nows) == Grid(before, d, k);
      assert Grid(before, d, k) == Grid(first, d, j + k) by {
        assert (j + k) * d == j * d + k * d;
      }
    }
  }

  // ----- Accepted intervals

  method ParseScheduleKind(interval: Option<string>) returns (r: Result<ScheduleKind, ScheduleError>)
    ensures interval.None? ==> r == Success(OneShot)
    ensures interval.Some? ==>
              match Scan("", interval.value, false)
              case Failure(e) => r == Failure(BadInterval(e))
              case Success(parts) =>
                && AreParts(parts)
                && r == (if Seconds(parts) % U64 < 60 then Failure(TooShort(Seconds(parts) % U64))
                         else Success(Interval(Seconds(parts) % U64 * SECOND)))
  {
    if interval.None? {
      return Success(OneShot);
    }
    var parsed := ParseDurationSecs(interval.value);
    match parsed
    case Failure(e) =>
      r := Failure(BadInterval(e));
    case Success(seconds) =>
      if seconds < 60 {
        return Failure(TooShort(seconds));
      }
      r := Success(Interval(seconds * SECOND));
  }

  /**
   * An accepted interval is a whole number of milliseconds, so it fires on its grid; it fires again at
   * all exactly when it is no longer than the clock library can represent.
   */
  lemma AcceptedIntervals(seconds: nat, lastFire: int, now: int)
    requires seconds >= 60
    ensures var d := seconds * SECOND;
            && WholeMillis(d)
            && (NextAfter(Interval(d), lastFire, now).Some? <==> seconds <= 0x7FFF_FFFF_FFFF_FFFF / 1_000)
            && (NextAfter(Interval(d), lastFire, now).Some? ==>
                  IsLeastAfter(lastFire, d, now, NextAfter(Interval(d), lastFire, now).value))
  {
    var d := seconds * SECOND;
    assert d == seconds * 1_000 * MILLI;
    RearmsIff(Interval(d), lastFire, now);
    if d <= LONGEST {
      WholeMillisIsLeast(d, lastFire, now);
    }
  }
}
