/**
 From seconds to flushes: pruneAfterFlushesFromEnv, with Go's 64-bit int, its division that truncates
 toward zero and the conversion to uint32 that keeps the low 32 bits.
 */
module PruneWindow {
  import opened Options
  import opened Word64

  const MAX_INT: int := 0x7FFF_FFFF_FFFF_FFFF
  const MAX_UINT32: int := 0xFFFF_FFFF
  const DEFAULT_FLUSH_INTERVAL_S: int := 5
  const DEFAULT_PRUNE_IDLE_SECONDS: int := 0

  type Int64 = x: int | -0x8000_0000_0000_0000 <= x <= 0x7FFF_FFFF_FFFF_FFFF

  /** An environment variable as envInt reads it: unset or empty, an int, or something else. */
  datatype EnvInt = Unset | Value(n: Int64) | Malformed {
    /** The int, or the default when the variable is unset; a parse error is None. */
    function Read(default: Int64): Option<Int64> {
      match this
      case Unset => Some(default)
      case Value(n) => Some(n)
      case Malformed => None
    }
  }

  /** The sum of two positive ints, wrapped. */
  function Sum64(a: int, b: int): Int64
    requires 0 <= a <= MAX_INT && 0 <= b <= MAX_INT
  {
    if a + b <= MAX_INT then a + b else a + b - MODULUS
  }

  function Truncated(a: int, b: int): int
    requires b > 0
  {
    if a >= 0 then a / b else -(-a / b)
  }

  function Flushes(seconds: Int64, interval: Int64): Uint32
    requires seconds > 0 && interval > 0
  {
    var n := Truncated(Sum64(seconds, interval - 1), interval);
    if n > MAX_UINT32 then MAX_UINT32 else n % 0x1_0000_0000
  }

  function PruneAfterFlushes(idleSeconds: EnvInt, flushInterval: EnvInt): Uint32 {
    var p := idleSeconds.Read(DEFAULT_PRUNE_IDLE_SECONDS);
    if p == None || p.value <= 0 then 0
    else
      var f := flushInterval.Read(DEFAULT_FLUSH_INTERVAL_S);
      Flushes(p.value, if f == None || f.value <= 0 then DEFAULT_FLUSH_INTERVAL_S else f.value)
  }

  /** The interval that counts is 5 seconds unless the variable holds a positive one. */
  predicate Interval(flushInterval: EnvInt, f: Int64) {
    if flushInterval.Value? && flushInterval.n > 0 then f == flushInterval.n else f == 5
  }

  lemma Multiply(a: int, b: int, f: int)
    requires a <= b && f > 0
    ensures a * f <= b * f
  {
  }

  lemma Ceiling(p: int, f: int)
    requires p > 0 && f > 0
    ensures var n := (p + f - 1) / f; n > 0 && (n - 1) * f < p <= n * f
  {
    var n := (p + f - 1) / f;
    assert p + f - 1 == n * f + (p + f - 1) % f;
    if n <= 0 {
      Multiply(n, 0, f);
    }
  }

  /**
   While the addition does not overflow the requested seconds are rounded up to whole flushes; an idle
   counter then survives the requested seconds if and only if that many flushes fit in a uint32.
   */
  lemma RoundsUp(seconds: Int64, interval: Int64)
    requires seconds > 0 && interval > 0 && seconds + interval - 1 <= MAX_INT
    ensures
      var n := Flushes(seconds, interval);
      n > 0 && (n - 1) * interval < seconds && (seconds <= n * interval <==> seconds <= MAX_UINT32 * interval)
  {
    Ceiling(seconds, interval);
    var n := (seconds + interval - 1) / interval;
    if n > MAX_UINT32 {
      Multiply(MAX_UINT32, n - 1, interval);
      Multiply(MAX_UINT32 - 1, MAX_UINT32, interval);
    } else {
      Multiply(n, MAX_UINT32, interval);
    }
  }

  predicate Overflows(seconds: Int64, interval: Int64) {
    seconds + interval - 1 > MAX_INT
  }

  /**
   When an idle counter survives the requested seconds. If the addition overflows it does so only for intervals
   of 2^32 seconds and more, or of 2^32 - 1 seconds with most requests.
   */
  predicate Honoured(seconds: Int64, interval: Int64)
    requires interval > 0
  {
    if Overflows(seconds, interval) then
      interval > MAX_UINT32 || (interval == MAX_UINT32 && seconds % MAX_UINT32 != 1 && seconds % MAX_UINT32 != 2)
    else seconds <= MAX_UINT32 * interval
  }

  /** With an interval below 2^31 seconds even MaxUint32 flushes are too few for an overflowing request. */
  lemma OverflowShort(seconds: Int64, interval: Int64)
    requires seconds > 0 && 0 < interval < 0x8000_0000 && Overflows(seconds, interval)
    ensures Flushes(seconds, interval) * interval < seconds
  {
    Multiply(Flushes(seconds, interval), MAX_UINT32, interval);
    assert MAX_UINT32 * interval <= MAX_UINT32 * 0x7FFF_FFFF;
  }

  /** The quotient of the wrapped sum, and the flushes it becomes. */
  lemma OverflowQuotient(seconds: Int64, interval: Int64) returns (q: nat, rest: nat)
    requires seconds > 0 && interval >= 0x8000_0000 && Overflows(seconds, interval)
    ensures MODULUS - (seconds + interval - 1) == q * interval + rest && rest < interval
    ensures q <= 0x1_0000_0000 && Flushes(seconds, interval) == (0x1_0000_0000 - q) % 0x1_0000_0000
  {
    var n := MODULUS - (seconds + interval - 1);
    q, rest := n / interval, n % interval;
    assert n == q * interval + rest;
    if q > 0x1_0000_0000 {
      Multiply(0x1_0000_0001, q, interval);
    }
    assert Truncated(Sum64(seconds, interval - 1), interval) + q == 0;
  }

  lemma OverflowLong(seconds: Int64, interval: Int64)
    requires seconds > 0 && interval >= 0x8000_0000 && Overflows(seconds, interval)
    ensures
      Flushes(seconds, interval) != 0 ==>
        (seconds <= Flushes(seconds, interval) * interval <==> Honoured(seconds, interval))
  {
    var q, rest := OverflowQuotient(seconds, interval);
    var f := Flushes(seconds, interval);
    if f == 0 {
      return;
    }
    assert f == 0x1_0000_0000 - q;
    assert f * interval == 0x1_0000_0000 * interval - q * interval;
    assert seconds <= f * interval <==> MODULUS + 1 <= 0x1_0000_0001 * interval + rest;
    if interval == MAX_UINT32 {
      assert rest == (2 - seconds) % MAX_UINT32 by {
        assert (2 - seconds) - rest == MAX_UINT32 * (q - 0x1_0000_0001 + 1);
      }
    }
  }

  /**
   The requested seconds against the flushes computed, for every request and every interval: unless the result
   is 0 and nothing is ever pruned, an idle counter survives that long if and only if the request is honoured.
   */
  lemma SurvivesRequest(seconds: Int64, interval: Int64)
    requires seconds > 0 && interval > 0 && Flushes(seconds, interval) != 0
    ensures seconds <= Flushes(seconds, interval) * interval <==> Honoured(seconds, interval)
  {
    if !Overflows(seconds, interval) {
      RoundsUp(seconds, interval);
    } else if interval < 0x8000_0000 {
      OverflowShort(seconds, interval);
    } else {
      OverflowLong(seconds, interval);
    }
  }

  /**
   What the environment gives: nothing is pruned unless a positive number of seconds is asked for; an interval
   that is unset, malformed or not positive counts as 5 seconds; and the seconds are rounded up to whole flushes.
   */
  lemma Environment(idleSeconds: EnvInt, flushInterval: EnvInt, interval: Int64)
    requires Interval(flushInterval, interval)
    ensures !(idleSeconds.Value? && idleSeconds.n > 0) ==> PruneAfterFlushes(idleSeconds, flushInterval) == 0
    ensures
      idleSeconds.Value? && idleSeconds.n > 0 && idleSeconds.n + interval - 1 <= MAX_INT ==>
        var n := PruneAfterFlushes(idleSeconds, flushInterval);
        && 0 < n <= MAX_UINT32 && (n - 1) * interval < idleSeconds.n
        && (idleSeconds.n <= n * interval || n == MAX_UINT32)
  {
    if idleSeconds.Value? && idleSeconds.n > 0 && idleSeconds.n + interval - 1 <= MAX_INT {
      RoundsUp(idleSeconds.n, interval);
      Ceiling(idleSeconds.n, interval);
    }
  }

  /**
   The comment in the source promises the rounding for all requests; past overflow it fails. Asking for
   2^63 - 1 seconds with the default interval prunes after far less.
   */
  lemma OverflowPrunesEarly()
    ensures
      var n := PruneAfterFlushes(Value(MAX_INT), Value(5));
      0 < n && n * 5 < MAX_INT
  {
  }
}
