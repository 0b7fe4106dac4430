/** Time-zone-aware timestamps, as the store returns them (in UTC).
    A timestamp is split into the whole hours since the epoch and the
    minute, second and microsecond inside that hour, so that Python's
    `ts.replace(minute=..., second=0, microsecond=0)` is a field update. */
module Time {

  type Minute = m: int | 0 <= m < 60
  type Second = s: int | 0 <= s < 60
  type Micro = u: int | 0 <= u < 1000000

  /** A bucket width in minutes. */
  type Width = w: int | 0 < w witness 5

  datatype DateTime = DateTime(hours: int, minute: Minute, second: Second, micro: Micro)

  const MicrosPerSecond := 1000000
  const MicrosPerMinute := 60 * MicrosPerSecond
  const MicrosPerHour := 60 * MicrosPerMinute
  const MicrosPerDay := 24 * MicrosPerHour

  /** The instant as microseconds since the epoch; timestamps compare by it. */
  function Ticks(t: DateTime): int
  {
    t.hours * MicrosPerHour + t.minute * MicrosPerMinute + t.second * MicrosPerSecond + t.micro
  }

  lemma {:induction false} MulAtLeast(k: int, n: int)
    requires k >= 1 && n >= 0
    ensures k * n >= n
  {
    if k > 1 {
      MulAtLeast(k - 1, n);
      assert k * n == (k - 1) * n + n;
    }
  }

  /** A number written with digit `x` below base `n` has a unique such form. */
  lemma MixedRadix(a: int, x: int, b: int, y: int, n: int)
    requires 0 < n && 0 <= x < n && 0 <= y < n
    requires a * n + x == b * n + y
    ensures a == b && x == y
  {
    if a > b {
      MulAtLeast(a - b, n);
    } else if a < b {
      MulAtLeast(b - a, n);
    }
  }

  /** Flooring `m` to a multiple of `w`. */
  lemma FloorToMultiple(m: nat, w: Width)
    ensures 0 <= (m / w) * w <= m < (m / w) * w + w
    ensures ((m / w) * w) % w == 0 && ((m / w) * w) / w == m / w
  {
    var q := m / w;
    var r := q * w;
    assert m == q * w + m % w;
    assert r == (r / w) * w + r % w;
    MixedRadix(q, 0, r / w, r % w, w);
  }

  /** Distinct timestamps are distinct instants. */
  lemma TicksInjective(a: DateTime, b: DateTime)
    requires Ticks(a) == Ticks(b)
    ensures a == b
  {
    MixedRadix((a.hours * 60 + a.minute) * 60 + a.second, a.micro,
               (b.hours * 60 + b.minute) * 60 + b.second, b.micro, MicrosPerSecond);
    MixedRadix(a.hours * 60 + a.minute, a.second, b.hours * 60 + b.minute, b.second, 60);
    MixedRadix(a.hours, a.minute, b.hours, b.minute, 60);
  }

  /** The start of the `width`-minute bucket holding `t`: the minute floored
      to a multiple of `width`, seconds and microseconds set to zero. */
  function BucketKey(t: DateTime, width: Width): (k: DateTime)
    ensures k.hours == t.hours && k.second == 0 && k.micro == 0
    ensures k.minute % width == 0 && k.minute <= t.minute < k.minute + width
  {
    FloorToMultiple(t.minute, width);
    t.(minute := (t.minute / width) * width, second := 0, micro := 0)
  }

  /** The bucket starts no later than the timestamp and ends `width` minutes
      after its start. */
  lemma BucketBounds(t: DateTime, width: Width)
    ensures Ticks(BucketKey(t, width)) <= Ticks(t)
    ensures Ticks(t) < Ticks(BucketKey(t, width)) + width * MicrosPerMinute
  {
    var k := BucketKey(t, width);
    var d := t.minute - k.minute;
    assert 0 <= d < width;
    assert Ticks(t) - Ticks(k) == d * MicrosPerMinute + t.second * MicrosPerSecond + t.micro;
    assert t.second * MicrosPerSecond + t.micro < MicrosPerMinute;
    assert d * MicrosPerMinute + MicrosPerMinute <= width * MicrosPerMinute;
  }

  /** Two timestamps share a bucket exactly when they share the hour and the
      quotient of their minute by the width. */
  lemma SameBucket(a: DateTime, b: DateTime, width: Width)
    ensures BucketKey(a, width) == BucketKey(b, width)
        <==> a.hours == b.hours && a.minute / width == b.minute / width
  {
    var x, y := a.minute / width, b.minute / width;
    if x * width == y * width {
      MixedRadix(x, 0, y, 0, width);
    }
  }

  /** Bucketing a bucket start changes nothing. */
  lemma BucketIdempotent(t: DateTime, width: Width)
    ensures BucketKey(BucketKey(t, width), width) == BucketKey(t, width)
  {
    FloorToMultiple(t.minute, width);
  }
}
