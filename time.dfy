/** `std::time::Duration`, as a natural number of nanoseconds. */
module Time {

  /** A span of time in nanoseconds. Rust keeps whole seconds and the nanoseconds
      below one second separately; `Secs` and `SubsecNanos` recover those parts. */
  type Duration = nat

  const NanosPerSec: nat := 1_000_000_000

  function Seconds(n: nat): (d: Duration)
    ensures d / NanosPerSec == n && d % NanosPerSec == 0
  {
    n * NanosPerSec
  }

  function Minutes(n: nat): Duration {
    Seconds(60 * n)
  }

  function Hours(n: nat): Duration {
    Minutes(60 * n)
  }

  /** `Duration::as_secs`: the whole seconds. */
  function Secs(d: Duration): nat {
    d / NanosPerSec
  }

  /** `Duration::subsec_nanos`: the nanoseconds below one second. */
  function SubsecNanos(d: Duration): nat {
    d % NanosPerSec
  }

  /** `Duration / u32` in the older form of the standard library's `checked_div`,
      which carries only the remainder of the seconds: the seconds are divided, the
      seconds left over (`secs - q * rhs`, the remainder) are carried into
      nanoseconds and divided separately, and the two nanosecond quotients are
      added. Later versions also carry the remainder of the sub-second
      nanoseconds; without that the result can be one nanosecond below the exact
      quotient, though never for a divisor of ten (`DivTenIsFloor`). Division by
      zero panics in Rust, hence the precondition. */
  function DivU32(d: Duration, rhs: nat): (r: Duration)
    requires 0 < rhs < 0x1_0000_0000
    ensures r <= d / rhs <= r + 1
  {
    var secs: nat := Secs(d) / rhs;
    var carry: nat := Secs(d) % rhs;
    var extraNanos: nat := carry * NanosPerSec / rhs;
    var nanos: nat := SubsecNanos(d) / rhs + extraNanos;
    DivSplit(d, rhs);
    FloorSum(carry * NanosPerSec, SubsecNanos(d), rhs);
    secs * NanosPerSec + nanos
  }

  /** Dividing the whole seconds and the carried and sub-second nanoseconds
      separately. */
  lemma {:induction false} DivSplit(d: Duration, rhs: nat)
    requires 0 < rhs
    ensures var q, c, n := Secs(d) / rhs, Secs(d) % rhs, SubsecNanos(d);
      d / rhs == q * NanosPerSec + (c * NanosPerSec + n) / rhs
  {
    var s, n := Secs(d), SubsecNanos(d);
    var q, c := s / rhs, s % rhs;
    assert d == s * NanosPerSec + n;
    assert s == q * rhs + c;
    assert d == (q * NanosPerSec) * rhs + (c * NanosPerSec + n);
    DivAddMultiple(q * NanosPerSec, rhs, c * NanosPerSec + n);
  }

  lemma DivAddMultiple(k: nat, m: nat, x: nat)
    requires 0 < m
    ensures (k * m + x) / m == k + x / m
  {
    DivUnique(k * m + x, m, k + x / m, x % m);
  }

  /** Euclidean division is determined by quotient and remainder. */
  lemma DivUnique(y: nat, m: nat, q: nat, r: nat)
    requires 0 <= r < m && y == q * m + r
    ensures y / m == q
  {
    var q', r' := y / m, y % m;
    assert (q - q') * m == r' - r;
    if q > q' {
      MulAtLeast(q - q', m);
    } else if q < q' {
      MulAtLeast(q' - q, m);
    }
  }

  lemma MulAtLeast(a: int, m: nat)
    requires a >= 1
    ensures a * m >= m
  {
  }

  /** Two quotients taken apart lose at most one against the quotient of the sum. */
  lemma FloorSum(a: nat, b: nat, m: nat)
    requires 0 < m
    ensures a / m + b / m <= (a + b) / m <= a / m + b / m + 1
  {
    var qa, ra, qb, rb := a / m, a % m, b / m, b % m;
    MulAdd(qa, qb, m);
    MulAdd(qa + qb, 1, m);
    var q := if ra + rb < m then qa + qb else qa + qb + 1;
    DivUnique(a + b, m, q, ra + rb - (q - qa - qb) * m);
  }

  lemma MulAdd(x: nat, y: nat, m: nat)
    ensures (x + y) * m == x * m + y * m
  {
  }

  /** Dividing a duration by ten with Rust's algorithm loses nothing beyond
      truncation: the result is the floor of the nanoseconds over ten. */
  lemma {:induction false} DivTenIsFloor(d: Duration)
    ensures DivU32(d, 10) == d / 10
  {
    var s, n := Secs(d), SubsecNanos(d);
    var q, c := s / 10, s % 10;
    assert d == s * NanosPerSec + n;
    assert s - q * 10 == c;
    assert c * NanosPerSec / 10 == c * 100_000_000;
    assert d == (q * NanosPerSec + c * 100_000_000) * 10 + n;
    assert d / 10 == q * NanosPerSec + c * 100_000_000 + n / 10;
  }

  /** `std::cmp::max` on durations. */
  function Max(a: Duration, b: Duration): (r: Duration)
    ensures r >= a && r >= b && (r == a || r == b)
  {
    if b >= a then b else a
  }
}
