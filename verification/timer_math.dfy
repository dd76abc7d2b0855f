/**
 Arithmetic shared by both timer libraries: the prescaler a requested tick
 frequency leads to, the frequency the timer then actually runs at, and
 the wrap-around correction that turns two input-capture readings into a
 pulse width. All quantities are `uint32` values in the firmware; every
 division here is C's unsigned division, which on non-negative operands
 agrees with Dafny's.
 */
module TimerMath {

  /** The counter width of a timer peripheral. */
  datatype Resolution = Tim16 | Tim32

  /** The largest auto-reload value the counter can hold. */
  function FullRange(res: Resolution): (top: nat)
    ensures top == if res == Tim16 then 0xFFFF else 0xFFFF_FFFF
  {
    match res
    case Tim16 => 0xFFFF
    case Tim32 => 0xFFFF_FFFF
  }

  /** The timer input clock: HCLK divided by the APB bus division factor. */
  function MaxFrequency(hclk: nat, apbDiv: nat): (maxf: nat)
    requires apbDiv > 0
    ensures maxf <= hclk
  {
    DivAtMost(hclk, apbDiv);
    hclk / apbDiv
  }

  /** `max / f - 1`: the prescaler for a requested tick frequency `f`. */
  function PrescalerFor(maxf: nat, f: nat): int
    requires 0 < f
  {
    maxf / f - 1
  }

  /** `max / (prescaler + 1)`: the tick frequency a prescaler produces. */
  function ActualFrequency(maxf: nat, prescaler: nat): nat {
    maxf / (prescaler + 1)
  }

  /**
   For a request `f` the timer can reach, the prescaler is a valid
   register value and the resulting tick frequency is never slower than
   requested and never faster than the input clock.
   */
  lemma PrescaledFrequencyBounds(maxf: nat, f: nat)
    requires 0 < f <= maxf
    ensures 0 <= PrescalerFor(maxf, f) < maxf
    ensures f <= ActualFrequency(maxf, PrescalerFor(maxf, f)) <= maxf
  {
    var q := maxf / f;
    DivAtLeast(maxf, f, 1);
    DivAtMost(maxf, f);
    assert q * f <= maxf by {
      assert maxf == q * f + maxf % f;
    }
    DivAtLeast(maxf, q, f);
    DivAtMost(maxf, q);
    assert q - 1 < maxf;
  }

  /** If `c` copies of `b` fit in `a`, the quotient `a / b` is at least `c`. */
  lemma DivAtLeast(a: nat, b: nat, c: nat)
    requires b > 0 && c * b <= a
    ensures a / b >= c
  {
    var k := a / b;
    assert a == k * b + a % b;
    if k < c {
      assert (k + 1) * b == k * b + b;
      MulLeRight(k + 1, c, b);
    }
  }

  /** Dividing by at least one never increases a natural number. */
  lemma DivAtMost(a: nat, b: nat)
    requires b > 0
    ensures a / b <= a
  {
    var k := a / b;
    assert a == k * b + a % b;
    MulLeRight(1, b, k);
  }

  /** Multiplication by a non-negative factor is monotone. */
  lemma MulLeRight(x: int, y: int, m: nat)
    requires x <= y
    ensures x * m <= y * m
  {
    assert y * m - x * m == (y - x) * m;
  }

  /**
   The pulse width computed from a capture and the first edge: their
   difference, plus one counter period (`ARR + 1`) when the counter has
   wrapped in between.
   */
  function WrappedWidth(capture: int, first: int, arr: nat): (w: int)
    ensures 0 <= capture <= arr && 0 <= first <= arr ==> 0 <= w <= arr
    ensures capture >= first ==> w == capture - first
    ensures capture < first ==> w == capture - first + arr + 1
  {
    var d := capture - first;
    if d < 0 then d + arr + 1 else d
  }

  /**
   A pulse lasting `d` ticks, shorter than one counter period, is measured
   exactly: the counter reads `a mod (ARR+1)` at the first edge and
   `(a + d) mod (ARR+1)` at the second, wherever in the period it started.
   */
  lemma WrappedWidthRecoversTicks(a: int, d: nat, arr: nat)
    requires d <= arr
    ensures WrappedWidth((a + d) % (arr + 1), a % (arr + 1), arr) == d
  {
    var m := arr + 1;
    var q, r := a / m, a % m;
    assert a == q * m + r;
    if r + d < m {
      ModUnique(a + d, q, r + d, m);
    } else {
      assert a + d == (q + 1) * m + (r + d - m);
      ModUnique(a + d, q + 1, r + d - m, m);
    }
  }

  /** Quotient and remainder are unique. */
  lemma ModUnique(x: int, q: int, r: int, m: nat)
    requires m > 0 && x == q * m + r && 0 <= r < m
    ensures x % m == r
  {
    var q', r' := x / m, x % m;
    assert x == q' * m + r';
    assert (q - q') * m == r' - r;
    if q > q' {
      MulLeRight(1, q - q', m);
    } else if q < q' {
      assert (q' - q) * m == r - r';
      MulLeRight(1, q' - q, m);
    }
  }
}
