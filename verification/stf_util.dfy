/**
 The pure helpers of the thalamus utility header: forcing the most
 significant bit of a register-address byte (used to select read or write
 mode on SPI sensors) and the linear range map the velocity loop uses.
 */
module StfUtil {
  import opened Bytes

  /** `byte & 0x7F`: clear bit 7 and keep bits 0-6. */
  function SetByteMsbZero(b: bv8): (r: bv8)
    ensures r < 0x80
    ensures r & 0x80 == 0
    ensures r & 0x7F == b & 0x7F
  {
    b & 0x7F
  }

  /** `byte | 0x80`: set bit 7 and keep bits 0-6. */
  function SetByteMsbOne(b: bv8): (r: bv8)
    ensures r >= 0x80
    ensures r & 0x80 == 0x80
    ensures r & 0x7F == b & 0x7F
  {
    b | 0x80
  }

  /** Each helper is idempotent, and each one undoes the other's effect on bit 7. */
  lemma MsbHelpersAbsorb(b: bv8)
    ensures SetByteMsbZero(SetByteMsbZero(b)) == SetByteMsbZero(b)
    ensures SetByteMsbOne(SetByteMsbOne(b)) == SetByteMsbOne(b)
    ensures SetByteMsbZero(SetByteMsbOne(b)) == SetByteMsbZero(b)
    ensures SetByteMsbOne(SetByteMsbZero(b)) == SetByteMsbOne(b)
  {
  }

  /**
   `stf::map(x, from_range(fmin, fmax), to_range(tmin, tmax))`. An `x`
   outside [fmin, fmax] is reported (the report is I/O and is not modelled)
   and yields 0; otherwise `x` is carried affinely from the first range onto
   the second. The source divides by `fmax - fmin`, so the ranges must not be
   degenerate. When fmin > fmax no `x` is in range and the result is always 0.
   */
  function Map(x: real, fmin: real, fmax: real, tmin: real, tmax: real): (r: real)
    requires fmin != fmax
    ensures x < fmin || x > fmax ==> r == 0.0
    ensures x == fmin && fmin < fmax ==> r == tmin
    ensures x == fmax && fmin < fmax ==> r == tmax
    ensures fmin <= x <= fmax && tmin <= tmax ==> tmin <= r <= tmax
    ensures fmin <= x <= fmax && tmax <= tmin ==> tmax <= r <= tmin
  {
    if x < fmin || x > fmax then 0.0
    else
      var t := (x - fmin) / (fmax - fmin);
      Fraction(x - fmin, fmax - fmin);
      MulBetween(t, tmax - tmin);
      t * (tmax - tmin) + tmin
  }

  /** A quotient `a / w` with 0 <= a <= w is a fraction in [0, 1]. */
  lemma Fraction(a: real, w: real)
    requires 0.0 <= a <= w && 0.0 < w
    ensures 0.0 <= a / w <= 1.0
    ensures a == 0.0 ==> a / w == 0.0
    ensures a == w ==> a / w == 1.0
  {
    assert (a / w) * w == a;
  }

  /** `t * d` lies between 0 and `d` for a fraction `t` in [0, 1]. */
  lemma MulBetween(t: real, d: real)
    requires 0.0 <= t <= 1.0
    ensures 0.0 <= d ==> 0.0 <= t * d <= d
    ensures d <= 0.0 ==> d <= t * d <= 0.0
  {
    if 0.0 <= d {
      assert (1.0 - t) * d >= 0.0;
    } else {
      assert (1.0 - t) * d <= 0.0;
    }
  }

  /** On its domain `Map` is affine: differences of results are the
      differences of arguments scaled by the ratio of the range widths.
      With the endpoint equations of `Map`'s contract this determines it. */
  lemma MapIsAffine(x: real, y: real, fmin: real, fmax: real, tmin: real, tmax: real)
    requires fmin < fmax
    requires fmin <= x <= fmax && fmin <= y <= fmax
    ensures (Map(x, fmin, fmax, tmin, tmax) - Map(y, fmin, fmax, tmin, tmax)) * (fmax - fmin)
         == (x - y) * (tmax - tmin)
  {
    var w := fmax - fmin;
    var tx, ty := (x - fmin) / w, (y - fmin) / w;
    assert tx * w == x - fmin && ty * w == y - fmin;
    calc {
      (Map(x, fmin, fmax, tmin, tmax) - Map(y, fmin, fmax, tmin, tmax)) * w;
      (tx * (tmax - tmin) - ty * (tmax - tmin)) * w;
      (tx * w - ty * w) * (tmax - tmin);
    }
  }

  /** `Map` preserves order on its domain when the target range is increasing. */
  lemma MapMonotone(x: real, y: real, fmin: real, fmax: real, tmin: real, tmax: real)
    requires fmin < fmax && tmin <= tmax
    requires fmin <= x <= y <= fmax
    ensures Map(x, fmin, fmax, tmin, tmax) <= Map(y, fmin, fmax, tmin, tmax)
  {
    MapIsAffine(y, x, fmin, fmax, tmin, tmax);
    var d := Map(y, fmin, fmax, tmin, tmax) - Map(x, fmin, fmax, tmin, tmax);
    assert d * (fmax - fmin) >= 0.0;
  }
}
