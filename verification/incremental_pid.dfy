/**
 `INC_PID_Controller<float>`: a discrete PID controller with one priming
 call. The first `calculate` after `init` returns Kp * e, zeroes the
 integral and remembers e; every later call accumulates the integral in
 seconds (e * period_ms / 1000), differentiates per millisecond, and
 returns Kp * (e - prev) + Kd * (e - prev) / period + Ki * integral.

 `float` is modelled as `real`. The second- and third-call priming flags
 of the source are never set anywhere, so they are always false and are
 not represented. Only the fixed-interval timing mode is modelled; `Unset`
 is the zero-initialised state of a controller `init` was never called on.
 */
module IncrementalPid {

  datatype Timing = Unset | Fixed(periodMs: real)

  datatype PidState = PidState(kp: real, ki: real, kd: real,
                               integral: real, prevError: real,
                               isFirstTime: bool, timing: Timing)

  /** The controller state after a call, and the value the call returned. */
  datatype Step = Step(state: PidState, output: real)

  /** `init(frequency_Hz)` has selected a usable fixed period. */
  predicate Ready(s: PidState) {
    s.timing.Fixed? && s.timing.periodMs > 0.0
  }

  /** Gains and timing of `r` are those of `s`. */
  predicate SameConfig(s: PidState, r: PidState) {
    r.kp == s.kp && r.ki == s.ki && r.kd == s.kd && r.timing == s.timing
  }

  /** The constructor on a statically allocated controller: gains set, every
      other field zero (not primed, no timing mode selected). */
  function Construct(kp: real, ki: real, kd: real): (s: PidState)
    ensures s.kp == kp && s.ki == ki && s.kd == kd
    ensures s.integral == 0.0 && s.prevError == 0.0 && !s.isFirstTime && !Ready(s)
  {
    PidState(kp, ki, kd, 0.0, 0.0, false, Unset)
  }

  /** `update_pid_consts`: only the three gains change. */
  function UpdatePidConsts(s: PidState, kp: real, ki: real, kd: real): (r: PidState)
    ensures r.kp == kp && r.ki == ki && r.kd == kd
    ensures r.(kp := s.kp, ki := s.ki, kd := s.kd) == s
  {
    s.(kp := kp, ki := ki, kd := kd)
  }

  /** `init(frequency_Hz)`: fixed-interval mode with period 1000 / f ms,
      and the next call primes again. Integral and previous error are kept. */
  function Init(s: PidState, frequencyHz: real): (r: PidState)
    requires frequencyHz > 0.0
    ensures Ready(r) && r.timing.periodMs * frequencyHz == 1000.0
    ensures r.isFirstTime
    ensures r.(timing := s.timing, isFirstTime := s.isFirstTime) == s
  {
    s.(timing := Fixed((1.0 / frequencyHz) * 1000.0), isFirstTime := true)
  }

  /** `first_time_handle`: output Kp * e, integral zeroed, e remembered. */
  function Prime(s: PidState, e: real): (r: Step)
    ensures r.output == s.kp * e
    ensures r.state == s.(integral := 0.0, prevError := e, isFirstTime := false)
  {
    Step(s.(integral := 0.0, prevError := e, isFirstTime := false), s.kp * e)
  }

  /** The 3-argument `calculate`: a pure weighted sum of a measured error,
      error rate and error sum. */
  function CalculateMeasured(s: PidState, e: real, rate: real, sum: real): (u: real)
    ensures rate == 0.0 && sum == 0.0 ==> u == s.kp * e
    ensures s.kd == 0.0 && s.ki == 0.0 ==> u == s.kp * e
  {
    s.kp * e + s.kd * rate + s.ki * sum
  }

  /** `calculate(e)`. */
  function Calculate(s: PidState, e: real): (r: Step)
    requires Ready(s)
    ensures SameConfig(s, r.state) && !r.state.isFirstTime && r.state.prevError == e
    ensures s.isFirstTime ==> r == Prime(s, e)
    ensures !s.isFirstTime ==> r.state.integral == s.integral + e * s.timing.periodMs / 1000.0
  {
    if s.isFirstTime then Prime(s, e)
    else
      var period := s.timing.periodMs;
      var derivative := (e - s.prevError) / period;
      var integral := s.integral + e * period / 1000.0;
      Step(s.(integral := integral, prevError := e),
           s.kp * (e - s.prevError) + s.kd * derivative + s.ki * integral)
  }

  /** A steady-state call of `calculate(e)` is the measured-term formula
      applied to the error increment, its per-millisecond rate, and the
      updated integral: the proportional term acts on the change of error. */
  lemma CalculateIsIncremental(s: PidState, e: real)
    requires Ready(s) && !s.isFirstTime
    ensures var p := s.timing.periodMs;
            Calculate(s, e).output
            == CalculateMeasured(s, e - s.prevError, (e - s.prevError) / p, Calculate(s, e).state.integral)
  {
  }

  /** `calculate(e, rate)`: the derivative is measured, the integral is
      accumulated, and the previous error is never updated. */
  function CalculateWithRate(s: PidState, e: real, rate: real): (r: Step)
    requires Ready(s)
    ensures SameConfig(s, r.state) && !r.state.isFirstTime
    ensures s.isFirstTime ==> r == Prime(s, e)
    ensures !s.isFirstTime ==> r.state == s.(integral := s.integral + e * s.timing.periodMs / 1000.0)
    ensures !s.isFirstTime ==> r.output == CalculateMeasured(s, e, rate, r.state.integral)
  {
    if s.isFirstTime then Prime(s, e)
    else
      var period := s.timing.periodMs;
      var integral := s.integral + e * period / 1000.0;
      Step(s.(integral := integral), s.kp * e + s.kd * rate + s.ki * integral)
  }

  /** `calculate_s(e, sum)`: the integral is measured and the derivative is
      a finite difference; after priming no state changes. */
  function CalculateWithSum(s: PidState, e: real, sum: real): (r: Step)
    requires Ready(s)
    ensures !r.state.isFirstTime && SameConfig(s, r.state)
    ensures s.isFirstTime ==> r == Prime(s, e)
    ensures !s.isFirstTime ==> r.state == s
    ensures !s.isFirstTime ==> r.output == CalculateMeasured(s, e, (e - s.prevError) / s.timing.periodMs, sum)
  {
    if s.isFirstTime then Prime(s, e)
    else
      var derivative := (e - s.prevError) / s.timing.periodMs;
      Step(s, s.kp * e + s.kd * derivative + s.ki * sum)
  }

  /** The state after feeding `errs` to `calculate` one after another. */
  function Run(s: PidState, errs: seq<real>): (r: PidState)
    requires Ready(s)
    ensures SameConfig(s, r)
    decreases |errs|
  {
    if |errs| == 0 then s else Run(Calculate(s, errs[0]).state, errs[1..])
  }

  /** The outputs of feeding `errs` to `calculate` one after another. */
  function Outputs(s: PidState, errs: seq<real>): (out: seq<real>)
    requires Ready(s)
    ensures |out| == |errs|
    decreases |errs|
  {
    if |errs| == 0 then []
    else [Calculate(s, errs[0]).output] + Outputs(Calculate(s, errs[0]).state, errs[1..])
  }

  function Sum(xs: seq<real>): real
    decreases |xs|
  {
    if |xs| == 0 then 0.0 else xs[0] + Sum(xs[1..])
  }

  lemma {:induction false} SumSnoc(xs: seq<real>, x: real)
    ensures Sum(xs + [x]) == Sum(xs) + x
    decreases |xs|
  {
    if |xs| == 0 {
      assert xs + [x] == [x];
    } else {
      assert (xs + [x])[1..] == xs[1..] + [x];
      SumSnoc(xs[1..], x);
    }
  }

  /** One rectangle: an error held for `dtMs` milliseconds, in error-seconds. */
  function Rect(e: real, dtMs: real): real {
    e * dtMs / 1000.0
  }

  /** The rectangle rule over a sequence of errors, one period each. */
  function Rectangles(xs: seq<real>, dtMs: real): real
    decreases |xs|
  {
    if |xs| == 0 then 0.0
    else Rectangles(xs[..|xs| - 1], dtMs) + Rect(xs[|xs| - 1], dtMs)
  }

  /**
   After `init` and any non-empty run of `calculate` calls, the integral is
   the rectangle-rule integral of every error but the priming one, and the
   previous error is the last error fed.
   */
  lemma {:induction false} IntegralIsRiemannSum(s: PidState, errs: seq<real>)
    requires Ready(s) && s.isFirstTime && |errs| > 0
    ensures var r := Run(s, errs);
            r.integral == Rectangles(errs[1..], s.timing.periodMs)
            && r.prevError == errs[|errs| - 1] && !r.isFirstTime
    decreases |errs|
  {
    if |errs| == 1 {
      assert errs[1..] == [];
      assert Run(s, errs) == Calculate(s, errs[0]).state;
    } else {
      var init := errs[..|errs| - 1];
      var last := errs[|errs| - 1];
      assert errs == init + [last];
      IntegralIsRiemannSum(s, init);
      RiemannStep(s, init, last);
    }
  }

  /** The inductive step of `IntegralIsRiemannSum`: one more call adds one
      more rectangle. */
  lemma RiemannStep(s: PidState, init: seq<real>, last: real)
    requires Ready(s) && |init| > 0
    requires !Run(s, init).isFirstTime
    requires Run(s, init).integral == Rectangles(init[1..], s.timing.periodMs)
    ensures var r := Run(s, init + [last]);
            r.integral == Rectangles((init + [last])[1..], s.timing.periodMs)
            && r.prevError == last && !r.isFirstTime
  {
    var p := s.timing.periodMs;
    var mid := Run(s, init);
    assert Run(s, init + [last]).integral == mid.integral + Rect(last, p) by {
      RunSnoc(s, init, last);
      StepIntegral(mid, last, p);
    }
    RectanglesSnoc(init, last, p);
    RunSnoc(s, init, last);
  }

  /** Appending an error past the priming one adds one rectangle. */
  lemma RectanglesSnoc(init: seq<real>, x: real, dtMs: real)
    requires |init| > 0
    ensures Rectangles((init + [x])[1..], dtMs) == Rectangles(init[1..], dtMs) + Rect(x, dtMs)
  {
    var tail := (init + [x])[1..];
    assert tail == init[1..] + [x];
    assert tail[..|tail| - 1] == init[1..];
  }

  /** The rectangle-rule integral is the plain sum scaled by the period. */
  lemma {:induction false} RectanglesScale(xs: seq<real>, dtMs: real)
    ensures Rectangles(xs, dtMs) == Sum(xs) * dtMs / 1000.0
    decreases |xs|
  {
    if |xs| > 0 {
      var init := xs[..|xs| - 1];
      var last := xs[|xs| - 1];
      RectanglesScale(init, dtMs);
      assert xs == init + [last];
      SumSnoc(init, last);
      ScaleDistributes(Sum(init), last, dtMs);
      assert Rectangles(xs, dtMs) == Rectangles(init, dtMs) + Rect(last, dtMs);
    }
  }

  /** One steady-state call adds e * p / 1000 to the integral. */
  lemma StepIntegral(m: PidState, e: real, p: real)
    requires m.timing == Fixed(p) && p > 0.0 && !m.isFirstTime
    ensures Calculate(m, e).state.integral == m.integral + Rect(e, p)
  {
  }

  lemma ScaleDistributes(a: real, b: real, p: real)
    ensures a * p / 1000.0 + b * p / 1000.0 == (a + b) * p / 1000.0
  {
  }

  /** Feeding one more error extends a run by one call. */
  lemma {:induction false} RunSnoc(s: PidState, errs: seq<real>, e: real)
    requires Ready(s)
    ensures Run(s, errs + [e]) == Calculate(Run(s, errs), e).state
    decreases |errs|
  {
    if |errs| == 0 {
      assert errs + [e] == [e];
    } else {
      assert (errs + [e])[1..] == errs[1..] + [e];
      RunSnoc(Calculate(s, errs[0]).state, errs[1..], e);
    }
  }

  /** Under a constant error after priming, the proportional and derivative
      terms vanish: the output is Ki times an integral that grows by exactly
      e * period / 1000 per call. */
  lemma ConstantErrorStep(s: PidState, e: real)
    requires Ready(s) && !s.isFirstTime && s.prevError == e
    ensures var r := Calculate(s, e);
            r.state.integral - s.integral == e * s.timing.periodMs / 1000.0
            && r.output == s.ki * r.state.integral
            && r.state.prevError == e
  {
  }

  /** Priming at error e followed by n calls at the same e leaves the
      integral at n * e * period / 1000: it grows linearly with elapsed time. */
  lemma {:induction false} ConstantErrorRamp(s: PidState, e: real, n: nat)
    requires Ready(s) && s.isFirstTime
    ensures Run(s, seq(n + 1, _ => e)).integral == (n as real) * e * s.timing.periodMs / 1000.0
  {
    var errs := seq(n + 1, _ => e);
    IntegralIsRiemannSum(s, errs);
    RectanglesScale(errs[1..], s.timing.periodMs);
    SumConstant(errs[1..], e);
  }

  lemma {:induction false} SumConstant(xs: seq<real>, e: real)
    requires forall i :: 0 <= i < |xs| ==> xs[i] == e
    ensures Sum(xs) == (|xs| as real) * e
    decreases |xs|
  {
    if |xs| > 0 {
      SumConstant(xs[1..], e);
    }
  }

  /** The output a positional proportional controller gives for error e. */
  function Proportional(kp: real, e: real): real {
    kp * e
  }

  /** What the controller has already output towards its current error:
      nothing before priming, Kp times the previous error after. */
  function Committed(s: PidState): real {
    if s.isFirstTime then 0.0 else Proportional(s.kp, s.prevError)
  }

  /** With Ki = Kd = 0, a call outputs the increment of the proportional
      term, and afterwards the whole of Kp * e has been committed. */
  lemma ProportionalStep(s: PidState, e: real)
    requires Ready(s) && s.ki == 0.0 && s.kd == 0.0
    ensures Calculate(s, e).output == Proportional(s.kp, e) - Committed(s)
    ensures Committed(Calculate(s, e).state) == Proportional(s.kp, e)
  {
  }

  /** With Ki = Kd = 0 the controller is purely incremental: the outputs of
      a run add up to Kp times the latest error, less what was committed
      before the run; after priming, this is the output a positional P
      controller would give. */
  lemma {:induction false} ProportionalOutputsTelescope(s: PidState, errs: seq<real>)
    requires Ready(s) && s.ki == 0.0 && s.kd == 0.0
    requires |errs| > 0
    ensures Sum(Outputs(s, errs)) == Proportional(s.kp, errs[|errs| - 1]) - Committed(s)
    decreases |errs|
  {
    var r := Calculate(s, errs[0]);
    var out := Outputs(s, errs);
    assert out[0] == r.output && out[1..] == Outputs(r.state, errs[1..]);
    assert Sum(out) == r.output + Sum(out[1..]);
    ProportionalStep(s, errs[0]);
    if |errs| > 1 {
      ProportionalOutputsTelescope(r.state, errs[1..]);
      assert errs[1..][|errs[1..]| - 1] == errs[|errs| - 1];
      assert r.state.kp == s.kp;
    } else {
      assert out[1..] == [];
    }
  }
}
