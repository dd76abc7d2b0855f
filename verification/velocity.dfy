/**
 `DjiRM::M2006_Motor` of ActuatorsModule: four incremental PID controllers
 that turn velocity targets (percent of the maximum speed) and the measured
 wheel speeds into one current command frame per control tick.

 The motor object is an immutable value here; `sent` is the log of command
 frames it has transmitted. The interrupt-owned telemetry is the separate
 `Feedback.RxStore`, passed to the operations that read it. The target
 velocities of a statically allocated object start at zero.
 */
module VelocityController {
  import opened Bytes
  import opened MotorBus
  import Feedback
  import Pid = IncrementalPid
  import StfUtil

  /** `max_raw_speed`: the raw speed that reads as 100 %. */
  const MAX_RAW_SPEED: int := 19100

  /** `pid_ctrl_freq_Hz` unless the constructor is given another frequency. */
  const DEFAULT_CTRL_FREQ_HZ: real := 5000.0

  datatype M2006Motor = M2006Motor(hcan: Feedback.Handle, ctrlFreqHz: real,
                                   ctrls: seq<Pid.PidState>, targets: seq<real>,
                                   sent: seq<TxFrame>)

  /** One controller and one target per motor. */
  predicate Valid(m: M2006Motor) {
    |m.ctrls| == 4 && |m.targets| == 4
  }

  /** Every controller has been given its period by `init`. */
  predicate AllReady(m: M2006Motor) {
    forall i :: 0 <= i < |m.ctrls| ==> Pid.Ready(m.ctrls[i])
  }

  /** All four controllers carry the gains (kp, ki, kd). */
  predicate AllGains(m: M2006Motor, kp: real, ki: real, kd: real) {
    forall i :: 0 <= i < |m.ctrls| ==>
      m.ctrls[i].kp == kp && m.ctrls[i].ki == ki && m.ctrls[i].kd == kd
  }

  /** `M2006_Motor(hcanx, Kp, Ki, Kd, ctrl_freq_Hz)`. */
  function ConstructWithFreq(h: Feedback.Handle, kp: real, ki: real, kd: real,
                             frequencyHz: real): (m: M2006Motor)
    ensures Valid(m) && AllGains(m, kp, ki, kd)
    ensures m.hcan == h && m.ctrlFreqHz == frequencyHz && m.sent == []
    ensures forall i :: 0 <= i < 4 ==> m.ctrls[i] == Pid.Construct(kp, ki, kd) && m.targets[i] == 0.0
  {
    var c := Pid.Construct(kp, ki, kd);
    M2006Motor(h, frequencyHz, [c, c, c, c], [0.0, 0.0, 0.0, 0.0], [])
  }

  /** `M2006_Motor(hcanx, Kp, Ki, Kd)`: the default 5000 Hz control rate. */
  function Construct(h: Feedback.Handle, kp: real, ki: real, kd: real): (m: M2006Motor)
    ensures m == ConstructWithFreq(h, kp, ki, kd, DEFAULT_CTRL_FREQ_HZ)
    ensures Valid(m) && m.ctrlFreqHz == 5000.0
  {
    ConstructWithFreq(h, kp, ki, kd, DEFAULT_CTRL_FREQ_HZ)
  }

  /**
   `init`: publishes the handle to the receive interrupt and runs
   `init(pid_ctrl_freq_Hz)` on every controller. The CAN peripheral set-up
   (bit timing, accept-all filter, start, notification) is hardware
   configuration and is not modelled.
   */
  function Init(m: M2006Motor, rx: Feedback.RxStore): (r: (M2006Motor, Feedback.RxStore))
    requires Valid(m) && m.ctrlFreqHz > 0.0
    ensures Valid(r.0) && AllReady(r.0)
    ensures r.1 == Feedback.Register(rx, m.hcan)
    ensures r.0.hcan == m.hcan && r.0.ctrlFreqHz == m.ctrlFreqHz
    ensures r.0.targets == m.targets && r.0.sent == m.sent
    ensures forall i :: 0 <= i < 4 ==>
      r.0.ctrls[i].isFirstTime
      && r.0.ctrls[i].timing.periodMs * m.ctrlFreqHz == 1000.0
      && Pid.SameConfig(m.ctrls[i], r.0.ctrls[i].(timing := m.ctrls[i].timing))
  {
    var f := m.ctrlFreqHz;
    var ctrls := [Pid.Init(m.ctrls[0], f), Pid.Init(m.ctrls[1], f),
                  Pid.Init(m.ctrls[2], f), Pid.Init(m.ctrls[3], f)];
    (m.(ctrls := ctrls), Feedback.Register(rx, m.hcan))
  }

  /** `max_raw_speed` clamp, then `map` from [-19100, 19100] to [-100, 100]. */
  function GetVelocity(rx: Feedback.RxStore, id: Feedback.MotorId): (v: real)
    requires Feedback.Valid(rx)
    ensures -100.0 <= v <= 100.0
    ensures v * 191.0 == Clamp(Feedback.GetRawSpeed(rx, id), MAX_RAW_SPEED) as real
  {
    var speed := Clamp(Feedback.GetRawSpeed(rx, id), MAX_RAW_SPEED) as real;
    VelocityScale(speed);
    StfUtil.Map(speed, -19100.0, 19100.0, -100.0, 100.0)
  }

  /** The speed map is the linear scaling raw / 191. */
  lemma VelocityScale(x: real)
    requires -19100.0 <= x <= 19100.0
    ensures StfUtil.Map(x, -19100.0, 19100.0, -100.0, 100.0) * 191.0 == x
  {
    StfUtil.MapIsAffine(x, -19100.0, -19100.0, 19100.0, -100.0, 100.0);
  }

  /** The two `if` statements that bound a controller output to [-100, 100]. */
  function Saturate(x: real): (y: real)
    ensures -100.0 <= y <= 100.0
    ensures -100.0 <= x <= 100.0 ==> y == x
    ensures x > 100.0 ==> y == 100.0
    ensures x < -100.0 ==> y == -100.0
  {
    if x > 100.0 then 100.0 else if x < -100.0 then -100.0 else x
  }

  /**
   One axis of `pid_update_motor_currents` after the controller: saturate to
   [-100, 100] %, `map` onto [-9999, 9999], and cast to `int16_t`. The
   result is the percentage scaled by 99.99 and truncated toward zero.
   */
  function AxisCurrent(out: real): (i: Int16)
    ensures -ACTUATORS_MAX_CURRENT <= i <= ACTUATORS_MAX_CURRENT
    ensures i == TruncToInt(Saturate(out) * 99.99)
  {
    var pct := Saturate(out);
    CurrentScale(pct);
    TruncToInt(StfUtil.Map(pct, -100.0, 100.0, -9999.0, 9999.0))
  }

  /** The current map is the linear scaling pct * 99.99. */
  lemma CurrentScale(x: real)
    requires -100.0 <= x <= 100.0
    ensures StfUtil.Map(x, -100.0, 100.0, -9999.0, 9999.0) == x * 99.99
  {
    StfUtil.MapIsAffine(x, -100.0, -100.0, 100.0, -9999.0, 9999.0);
  }

  /** Full-scale outputs give the full current, and the command is an odd
      function of the controller output (truncation is toward zero). */
  lemma AxisCurrentShape(out: real)
    ensures out >= 100.0 ==> AxisCurrent(out) == 9999
    ensures out <= -100.0 ==> AxisCurrent(out) == -9999
    ensures AxisCurrent(-out) == -AxisCurrent(out)
    ensures out > 0.0 ==> AxisCurrent(out) >= 0
    ensures out < 0.0 ==> AxisCurrent(out) <= 0
  {
    assert Saturate(-out) == -Saturate(out);
    var y := Saturate(out) * 99.99;
    assert Saturate(-out) * 99.99 == -y;
    TruncOdd(y);
  }

  lemma TruncOdd(y: real)
    ensures TruncToInt(-y) == -TruncToInt(y)
  {
  }

  /** A larger controller output never commands a smaller current. */
  lemma AxisCurrentMonotone(a: real, b: real)
    requires a <= b
    ensures AxisCurrent(a) <= AxisCurrent(b)
  {
    var x, y := Saturate(a) * 99.99, Saturate(b) * 99.99;
    assert x <= y;
    TruncMonotone(x, y);
  }

  lemma TruncMonotone(x: real, y: real)
    requires x <= y
    ensures TruncToInt(x) <= TruncToInt(y)
  {
    if 0.0 <= x {
      assert x.Floor <= y.Floor;
    } else if y < 0.0 {
      assert (-y).Floor <= (-x).Floor;
    }
  }

  /** The controller input of motor i: target minus measured velocity. */
  function MotorError(m: M2006Motor, rx: Feedback.RxStore, i: nat): real
    requires Valid(m) && Feedback.Valid(rx) && i < 4
  {
    m.targets[i] - GetVelocity(rx, Feedback.MotorAt(i))
  }

  /** The step motor i's controller takes on this tick. */
  function AxisStep(m: M2006Motor, rx: Feedback.RxStore, i: nat): Pid.Step
    requires Valid(m) && AllReady(m) && Feedback.Valid(rx) && i < 4
  {
    Pid.Calculate(m.ctrls[i], MotorError(m, rx, i))
  }

  /**
   `pid_update_motor_currents`: every controller takes one step on its
   motor's velocity error, and exactly one command frame is sent whose
   channel i carries the converted output of controller i.
   */
  function PidUpdateMotorCurrents(m: M2006Motor, rx: Feedback.RxStore): (r: M2006Motor)
    requires Valid(m) && AllReady(m) && Feedback.Valid(rx)
    ensures Valid(r) && AllReady(r)
    ensures r.hcan == m.hcan && r.ctrlFreqHz == m.ctrlFreqHz && r.targets == m.targets
    ensures forall i :: 0 <= i < 4 ==>
      Pid.SameConfig(m.ctrls[i], r.ctrls[i]) && r.ctrls[i] == AxisStep(m, rx, i).state
    ensures |r.sent| == |m.sent| + 1 && r.sent[..|m.sent|] == m.sent
    ensures IsCommandHeader(r.sent[|m.sent|])
    ensures WithinLimit(Unpack(r.sent[|m.sent|]), ACTUATORS_MAX_CURRENT)
    ensures forall i :: 0 <= i < 4 ==>
      ChannelOf(r.sent[|m.sent|], i) == AxisCurrent(AxisStep(m, rx, i).output)
  {
    var s0, s1, s2, s3 := AxisStep(m, rx, 0), AxisStep(m, rx, 1), AxisStep(m, rx, 2), AxisStep(m, rx, 3);
    var c: Currents := [AxisCurrent(s0.output), AxisCurrent(s1.output),
                        AxisCurrent(s2.output), AxisCurrent(s3.output)];
    m.(ctrls := [s0.state, s1.state, s2.state, s3.state],
       sent := ActuatorsSetCurrent(m.sent, c))
  }

  /** Channel i of a tick's frame depends on motor i's target, speed and
      controller alone: the four loops do not interact. */
  lemma AxesIndependent(m: M2006Motor, n: M2006Motor, rx: Feedback.RxStore,
                        ry: Feedback.RxStore, i: nat)
    requires Valid(m) && AllReady(m) && Feedback.Valid(rx)
    requires Valid(n) && AllReady(n) && Feedback.Valid(ry)
    requires i < 4 && m.ctrls[i] == n.ctrls[i] && m.targets[i] == n.targets[i]
    requires Feedback.GetRawSpeed(rx, Feedback.MotorAt(i)) == Feedback.GetRawSpeed(ry, Feedback.MotorAt(i))
    ensures ChannelOf(Last(PidUpdateMotorCurrents(m, rx).sent), i)
         == ChannelOf(Last(PidUpdateMotorCurrents(n, ry).sent), i)
    ensures PidUpdateMotorCurrents(m, rx).ctrls[i] == PidUpdateMotorCurrents(n, ry).ctrls[i]
  {
    assert MotorError(m, rx, i) == MotorError(n, ry, i);
  }

  function Last(frames: seq<TxFrame>): TxFrame
    requires |frames| > 0
  {
    frames[|frames| - 1]
  }

  /** The first tick after `init` primes every controller: channel i carries
      the current for Kp times motor i's error. */
  lemma FirstTickIsProportional(m: M2006Motor, rx: Feedback.RxStore, n: M2006Motor,
                                 ry: Feedback.RxStore, i: nat)
    requires Valid(m) && Feedback.Valid(rx) && m.ctrlFreqHz > 0.0 && i < 4
    requires (n, ry) == Init(m, rx)
    ensures Feedback.Valid(ry) && AllReady(n) && n.ctrls[i].kp == m.ctrls[i].kp
    ensures ChannelOf(Last(PidUpdateMotorCurrents(n, ry).sent), i)
            == AxisCurrent(n.ctrls[i].kp * MotorError(n, ry, i))
  {
    assert n.ctrls[i].isFirstTime && n.ctrls[i].kp == m.ctrls[i].kp;
    var st := AxisStep(n, ry, i);
    assert st.output == n.ctrls[i].kp * MotorError(n, ry, i);
    var r := PidUpdateMotorCurrents(n, ry);
    assert Last(r.sent) == r.sent[|n.sent|];
    assert ChannelOf(r.sent[|n.sent|], i) == AxisCurrent(st.output);
  }

  /** `set_velocity`: only the four targets change. */
  function SetVelocity(m: M2006Motor, v1: real, v2: real, v3: real, v4: real): (r: M2006Motor)
    requires Valid(m)
    ensures Valid(r) && r.targets == [v1, v2, v3, v4]
    ensures r.(targets := m.targets) == m
  {
    m.(targets := [v1, v2, v3, v4])
  }

  /** `stop` in this revision only zeroes the targets; no frame is sent and
      the motors slow down under control on the following ticks. */
  function Stop(m: M2006Motor): (r: M2006Motor)
    requires Valid(m)
    ensures Valid(r) && r.sent == m.sent
    ensures forall i :: 0 <= i < 4 ==> r.targets[i] == 0.0
    ensures r.(targets := m.targets) == m
  {
    SetVelocity(m, 0.0, 0.0, 0.0, 0.0)
  }

  /** A stopped drive at rest with settled controllers commands zero current. */
  lemma StopAtRestSendsZero(m: M2006Motor, rx: Feedback.RxStore, i: nat)
    requires Valid(m) && AllReady(m) && Feedback.Valid(rx) && i < 4
    requires !m.ctrls[i].isFirstTime && m.ctrls[i].prevError == 0.0 && m.ctrls[i].integral == 0.0
    requires Feedback.GetRawSpeed(rx, Feedback.MotorAt(i)) == 0
    ensures ChannelOf(Last(PidUpdateMotorCurrents(Stop(m), rx).sent), i) == 0
  {
    var s := Stop(m);
    assert GetVelocity(rx, Feedback.MotorAt(i)) == 0.0;
    assert MotorError(s, rx, i) == 0.0;
    assert AxisStep(s, rx, i).output == 0.0;
  }

  /** `update_pid_consts`: all four controllers take the new gains and keep
      their integral, previous error, priming flag and period. */
  function UpdatePidConsts(m: M2006Motor, kp: real, ki: real, kd: real): (r: M2006Motor)
    requires Valid(m)
    ensures Valid(r) && AllGains(r, kp, ki, kd)
    ensures forall i :: 0 <= i < 4 ==>
      r.ctrls[i].(kp := m.ctrls[i].kp, ki := m.ctrls[i].ki, kd := m.ctrls[i].kd) == m.ctrls[i]
    ensures r.(ctrls := m.ctrls) == m
  {
    m.(ctrls := [Pid.UpdatePidConsts(m.ctrls[0], kp, ki, kd), Pid.UpdatePidConsts(m.ctrls[1], kp, ki, kd),
                 Pid.UpdatePidConsts(m.ctrls[2], kp, ki, kd), Pid.UpdatePidConsts(m.ctrls[3], kp, ki, kd)])
  }

  /**
   `get_ctrl_period_ms`: 1000 / f milliseconds, cast to `uint32_t`, which
   truncates: the result is the whole number of milliseconds in one control
   period, rounded down. The cast is undefined for values of 2^32 and above,
   so the frequency must exceed 1000 / 2^32 Hz.
   */
  function GetCtrlPeriodMs(frequencyHz: real): (ms: UInt32)
    requires frequencyHz > 0.0 && 1000.0 < 4294967296.0 * frequencyHz
    ensures ms as real <= 1000.0 / frequencyHz < ms as real + 1.0
  {
    var period := (1.0 / frequencyHz) * 1000.0;
    assert period == 1000.0 / frequencyHz;
    PeriodBelowLimit(frequencyHz);
    TruncToInt(period)
  }

  /** The period of an admissible frequency is positive and fits the cast. */
  lemma PeriodBelowLimit(f: real)
    requires f > 0.0 && 1000.0 < 4294967296.0 * f
    ensures 0.0 < 1000.0 / f < 4294967296.0
  {
    var x := 1000.0 / f;
    assert x * f == 1000.0;
    if x <= 0.0 {
      ScaleLe(x, 0.0, f);
    }
    if x >= 4294967296.0 {
      ScaleLe(4294967296.0, x, f);
    }
  }

  /** Multiplying by a positive factor keeps order. */
  lemma ScaleLe(a: real, b: real, f: real)
    requires a <= b && f > 0.0
    ensures a * f <= b * f
  {
  }

  /** At the default 5000 Hz the controllers' period is 0.2 ms, but the
      period reported to callers truncates to 0 ms. */
  lemma DefaultPeriodTruncates()
    ensures GetCtrlPeriodMs(DEFAULT_CTRL_FREQ_HZ) == 0
    ensures Pid.Init(Pid.Construct(0.0, 0.0, 0.0), DEFAULT_CTRL_FREQ_HZ).timing.periodMs == 0.2
  {
  }
}
