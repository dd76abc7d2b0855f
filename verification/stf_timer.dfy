/**
 The `stf::Timer` wrapper of the RoboMaster revision: auto-reload and
 compare registers with range checks, the prescaler arithmetic behind a
 requested tick or PWM frequency, the PWM-input edge state machine run
 from the capture interrupt, and encoder overflow accounting.

 A timer is an immutable record holding both the object's cached fields
 and the hardware registers they are meant to mirror (`arr` against
 `hwArr`), because some operations update one without the other. The HCLK
 frequency is a parameter, and so are the values the interrupt reads from
 the counter and capture registers. Exception reports are dropped: the
 operation that reports one simply returns the timer unchanged. The
 header `stf_timer.h` of this revision is not part of this model; the
 field widths it declares are taken to be wide enough that the capture
 arithmetic does not wrap, and the channel enumerators to be HAL's
 `TIM_CHANNEL_1`..`TIM_CHANNEL_4`. Two helpers defined outside these
 sources are given assumed effects: `set_input_capture_polarity` records
 the armed edge in the channel's `polarity`, and `interrupt_safe_set_CNT(0)`
 zeroes the cached counter. `input_capture_begin` only enables the
 interrupt and is left out.
 */
module StfTimer {
  import opened Bytes
  import opened TimerMath

  /** `tim_mode`: what the timer was last initialised for. */
  datatype Mode = Uninitialized | InputCapture | PwmInput | Encoder

  /** `logic_level`: which level of the input counts as the pulse. */
  datatype Level = Low | High

  /** The edge the capture unit is armed for. */
  datatype Edge = Rising | Falling

  /** `tim_ic`: the per-channel PWM-input bookkeeping. */
  datatype CaptureState = CaptureState(latched: Level, polarity: Edge,
                                       firstEdge: int, pulseWidth: int, pwmInputArr: UInt32)

  datatype Timer = Timer(
    resolution: Resolution,
    apbDiv: UInt32,
    mode: Mode,
    prescaler: UInt32,
    arr: UInt32,                // the object's cached auto-reload value
    hwArr: UInt32,              // the auto-reload register
    ccr: UInt32,                // the object's cached compare value
    compare: seq<UInt32>,       // the four compare registers
    timerFrequency: UInt32,
    cnt: UInt32,                // the object's cached counter value
    hwCounter: UInt32,          // the counter register
    encoderCount: int,
    encoderOverflow: int,
    capture: seq<CaptureState>) // `input_capture[0..3]`

  predicate Valid(t: Timer) {
    t.apbDiv > 0 && |t.compare| == 4 && |t.capture| == 4
  }

  /** HAL's channel selectors `TIM_CHANNEL_1`..`TIM_CHANNEL_4`. */
  const CHANNELS: seq<UInt32> := [0x0, 0x4, 0x8, 0xC]

  /** `channel_to_idx`: Channel1..4 to 0..3; any other value reports an
      exception and falls back to 0. */
  function ChannelToIdx(channel: UInt32): (idx: nat)
    ensures idx < 4
    ensures channel !in CHANNELS ==> idx == 0
  {
    if channel == CHANNELS[0] then 0
    else if channel == CHANNELS[1] then 1
    else if channel == CHANNELS[2] then 2
    else if channel == CHANNELS[3] then 3
    else 0
  }

  /** `idx_to_channel`: 0..3 to Channel1..4; any other index reports an
      exception and falls back to Channel1. */
  function IdxToChannel(idx: UInt32): (channel: UInt32)
    ensures channel in CHANNELS
    ensures idx >= 4 ==> channel == CHANNELS[0]
  {
    if idx < 4 then CHANNELS[idx] else CHANNELS[0]
  }

  /** The two conversions are inverse bijections between the four channels
      and the indices 0..3. */
  lemma ChannelIdxBijective(channel: UInt32, idx: UInt32)
    ensures channel in CHANNELS ==> IdxToChannel(ChannelToIdx(channel)) == channel
    ensures idx < 4 ==> ChannelToIdx(IdxToChannel(idx)) == idx
  {
  }

  /** `set_prescaler`: the cached value and the register. */
  function SetPrescaler(t: Timer, p: UInt32): (r: Timer)
    ensures r.prescaler == p && r.(prescaler := t.prescaler) == t
  {
    t.(prescaler := p)
  }

  /** An auto-reload value the counter width can hold. */
  predicate FitsArr(res: Resolution, v: int) {
    0 <= v <= FullRange(res)
  }

  /**
   `set_ARR`: a value beyond 16 bits on a 16-bit timer is refused with
   nothing changed; otherwise both the cached value and the register take
   it. (The 32-bit check compares a `uint32` with 0xFFFFFFFF and never
   refuses.)
   */
  function SetARR(t: Timer, v: UInt32): (r: Timer)
    ensures FitsArr(t.resolution, v) ==> r.arr == v && r.hwArr == v
    ensures !FitsArr(t.resolution, v) ==> r == t
    ensures r.(arr := t.arr, hwArr := t.hwArr) == t
  {
    if t.resolution == Tim16 && v > 0xFFFF then t
    else t.(arr := v, hwArr := v)
  }

  /** `SetARR` keeps the auto-reload register within the counter width, and
      accepts a value exactly when that value fits. */
  lemma SetARRKeepsFit(t: Timer, v: UInt32)
    requires FitsArr(t.resolution, t.hwArr)
    ensures FitsArr(t.resolution, SetARR(t, v).hwArr)
    ensures SetARR(t, v).hwArr == v <==> FitsArr(t.resolution, v) || t.hwArr == v
  {
  }

  /** The compare register `__HAL_TIM_SET_COMPARE` writes: CCR1..CCR3 for
      channels 1..3, and CCR4 for any other selector (the macro's last arm). */
  function CompareIndex(channel: UInt32): (idx: nat)
    ensures idx < 4
    ensures channel in CHANNELS ==> idx == ChannelToIdx(channel)
    ensures channel !in CHANNELS ==> idx == 3
  {
    if channel == 0x0 then 0
    else if channel == 0x4 then 1
    else if channel == 0x8 then 2
    else 3
  }

  /**
   `set_CCR`: a compare value above the cached auto-reload value is
   refused with nothing changed; otherwise the cached value and the
   compare register the HAL macro selects take it.
   */
  function SetCCR(t: Timer, channel: UInt32, v: UInt32): (r: Timer)
    requires Valid(t)
    ensures Valid(r)
    ensures v > t.arr ==> r == t
    ensures v <= t.arr ==> r.ccr == v && r.compare[CompareIndex(channel)] == v
    ensures forall k :: 0 <= k < 4 && k != CompareIndex(channel) ==> r.compare[k] == t.compare[k]
    ensures r.(ccr := t.ccr, compare := t.compare) == t
  {
    if v > t.arr then t
    else t.(ccr := v, compare := t.compare[CompareIndex(channel) := v])
  }

  /** Every compare register is at most the cached auto-reload value. */
  predicate ComparesWithinArr(t: Timer)
    requires Valid(t)
  {
    forall k :: 0 <= k < 4 ==> t.compare[k] <= t.arr
  }

  /** `SetCCR` never breaks `ComparesWithinArr`: the duty cycle stays at
      most 100%. */
  lemma SetCCRKeepsDutyBounded(t: Timer, channel: UInt32, v: UInt32)
    requires Valid(t) && ComparesWithinArr(t)
    ensures ComparesWithinArr(SetCCR(t, channel, v))
  {
  }

  /**
   `set_timer_frequency`: a request above the timer input clock is refused
   with nothing changed. Otherwise the prescaler becomes `max / f - 1` and
   the recorded tick frequency `max / (prescaler + 1)`, which lies between
   the request and the input clock. The firmware divides by `f`, so a
   request of 0 is outside its contract.
   */
  function SetTimerFrequency(t: Timer, hclk: UInt32, f: UInt32): (r: Timer)
    requires Valid(t) && f > 0
    ensures Valid(r)
    ensures f > MaxFrequency(hclk, t.apbDiv) ==> r == t
    ensures f <= MaxFrequency(hclk, t.apbDiv) ==>
              r.prescaler == PrescalerFor(MaxFrequency(hclk, t.apbDiv), f)
              && r.timerFrequency == ActualFrequency(MaxFrequency(hclk, t.apbDiv), r.prescaler)
              && f <= r.timerFrequency <= MaxFrequency(hclk, t.apbDiv)
    ensures r.(prescaler := t.prescaler, timerFrequency := t.timerFrequency) == t
  {
    var maxf := MaxFrequency(hclk, t.apbDiv);
    if f > maxf then t
    else
      PrescaledFrequencyBounds(maxf, f);
      var p := PrescalerFor(maxf, f);
      SetPrescaler(t.(timerFrequency := ActualFrequency(maxf, p)), p)
  }

  /**
   `set_pwm_frequency`: the tick frequency is the `uint32` product of the
   period count and the PWM frequency. A product above the input clock is
   refused. Otherwise the prescaler is derived from it and the cached
   auto-reload value becomes `max / (prescaler + 1) / freq`; only the
   prescaler reaches the hardware, the auto-reload register is left as it
   was. The firmware divides by the product, so it must not wrap to 0.
   */
  function SetPwmFrequency(t: Timer, hclk: UInt32, periodCnt: UInt32, freq: UInt32): (r: Timer)
    requires Valid(t) && ToUInt32(periodCnt * freq) != 0
    ensures Valid(r)
    ensures ToUInt32(periodCnt * freq) > MaxFrequency(hclk, t.apbDiv) ==> r == t
    ensures ToUInt32(periodCnt * freq) <= MaxFrequency(hclk, t.apbDiv) ==>
              r.timerFrequency == ToUInt32(periodCnt * freq)
              && r.prescaler == PrescalerFor(MaxFrequency(hclk, t.apbDiv), r.timerFrequency)
    ensures ToUInt32(periodCnt * freq) <= MaxFrequency(hclk, t.apbDiv) ==>
              r.arr == ActualFrequency(MaxFrequency(hclk, t.apbDiv), r.prescaler) / freq
    ensures r.hwArr == t.hwArr
    ensures r.(prescaler := t.prescaler, timerFrequency := t.timerFrequency, arr := t.arr) == t
  {
    var maxf := MaxFrequency(hclk, t.apbDiv);
    var tf := ToUInt32(periodCnt * freq);
    if tf > maxf then t
    else
      var p := PrescalerWithin(maxf, tf);
      SetPrescaler(t.(timerFrequency := tf, arr := PwmPeriodTicks(maxf, p, freq)), p)
  }

  /** `PrescalerFor` of a reachable tick frequency, as a register value. */
  function PrescalerWithin(maxf: UInt32, f: UInt32): (p: UInt32)
    requires 0 < f <= maxf
    ensures p == PrescalerFor(maxf, f)
  {
    PrescaledFrequencyBounds(maxf, f);
    PrescalerFor(maxf, f)
  }

  /** `max / (prescaler + 1) / freq`: the ticks in one PWM period, which
      fit the register because they never exceed the input clock. */
  function PwmPeriodTicks(maxf: UInt32, p: UInt32, freq: UInt32): (ticks: UInt32)
    requires freq > 0
    ensures ticks == ActualFrequency(maxf, p) / freq
  {
    DivAtMost(maxf, p + 1);
    DivAtMost(ActualFrequency(maxf, p), freq);
    ActualFrequency(maxf, p) / freq
  }

  /** When the product does not wrap, the cached PWM period is at least the
      requested period count: the duty-cycle resolution is not lost. */
  lemma PwmPeriodAtLeastCount(t: Timer, hclk: UInt32, periodCnt: UInt32, freq: UInt32)
    requires Valid(t) && 0 < periodCnt * freq <= MaxFrequency(hclk, t.apbDiv)
    ensures SetPwmFrequency(t, hclk, periodCnt, freq).arr >= periodCnt
  {
    var maxf := MaxFrequency(hclk, t.apbDiv);
    var tf := periodCnt * freq;
    assert ToUInt32(tf) == tf;
    PrescaledFrequencyBounds(maxf, tf);
    var p := PrescalerFor(maxf, tf);
    DivAtLeast(ActualFrequency(maxf, p), freq, periodCnt);
  }

  /**
   `init_input_capture`, as written: a 16-bit timer asks for an auto-reload
   value of 0xFFFFFFFF, which `set_ARR` refuses, and a 32-bit timer asks
   for 0xFFFF, so neither gets its full counting range. The tick frequency
   is then set and the mode becomes input capture regardless.
   */
  function InitInputCapture(t: Timer, hclk: UInt32, f: UInt32): (r: Timer)
    requires Valid(t) && f > 0
    ensures Valid(r) && r.mode == InputCapture
    ensures t.resolution == Tim16 ==> r.hwArr == t.hwArr && r.arr == t.arr
    ensures t.resolution == Tim32 ==> r.hwArr == 0xFFFF && r.arr == 0xFFFF
    ensures r.hwArr != FullRange(t.resolution) || t.hwArr == FullRange(t.resolution)
    ensures r.capture == t.capture && r.resolution == t.resolution
  {
    var t1 := if t.resolution == Tim16 then SetARR(t, 0xFFFF_FFFF) else SetARR(t, 0xFFFF);
    SetTimerFrequency(t1, hclk, f).(mode := InputCapture)
  }

  /**
   `init_input_capture` as evidently intended, and as the `RM-dev` `initIC`
   does it: the auto-reload value is the counter's full range, so a
   capture can be up to a whole counter period long.
   */
  function InitInputCaptureFullRange(t: Timer, hclk: UInt32, f: UInt32): (r: Timer)
    requires Valid(t) && f > 0
    ensures Valid(r) && r.mode == InputCapture
    ensures r.hwArr == FullRange(t.resolution) && r.arr == FullRange(t.resolution)
    ensures f <= MaxFrequency(hclk, t.apbDiv) ==>
              f <= r.timerFrequency <= MaxFrequency(hclk, t.apbDiv)
    ensures r.capture == t.capture && r.resolution == t.resolution
  {
    SetTimerFrequency(SetARR(t, FullRange(t.resolution)), hclk, f).(mode := InputCapture)
  }

  /** The written and the intended `init_input_capture` differ only in the
      auto-reload value, and the written one never reaches the full range
      unless the register already held it. */
  lemma InputCaptureRangeDiffers(t: Timer, hclk: UInt32, f: UInt32)
    requires Valid(t) && f > 0
    ensures InitInputCapture(t, hclk, f).(arr := t.arr, hwArr := t.hwArr)
            == InitInputCaptureFullRange(t, hclk, f).(arr := t.arr, hwArr := t.hwArr)
    ensures t.hwArr != FullRange(t.resolution) ==>
              InitInputCapture(t, hclk, f).hwArr != InitInputCaptureFullRange(t, hclk, f).hwArr
  {
  }

  /** A 16-bit timer whose auto-reload register holds 1000 keeps 1000 as
      written, and counts to 0xFFFF as intended. */
  lemma InputCaptureRangeCounterexample()
    ensures var cap := CaptureState(High, Rising, 0, 0, 0);
            var t := Timer(Tim16, 1, Uninitialized, 0, 1000, 1000, 0, [0, 0, 0, 0], 0, 0, 0, 0, 0,
                           [cap, cap, cap, cap]);
            InitInputCapture(t, 72_000_000, 1_000_000).hwArr == 1000
            && InitInputCaptureFullRange(t, 72_000_000, 1_000_000).hwArr == 0xFFFF
  {
  }

  /**
   `init_pwm_input`: the tick frequency is the `uint32` product of period
   count and PWM frequency; above the input clock it is refused. Otherwise
   the timer is set up for input capture at that frequency, every channel's
   first edge and pulse width are cleared and its period count recorded,
   and the mode becomes PWM input.
   */
  function InitPwmInput(t: Timer, hclk: UInt32, periodCnt: UInt32, freq: UInt32): (r: Timer)
    requires Valid(t) && ToUInt32(periodCnt * freq) != 0
    ensures Valid(r)
    ensures ToUInt32(periodCnt * freq) > MaxFrequency(hclk, t.apbDiv) ==> r == t
    ensures ToUInt32(periodCnt * freq) <= MaxFrequency(hclk, t.apbDiv) ==>
              r.mode == PwmInput
              && ToUInt32(periodCnt * freq) <= r.timerFrequency
              && forall k :: 0 <= k < 4 ==>
                   r.capture[k] == t.capture[k].(firstEdge := 0, pulseWidth := 0, pwmInputArr := periodCnt)
  {
    var tf := ToUInt32(periodCnt * freq);
    if tf > MaxFrequency(hclk, t.apbDiv) then t
    else
      var t1 := InitInputCapture(t, hclk, tf);
      var cleared := seq(4, k requires 0 <= k < 4 =>
                           t1.capture[k].(firstEdge := 0, pulseWidth := 0, pwmInputArr := periodCnt));
      t1.(capture := cleared, mode := PwmInput)
  }

  /** `pwm_input_begin`: arm the channel for the edge that starts a pulse of
      the given level and latch that level. */
  function PwmInputBegin(t: Timer, channel: UInt32, level: Level): (r: Timer)
    requires Valid(t)
    ensures Valid(r) && AwaitingFirstEdge(r.capture[ChannelToIdx(channel)])
    ensures r.capture[ChannelToIdx(channel)].latched == level
    ensures r.capture[ChannelToIdx(channel)]
            == t.capture[ChannelToIdx(channel)].(polarity := StartEdge(level), latched := level)
    ensures forall j :: 0 <= j < 4 && j != ChannelToIdx(channel) ==> r.capture[j] == t.capture[j]
    ensures r.(capture := t.capture) == t
  {
    var k := ChannelToIdx(channel);
    var edge := if level == High then Rising else Falling;
    t.(capture := t.capture[k := t.capture[k].(polarity := edge, latched := level)])
  }

  /** The edge that starts a pulse of the latched level. */
  function StartEdge(level: Level): Edge {
    if level == High then Rising else Falling
  }

  /** The channel is armed for the edge that begins a pulse. */
  predicate AwaitingFirstEdge(c: CaptureState) {
    c.polarity == StartEdge(c.latched)
  }

  /** One capture event on a channel in PWM-input mode. */
  function CaptureEdge(c: CaptureState, captured: UInt32, hwArr: UInt32): (r: CaptureState)
    ensures r.latched == c.latched && r.pwmInputArr == c.pwmInputArr
    ensures r.polarity != c.polarity
    ensures AwaitingFirstEdge(c) ==> r.firstEdge == captured && r.pulseWidth == c.pulseWidth
    ensures !AwaitingFirstEdge(c) ==>
              r.firstEdge == c.firstEdge && r.pulseWidth == WrappedWidth(captured, c.firstEdge, hwArr)
  {
    if c.latched == High then
      if c.polarity == Rising then c.(firstEdge := captured, polarity := Falling)
      else c.(pulseWidth := WrappedWidth(captured, c.firstEdge, hwArr), polarity := Rising)
    else
      if c.polarity == Falling then c.(firstEdge := captured, polarity := Rising)
      else c.(pulseWidth := WrappedWidth(captured, c.firstEdge, hwArr), polarity := Falling)
  }

  /**
   `timer_pwm_input_interrupt_task` for active channel `k` (0..3; HAL only
   reports channels 1..4 here, any other value would leave the channel
   variable unset): outside PWM-input mode nothing happens. Otherwise the
   channel's state machine either records the first edge or computes the
   pulse width, and re-arms for the opposite edge; the other channels are
   untouched.
   */
  function PwmInputInterrupt(t: Timer, k: nat, captured: UInt32): (r: Timer)
    requires Valid(t) && k < 4
    ensures Valid(r)
    ensures t.mode != PwmInput ==> r == t
    ensures t.mode == PwmInput ==> r == t.(capture := t.capture[k := CaptureEdge(t.capture[k], captured, t.hwArr)])
  {
    if t.mode != PwmInput then t
    else t.(capture := t.capture[k := CaptureEdge(t.capture[k], captured, t.hwArr)])
  }

  /** A pulse width computed from register readings within the counting
      range lies within it. */
  lemma PulseWidthBounded(t: Timer, k: nat, captured: UInt32)
    requires Valid(t) && k < 4 && t.mode == PwmInput
    requires captured <= t.hwArr && 0 <= t.capture[k].firstEdge <= t.hwArr
    requires !AwaitingFirstEdge(t.capture[k])
    ensures 0 <= PwmInputInterrupt(t, k, captured).capture[k].pulseWidth <= t.hwArr
  {
  }

  /**
   One complete pulse: from a channel armed for the starting edge, the
   interrupts for the two edges of a pulse lasting `d` ticks (less than one
   counter period, the counter starting from any position `a`) leave the
   channel armed for the next pulse with a pulse width of exactly `d`.
   */
  lemma PulseMeasured(t: Timer, k: nat, a: nat, d: nat)
    requires Valid(t) && k < 4 && t.mode == PwmInput
    requires AwaitingFirstEdge(t.capture[k]) && d <= t.hwArr
    ensures var m := t.hwArr + 1;
            var t1 := PwmInputInterrupt(t, k, a % m);
            var t2 := PwmInputInterrupt(t1, k, (a + d) % m);
            t2.capture[k].pulseWidth == d && AwaitingFirstEdge(t2.capture[k])
            && t2.capture[k].latched == t.capture[k].latched
  {
    WrappedWidthRecoversTicks(a, d, t.hwArr);
  }

  /**
   PWM input end to end: after a successful `init_pwm_input` and
   `pwm_input_begin` on a channel, the interrupts for the two edges of a
   pulse lasting `d` ticks record exactly `d` and leave the channel armed
   for the next pulse of the same level.
   */
  lemma PwmInputSession(t: Timer, hclk: UInt32, periodCnt: UInt32, freq: UInt32,
                        channel: UInt32, level: Level, a: nat, d: nat)
    requires Valid(t) && 0 < ToUInt32(periodCnt * freq) <= MaxFrequency(hclk, t.apbDiv)
    requires d <= InitPwmInput(t, hclk, periodCnt, freq).hwArr
    ensures var t0 := PwmInputBegin(InitPwmInput(t, hclk, periodCnt, freq), channel, level);
            var k := ChannelToIdx(channel);
            var m := t0.hwArr + 1;
            var t2 := PwmInputInterrupt(PwmInputInterrupt(t0, k, a % m), k, (a + d) % m);
            t2.capture[k].pulseWidth == d && AwaitingFirstEdge(t2.capture[k])
            && t2.capture[k].latched == level
  {
    var t0 := PwmInputBegin(InitPwmInput(t, hclk, periodCnt, freq), channel, level);
    PulseMeasured(t0, ChannelToIdx(channel), a, d);
  }

  /** `init_encoder`: full counting range for the resolution, encoder mode,
      count and overflow cleared. */
  function InitEncoder(t: Timer): (r: Timer)
    requires Valid(t)
    ensures Valid(r) && r.mode == Encoder
    ensures r.hwArr == FullRange(t.resolution)
    ensures r.encoderCount == 0 && r.encoderOverflow == 0
    ensures r.resolution == t.resolution
  {
    var t1 := SetARR(t, FullRange(t.resolution));
    t1.(mode := Encoder, encoderCount := 0, encoderOverflow := 0)
  }

  /** The overflow threshold: a little below half the counter range. */
  function Threshold(res: Resolution): (th: int)
    ensures 0 < th < FullRange(res) / 2
  {
    if res == Tim16 then 32760 else 2000000000
  }

  /** The counter register read as a signed value of the timer's width. */
  function SignedCount(t: Timer): int {
    if t.resolution == Tim16 then ToInt16(t.hwCounter) else ToInt32(t.hwCounter)
  }

  /**
   `timer_encoder_overflow_interrupt_task`: in encoder mode, once the signed
   counter reaches the threshold in either direction, the overflow moves by
   the threshold in that direction and the counter (cached and hardware)
   is zeroed; below the threshold, and outside encoder mode, nothing changes.
   */
  function EncoderOverflowTask(t: Timer): (r: Timer)
    ensures t.mode != Encoder || -Threshold(t.resolution) < SignedCount(t) < Threshold(t.resolution) ==> r == t
    ensures t.mode == Encoder && SignedCount(t) >= Threshold(t.resolution) ==>
              r == t.(encoderOverflow := t.encoderOverflow + Threshold(t.resolution), cnt := 0, hwCounter := 0)
    ensures t.mode == Encoder && SignedCount(t) <= -Threshold(t.resolution) ==>
              r == t.(encoderOverflow := t.encoderOverflow - Threshold(t.resolution), cnt := 0, hwCounter := 0)
  {
    if t.mode != Encoder then t
    else
      var th := Threshold(t.resolution);
      var c := SignedCount(t);
      if c <= -th then t.(encoderOverflow := t.encoderOverflow - th, cnt := 0, hwCounter := 0)
      else if c >= th then t.(encoderOverflow := t.encoderOverflow + th, cnt := 0, hwCounter := 0)
      else t
  }

  /** The position the encoder accounts for: overflow plus signed count. */
  function Position(t: Timer): int {
    t.encoderOverflow + SignedCount(t)
  }

  /**
   The overflow task keeps the accounted position exactly when it finds the
   counter at precisely the threshold; counts beyond the threshold at the
   moment it runs are dropped.
   */
  lemma OverflowTaskKeepsPosition(t: Timer)
    requires t.mode == Encoder
    requires SignedCount(t) >= Threshold(t.resolution) || SignedCount(t) <= -Threshold(t.resolution)
    ensures Position(EncoderOverflowTask(t)) == Position(t)
            <==> SignedCount(t) == Threshold(t.resolution) || SignedCount(t) == -Threshold(t.resolution)
  {
    var r := EncoderOverflowTask(t);
    assert SignedCount(r) == 0;
  }

  /** What may happen to an encoder timer: the hardware counter moves, or
      the overflow task runs. */
  datatype EncoderEvent = CounterMoves(value: UInt32) | OverflowInterrupt

  function Apply(t: Timer, e: EncoderEvent): Timer {
    match e
    case CounterMoves(v) => t.(hwCounter := v)
    case OverflowInterrupt => EncoderOverflowTask(t)
  }

  function RunEvents(t: Timer, events: seq<EncoderEvent>): Timer
    decreases |events|
  {
    if |events| == 0 then t else RunEvents(Apply(t, events[0]), events[1..])
  }

  /**
   After `init_encoder`, whatever the counter does and however often the
   overflow task runs, the accumulated overflow is a whole multiple of the
   threshold and the timer stays in encoder mode.
   */
  lemma {:induction false} OverflowIsMultipleOfThreshold(t: Timer, events: seq<EncoderEvent>)
    requires t.mode == Encoder && t.encoderOverflow % Threshold(t.resolution) == 0
    ensures var r := RunEvents(t, events);
            r.mode == Encoder && r.resolution == t.resolution
            && r.encoderOverflow % Threshold(t.resolution) == 0
    decreases |events|
  {
    if |events| > 0 {
      var t1 := Apply(t, events[0]);
      var th := Threshold(t.resolution);
      assert t1.encoderOverflow == t.encoderOverflow
          || t1.encoderOverflow == t.encoderOverflow + th
          || t1.encoderOverflow == t.encoderOverflow - th;
      OverflowIsMultipleOfThreshold(t1, events[1..]);
    }
  }

  /** The invariant holds from `init_encoder` on. */
  lemma EncoderOverflowFromInit(t: Timer, events: seq<EncoderEvent>)
    requires Valid(t)
    ensures RunEvents(InitEncoder(t), events).encoderOverflow % Threshold(t.resolution) == 0
  {
    OverflowIsMultipleOfThreshold(InitEncoder(t), events);
  }
}
