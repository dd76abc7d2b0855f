/**
 The `stf::TIM` wrapper of the RM-dev revision: the registry of live timer
 objects the interrupt handlers dispatch through, the auto-reload and
 prescaler setters, PWM input decoded from capture interrupts, and
 quadrature-encoder counting with overflow accounting.

 The registry is a sequence of (handle, object) entries; objects are
 named by number. A timer's input-capture record (`IC_fields`) is the
 caller's structure, which `initIC` adopts; it is `None` until then. The
 HCLK frequency and the counter and capture register readings are
 parameters. Exception reports are dropped. The capture arithmetic is
 written out at the firmware's widths: captures are `uint32`, first edges
 and pulse widths `int32`, and mixed arithmetic between them is done
 modulo 2^32.
 */
module RmDevTimer {
  import opened Bytes
  import opened TimerMath
  import opened Wrappers

  const TIM_NUM_CHANNELS: nat := 4
  const MAX_NUM_TIMS: nat := 25

  // ---------------------------------------------------------------------
  // Registry

  /** One slot of `ActiveTIMs`: the HAL handle and the object holding it. */
  datatype Entry = Entry(htim: nat, obj: nat)

  /** No handle is registered twice. */
  predicate UniqueHandles(reg: seq<Entry>) {
    forall i, j :: 0 <= i < j < |reg| ==> reg[i].htim != reg[j].htim
  }

  predicate Registered(reg: seq<Entry>, htim: nat) {
    exists i :: 0 <= i < |reg| && reg[i].htim == htim
  }

  /**
   The constructor's registration: the first slot holding the same handle
   is taken over by the new object and the count stays; a handle not yet
   present is appended and the count grows by one. No bound is checked, so
   registering a 26th handle writes past the 25-slot array.
   */
  method Register(reg: seq<Entry>, e: Entry) returns (reg': seq<Entry>, replaced: bool)
    ensures replaced <==> Registered(reg, e.htim)
    ensures replaced ==> (|reg'| == |reg|
              && exists i :: 0 <= i < |reg| && reg[i].htim == e.htim && reg' == reg[i := e])
    ensures !replaced ==> reg' == reg + [e]
    ensures e in reg'
    ensures UniqueHandles(reg) ==> UniqueHandles(reg')
  {
    var i := 0;
    while i < |reg|
      invariant 0 <= i <= |reg|
      invariant forall j :: 0 <= j < i ==> reg[j].htim != e.htim
    {
      if reg[i].htim == e.htim {
        reg' := reg[i := e];
        replaced := true;
        assert forall j :: 0 <= j < |reg| ==> reg'[j].htim == reg[j].htim;
        return;
      }
      i := i + 1;
    }
    reg' := reg + [e];
    replaced := false;
  }

  /** The handles of `es` are pairwise distinct and none is in `reg` yet. */
  predicate FreshHandles(reg: seq<Entry>, es: seq<Entry>) {
    (forall i :: 0 <= i < |es| ==> !Registered(reg, es[i].htim))
    && (forall i, j :: 0 <= i < j < |es| ==> es[i].htim != es[j].htim)
  }

  /**
   Constructing timer objects one after another. Handles stay unique, and
   timers on handles not seen before each take one new slot: nothing bounds
   the count, so from an empty registry a 26th distinct timer lands beyond
   the 25 slots of `ActiveTIMs`.
   */
  method RegisterAll(reg: seq<Entry>, es: seq<Entry>) returns (reg': seq<Entry>)
    ensures UniqueHandles(reg) ==> UniqueHandles(reg')
    ensures FreshHandles(reg, es) ==> reg' == reg + es
    ensures FreshHandles(reg, es) && |reg| + |es| > MAX_NUM_TIMS ==> |reg'| > MAX_NUM_TIMS
  {
    reg' := reg;
    var n := 0;
    while n < |es|
      invariant 0 <= n <= |es|
      invariant UniqueHandles(reg) ==> UniqueHandles(reg')
      invariant FreshHandles(reg, es) ==> reg' == reg + es[..n]
    {
      if FreshHandles(reg, es) {
        NotRegisteredInPrefix(reg, es, n);
      }
      var replaced;
      reg', replaced := Register(reg', es[n]);
      if FreshHandles(reg, es) {
        assert es[..n + 1] == es[..n] + [es[n]];
      }
      n := n + 1;
    }
    assert es[..|es|] == es;
  }

  /** The next fresh handle is not among those registered so far. */
  lemma NotRegisteredInPrefix(reg: seq<Entry>, es: seq<Entry>, n: nat)
    requires FreshHandles(reg, es) && n < |es|
    ensures !Registered(reg + es[..n], es[n].htim)
  {
    var cur := reg + es[..n];
    forall i | 0 <= i < |cur|
      ensures cur[i].htim != es[n].htim
    {
      if i >= |reg| {
        assert cur[i] == es[i - |reg|];
      } else {
        assert cur[i] == reg[i];
      }
    }
  }

  // ---------------------------------------------------------------------
  // Timer state

  /** `TIM_IC_RisingEdge`, `TIM_IC_FallingEdge`, `TIM_IC_BothEdge`. */
  datatype IcPolarity = Rising | Falling | BothEdge

  /** `PulseLevel`: whether the high or the low phase is the pulse. */
  datatype PulseLevel = PulseOnLow | PulseOnHigh

  /** `TIM_IC`: per-channel arrays indexed 0..4, of which 1..4 belong to
      channels 1..4 and 0 to any unknown channel. */
  datatype TimIc = TimIc(icPolarity: seq<IcPolarity>, firstEdge: seq<Int32>, pulseWidth: seq<Int32>,
                         isUsedForPwmInput: bool, pulsePolarity: PulseLevel, pwmInputMaxCount: UInt32)

  predicate WellFormedIc(ic: TimIc) {
    |ic.icPolarity| == TIM_NUM_CHANNELS + 1
    && |ic.firstEdge| == TIM_NUM_CHANNELS + 1
    && |ic.pulseWidth| == TIM_NUM_CHANNELS + 1
  }

  datatype Tim = Tim(
    htim: nat,
    apbDiv: UInt32,
    resolution: Resolution,
    prescaler: UInt32,
    arr: UInt32,          // the object's cached auto-reload value `ARR`
    hwArr: UInt32,        // the auto-reload register
    cnt: UInt32,          // cached counter value
    hwCounter: UInt32,    // the counter register
    actualFreq: UInt32,
    isEncMode: bool,
    encCnt: int,
    encOverflow: int,
    ic: Option<TimIc>)

  predicate Valid(t: Tim) {
    t.apbDiv > 0 && (t.ic.Some? ==> WellFormedIc(t.ic.value))
  }

  /**
   `setARR`: an oversized value on a 16-bit timer is reported, but the
   cached value and the register are written all the same; a 16-bit
   register keeps only the low 16 bits, so there the two disagree. The
   flag says whether an exception was raised.
   */
  function SetArr(t: Tim, v: UInt32): (r: (Tim, bool))
    ensures r.0.arr == v
    ensures FitsRange(t.resolution, r.0.hwArr) && r.0.hwArr % 0x1_0000 == v % 0x1_0000
    ensures r.0.hwArr == v <==> FitsRange(t.resolution, v)
    ensures r.1 <==> !FitsRange(t.resolution, v)
    ensures r.0.(arr := t.arr, hwArr := t.hwArr) == t
  {
    var reg := if t.resolution == Tim16 then v % 0x1_0000 else v;
    (t.(arr := v, hwArr := reg), t.resolution == Tim16 && v > 0xFFFF)
  }

  predicate FitsRange(res: Resolution, v: int) {
    0 <= v <= FullRange(res)
  }

  /** `getARR`: the auto-reload register, which also becomes the cached
      value. */
  function GetArr(t: Tim): (r: (Tim, UInt32))
    ensures r.1 == t.hwArr && r.0.arr == r.0.hwArr
    ensures r.0.(arr := t.arr) == t
  {
    (t.(arr := t.hwArr), t.hwArr)
  }

  /**
   `getARR` after `setARR(v)` gives back `v` exactly when `v` fits the
   counter width, and otherwise its low 16 bits; reading it back once more
   and storing that with `setARR` raises no exception.
   */
  lemma ArrReadBack(t: Tim, v: UInt32)
    ensures GetArr(SetArr(t, v).0).1 == v <==> FitsRange(t.resolution, v)
    ensures !FitsRange(t.resolution, v) ==> GetArr(SetArr(t, v).0).1 == v % 0x1_0000
    ensures var back := GetArr(SetArr(t, v).0);
            !SetArr(back.0, back.1).1 && SetArr(back.0, back.1).0 == back.0
  {
  }

  /** `setCNT`: the cached counter and the counter register. */
  function SetCnt(t: Tim, v: UInt32): (r: Tim)
    ensures r.cnt == v && r.hwCounter == v
    ensures r.(cnt := t.cnt, hwCounter := t.hwCounter) == t
  {
    t.(cnt := v, hwCounter := v)
  }

  /** HAL's channel selectors `TIM_CHANNEL_1`..`TIM_CHANNEL_4`. */
  const CHANNELS: seq<UInt32> := [0x0, 0x4, 0x8, 0xC]

  /** `tim_channel_index`: channels 1..4 to slots 1..4, anything else to 0. */
  function TimChannelIndex(channel: UInt32): (idx: nat)
    ensures idx <= TIM_NUM_CHANNELS
    ensures idx == 0 <==> channel !in CHANNELS
    ensures idx > 0 ==> CHANNELS[idx - 1] == channel
  {
    if channel == CHANNELS[0] then 1
    else if channel == CHANNELS[1] then 2
    else if channel == CHANNELS[2] then 3
    else if channel == CHANNELS[3] then 4
    else 0
  }

  /** Distinct channels get distinct slots. */
  lemma TimChannelIndexInjective(a: UInt32, b: UInt32)
    requires a in CHANNELS && b in CHANNELS && a != b
    ensures TimChannelIndex(a) != TimChannelIndex(b)
  {
  }

  /**
   `setFrequency`: fails, changing nothing, exactly when the request exceeds
   the timer input clock. Otherwise the prescaler becomes `max / f - 1` and
   `ActualFreq` `max / (prescaler + 1)`, between the request and the input
   clock. The firmware divides by `f`, so 0 is outside its contract.
   */
  function SetFrequency(t: Tim, hclk: UInt32, f: UInt32): (r: (Tim, bool))
    requires Valid(t) && f > 0
    ensures Valid(r.0)
    ensures r.1 <==> f <= MaxFrequency(hclk, t.apbDiv)
    ensures !r.1 ==> r.0 == t
    ensures r.1 ==> r.0.prescaler == PrescalerFor(MaxFrequency(hclk, t.apbDiv), f)
                    && r.0.actualFreq == ActualFrequency(MaxFrequency(hclk, t.apbDiv), r.0.prescaler)
                    && f <= r.0.actualFreq <= MaxFrequency(hclk, t.apbDiv)
    ensures r.0.(prescaler := t.prescaler, actualFreq := t.actualFreq) == t
  {
    var maxf := MaxFrequency(hclk, t.apbDiv);
    if f > maxf then (t, false)
    else
      PrescaledFrequencyBounds(maxf, f);
      var p := PrescalerFor(maxf, f);
      (t.(prescaler := p, actualFreq := ActualFrequency(maxf, p)), true)
  }

  /**
   `initIC`: the full counting range for the resolution, the tick frequency
   (its failure is ignored), then the caller's record is adopted with PWM
   input switched off. Returns `ActualFreq`, which is stale when the
   frequency was refused.
   */
  function InitIC(t: Tim, hclk: UInt32, fields: TimIc, f: UInt32): (r: (Tim, UInt32))
    requires Valid(t) && WellFormedIc(fields) && f > 0
    ensures Valid(r.0)
    ensures r.0.arr == FullRange(t.resolution) && r.0.hwArr == FullRange(t.resolution)
    ensures r.0.ic == Some(fields.(isUsedForPwmInput := false))
    ensures r.1 == r.0.actualFreq
    ensures f <= MaxFrequency(hclk, t.apbDiv) ==> f <= r.1 <= MaxFrequency(hclk, t.apbDiv)
    ensures f > MaxFrequency(hclk, t.apbDiv) ==> r.1 == t.actualFreq
    ensures r.0.isEncMode == t.isEncMode && r.0.resolution == t.resolution
  {
    var t1 := SetArr(t, FullRange(t.resolution)).0;
    var t2 := SetFrequency(t1, hclk, f).0;
    var t3 := t2.(ic := Some(fields.(isUsedForPwmInput := false)));
    (t3, t3.actualFreq)
  }

  /** `fields` with slots 1..4 of the first-edge and pulse-width arrays
      cleared; slot 0 is left alone. */
  function ClearChannels(fields: TimIc): (r: TimIc)
    requires WellFormedIc(fields)
    ensures WellFormedIc(r)
  {
    fields.(firstEdge := [fields.firstEdge[0], 0, 0, 0, 0],
            pulseWidth := [fields.pulseWidth[0], 0, 0, 0, 0])
  }

  /**
   `initPwmIn`: the tick frequency is the `uint32` product of the count per
   PWM period and the PWM frequency. It fails, changing nothing, when that
   product exceeds the input clock. Otherwise the timer is set up for input
   capture at that frequency, the first edges and pulse widths of channels
   1..4 are cleared, and PWM input is switched on with the count recorded.
   A product of 0 would reach a division by zero.
   */
  function InitPwmIn(t: Tim, hclk: UInt32, fields: TimIc, maxCount: UInt32, pwmFreq: UInt32): (r: (Tim, bool))
    requires Valid(t) && WellFormedIc(fields) && ToUInt32(maxCount * pwmFreq) != 0
    ensures Valid(r.0)
    ensures r.1 <==> ToUInt32(maxCount * pwmFreq) <= MaxFrequency(hclk, t.apbDiv)
    ensures !r.1 ==> r.0 == t
    ensures r.1 ==> r.0.ic.Some? && r.0.arr == FullRange(t.resolution) && r.0.hwArr == FullRange(t.resolution)
    ensures r.0.resolution == t.resolution
    ensures r.1 ==> var ic := r.0.ic.value;
                    ic.isUsedForPwmInput && ic.pwmInputMaxCount == maxCount
                    && ic.icPolarity == fields.icPolarity && ic.pulsePolarity == fields.pulsePolarity
                    && ic.firstEdge[0] == fields.firstEdge[0] && ic.pulseWidth[0] == fields.pulseWidth[0]
                    && forall k :: 1 <= k <= TIM_NUM_CHANNELS ==> ic.firstEdge[k] == 0 && ic.pulseWidth[k] == 0
  {
    var tf := ToUInt32(maxCount * pwmFreq);
    if tf > MaxFrequency(hclk, t.apbDiv) then (t, false)
    else
      var t1 := InitIC(t, hclk, fields, tf).0;
      var ic := ClearChannels(t1.ic.value).(isUsedForPwmInput := true, pwmInputMaxCount := maxCount);
      (t1.(ic := Some(ic)), true)
  }

  /** `pwmIcBegin` for channel slot `k`: arm the edge that starts a pulse of
      the given level and record the level. */
  function PwmIcBegin(t: Tim, k: nat, level: PulseLevel): (r: Tim)
    requires Valid(t) && t.ic.Some? && 1 <= k <= TIM_NUM_CHANNELS
    ensures Valid(r) && r.ic.Some? && r.ic.value.pulsePolarity == level
    ensures AwaitingFirstEdge(r.ic.value, k)
    ensures r.(ic := t.ic) == t
    ensures r.ic.value == t.ic.value.(icPolarity := r.ic.value.icPolarity, pulsePolarity := level)
    ensures forall j :: 0 <= j <= TIM_NUM_CHANNELS && j != k ==> r.ic.value.icPolarity[j] == t.ic.value.icPolarity[j]
  {
    var ic := t.ic.value;
    var edge := if level == PulseOnHigh then Rising else Falling;
    t.(ic := Some(ic.(icPolarity := ic.icPolarity[k := edge], pulsePolarity := level)))
  }

  /** Slot `k` is armed for the edge that begins a pulse. */
  predicate AwaitingFirstEdge(ic: TimIc, k: nat)
    requires WellFormedIc(ic) && k <= TIM_NUM_CHANNELS
  {
    ic.icPolarity[k] == if ic.pulsePolarity == PulseOnHigh then Rising else Falling
  }

  /** Slot `k` is armed for the edge that ends a pulse. */
  predicate AwaitingSecondEdge(ic: TimIc, k: nat)
    requires WellFormedIc(ic) && k <= TIM_NUM_CHANNELS
  {
    ic.icPolarity[k] == if ic.pulsePolarity == PulseOnHigh then Falling else Rising
  }

  /**
   The pulse width as the firmware computes it: `capture - first` in
   `uint32` arithmetic stored into an `int32`; if negative, `ARR + 1` is
   added, again in `uint32` arithmetic.
   */
  function CapturedWidth(captured: UInt32, first: Int32, arr: UInt32): Int32 {
    var w := ToInt32(captured - first);
    if w < 0 then ToInt32(w + arr + 1) else w
  }

  /**
   `timPWM_IN_IT_CallBack` for channel slot `k` (1..4; any other active
   channel leaves the channel variable unset): with PWM input off nothing
   happens. Otherwise, at the edge starting a pulse the capture is stored
   as the first edge and the opposite edge armed; at the edge ending it the
   pulse width is stored and the starting edge re-armed. A slot armed for
   both edges is left alone. The wrap-around correction reads the ARR
   register through `getARR`, which also refreshes the cached value from
   it; that happens only when the raw difference is negative.
   */
  function PwmInCallback(t: Tim, k: nat, captured: UInt32): (r: Tim)
    requires Valid(t) && t.ic.Some? && 1 <= k <= TIM_NUM_CHANNELS
    ensures Valid(r) && r.ic.Some?
    ensures !t.ic.value.isUsedForPwmInput ==> r == t
    ensures var ic, ic' := t.ic.value, r.ic.value;
            ic.isUsedForPwmInput && AwaitingFirstEdge(ic, k) ==>
              ic'.firstEdge == ic.firstEdge[k := ToInt32(captured)] && ic'.pulseWidth == ic.pulseWidth
              && AwaitingSecondEdge(ic', k)
    ensures var ic, ic' := t.ic.value, r.ic.value;
            ic.isUsedForPwmInput && AwaitingSecondEdge(ic, k) ==>
              ic'.pulseWidth == ic.pulseWidth[k := CapturedWidth(captured, ic.firstEdge[k], t.hwArr)]
              && ic'.firstEdge == ic.firstEdge && AwaitingFirstEdge(ic', k)
    ensures var ic, ic' := t.ic.value, r.ic.value;
            ic'.pulsePolarity == ic.pulsePolarity && ic'.isUsedForPwmInput == ic.isUsedForPwmInput
            && forall j :: 0 <= j <= TIM_NUM_CHANNELS && j != k ==> ic'.icPolarity[j] == ic.icPolarity[j]
    ensures var ic := t.ic.value;
            r.arr == if ic.isUsedForPwmInput && AwaitingSecondEdge(ic, k) && ToInt32(captured - ic.firstEdge[k]) < 0
                     then t.hwArr else t.arr
    ensures r.(ic := t.ic, arr := t.arr) == t
  {
    var ic := t.ic.value;
    if !ic.isUsedForPwmInput then t
    else
      var (startEdge, endEdge) := if ic.pulsePolarity == PulseOnHigh then (Rising, Falling) else (Falling, Rising);
      if ic.icPolarity[k] == startEdge then
        t.(ic := Some(ic.(firstEdge := ic.firstEdge[k := ToInt32(captured)],
                          icPolarity := ic.icPolarity[k := endEdge])))
      else if ic.icPolarity[k] == endEdge then
        var wrapped := ToInt32(captured - ic.firstEdge[k]) < 0;
        t.(arr := if wrapped then t.hwArr else t.arr,
           ic := Some(ic.(pulseWidth := ic.pulseWidth[k := CapturedWidth(captured, ic.firstEdge[k], t.hwArr)],
                          icPolarity := ic.icPolarity[k := startEdge])))
      else t
  }

  /**
   On a timer set up by `initIC` (ARR at the full range of its width), the
   width computed at the `uint32`/`int32` widths is the one the plain
   wrap-around rule gives, as long as it fits in an `int32`.
   */
  lemma CapturedWidthAgrees(res: Resolution, captured: UInt32, first: UInt32)
    requires captured <= FullRange(res) && first <= FullRange(res)
    requires WrappedWidth(captured, first, FullRange(res)) < 0x8000_0000
    ensures CapturedWidth(captured, ToInt32(first), FullRange(res))
            == WrappedWidth(captured, first, FullRange(res))
  {
    var arr := FullRange(res);
    var f := ToInt32(first);
    if res == Tim16 {
      assert f == first;
    } else if first >= 0x8000_0000 {
      assert f == first - 0x1_0000_0000;
    } else {
      assert f == first;
    }
  }

  /**
   One complete pulse on a timer set up by `initIC`: from a slot armed for
   the starting edge, the callbacks for the two edges of a pulse lasting `d`
   ticks (less than one counter period and than 2^31, from any counter
   position `a`) leave the slot re-armed with a pulse width of exactly `d`.
   */
  lemma PulseMeasured(t: Tim, k: nat, a: nat, d: nat)
    requires Valid(t) && t.ic.Some? && 1 <= k <= TIM_NUM_CHANNELS
    requires t.ic.value.isUsedForPwmInput && AwaitingFirstEdge(t.ic.value, k)
    requires t.hwArr == FullRange(t.resolution) && d <= t.hwArr && d < 0x8000_0000
    ensures var m := t.hwArr + 1;
            var t1 := PwmInCallback(t, k, a % m);
            var t2 := PwmInCallback(t1, k, (a + d) % m);
            t2.ic.value.pulseWidth[k] == d && AwaitingFirstEdge(t2.ic.value, k)
  {
    var m := t.hwArr + 1;
    var t1 := PwmInCallback(t, k, a % m);
    assert AwaitingSecondEdge(t1.ic.value, k);
    WrappedWidthRecoversTicks(a, d, t.hwArr);
    CapturedWidthAgrees(t.resolution, (a + d) % m, a % m);
  }

  /**
   PWM input end to end: after a successful `initPwmIn` and `pwmIcBegin` on
   slot `k`, the callbacks for the two edges of a pulse lasting `d` ticks
   record exactly `d` and leave the slot armed for the next pulse.
   */
  lemma PwmInputSession(t: Tim, hclk: UInt32, fields: TimIc, maxCount: UInt32, pwmFreq: UInt32,
                        k: nat, level: PulseLevel, a: nat, d: nat)
    requires Valid(t) && WellFormedIc(fields) && ToUInt32(maxCount * pwmFreq) != 0
    requires InitPwmIn(t, hclk, fields, maxCount, pwmFreq).1
    requires 1 <= k <= TIM_NUM_CHANNELS && d <= FullRange(t.resolution) && d < 0x8000_0000
    ensures var t0 := PwmIcBegin(InitPwmIn(t, hclk, fields, maxCount, pwmFreq).0, k, level);
            var m := FullRange(t.resolution) + 1;
            var t2 := PwmInCallback(PwmInCallback(t0, k, a % m), k, (a + d) % m);
            t2.ic.value.pulseWidth[k] == d && AwaitingFirstEdge(t2.ic.value, k)
            && t2.ic.value.pulsePolarity == level
  {
    var t0 := PwmIcBegin(InitPwmIn(t, hclk, fields, maxCount, pwmFreq).0, k, level);
    PulseMeasured(t0, k, a, d);
  }

  // ---------------------------------------------------------------------
  // Encoder

  /** `initEnc`: full counting range for the resolution, encoder mode on,
      count and overflow cleared. */
  function InitEnc(t: Tim): (r: Tim)
    ensures r.arr == FullRange(t.resolution) && r.hwArr == FullRange(t.resolution) && r.isEncMode
    ensures r.encCnt == 0 && r.encOverflow == 0
    ensures r.(arr := t.arr, hwArr := t.hwArr, isEncMode := t.isEncMode, encCnt := t.encCnt, encOverflow := t.encOverflow) == t
  {
    SetArr(t, FullRange(t.resolution)).0.(isEncMode := true, encCnt := 0, encOverflow := 0)
  }

  /** `resetEnc`: counter, count and overflow cleared. */
  function ResetEnc(t: Tim): (r: Tim)
    ensures r.hwCounter == 0 && r.encCnt == 0 && r.encOverflow == 0
    ensures r.(cnt := t.cnt, hwCounter := t.hwCounter, encCnt := t.encCnt, encOverflow := t.encOverflow) == t
  {
    SetCnt(t, 0).(encCnt := 0, encOverflow := 0)
  }

  /**
   `getEncCNT`: on a 16-bit timer the signed counter plus the accumulated
   overflow; on a 32-bit timer the signed counter alone. The value is also
   cached in `ENC_CNT`.
   */
  function GetEncCnt(t: Tim): (r: (Tim, int))
    ensures r.0 == t.(encCnt := r.1)
    ensures t.resolution == Tim16 ==> r.1 - t.encOverflow == ToInt16(t.hwCounter)
    ensures t.resolution == Tim32 ==> r.1 == ToInt32(t.hwCounter)
  {
    var v := if t.resolution == Tim16 then ToInt16(t.hwCounter) + t.encOverflow else ToInt32(t.hwCounter);
    (t.(encCnt := v), v)
  }

  /** Right after `resetEnc` the encoder reads 0, whatever its width. */
  lemma ResetEncReadsZero(t: Tim)
    ensures GetEncCnt(ResetEnc(t)).1 == 0
  {
  }

  /** The counter value the overflow callback writes back. */
  const CLEARED: UInt32 := 0

  const OVERFLOW_16: int := 32760
  const OVERFLOW_32: int := 1000000000

  /**
   `timEnc_OverFlow_IT_CallBack`, as written. In encoder mode on a 16-bit
   timer, a signed count of at least 32760 in either direction moves the
   overflow by 32760 that way and zeroes the counter. On a 32-bit timer
   the count is also read through an `int16_t` cast before being compared
   with ±10^9, so that branch never fires.
   */
  function EncOverflowCallbackAsWritten(t: Tim): (r: Tim)
    ensures !t.isEncMode || t.resolution == Tim32 ==> r == t
    ensures t.isEncMode && t.resolution == Tim16 && ToInt16(t.hwCounter) >= OVERFLOW_16 ==>
              r == SetCnt(t, 0).(encOverflow := t.encOverflow + OVERFLOW_16)
    ensures t.isEncMode && t.resolution == Tim16 && ToInt16(t.hwCounter) <= -OVERFLOW_16 ==>
              r == SetCnt(t, 0).(encOverflow := t.encOverflow - OVERFLOW_16)
    ensures t.isEncMode && t.resolution == Tim16 && -OVERFLOW_16 < ToInt16(t.hwCounter) < OVERFLOW_16 ==>
              r == t
  {
    if !t.isEncMode then t
    else if t.resolution == Tim32 then
      var c := ToInt16(t.hwCounter);
      if c <= -OVERFLOW_32 then SetCnt(t.(encOverflow := t.encOverflow - 1), CLEARED)
      else if c >= OVERFLOW_32 then SetCnt(t.(encOverflow := t.encOverflow + 1), CLEARED)
      else t
    else
      var c := ToInt16(t.hwCounter);
      if c <= -OVERFLOW_16 then SetCnt(t.(encOverflow := t.encOverflow - OVERFLOW_16), CLEARED)
      else if c >= OVERFLOW_16 then SetCnt(t.(encOverflow := t.encOverflow + OVERFLOW_16), CLEARED)
      else t
  }

  /**
   The 32-bit branch as intended: the count is read as `int32_t`, and once
   it reaches ±10^9 the overflow counter moves by one that way and the
   counter is zeroed.
   */
  function EncOverflowCallback(t: Tim): (r: Tim)
    ensures t.resolution == Tim16 ==> r == EncOverflowCallbackAsWritten(t)
    ensures t.resolution == Tim32 && t.isEncMode && ToInt32(t.hwCounter) >= OVERFLOW_32 ==>
              r == SetCnt(t, 0).(encOverflow := t.encOverflow + 1)
    ensures t.resolution == Tim32 && t.isEncMode && ToInt32(t.hwCounter) <= -OVERFLOW_32 ==>
              r == SetCnt(t, 0).(encOverflow := t.encOverflow - 1)
    ensures t.resolution == Tim32 && (!t.isEncMode || -OVERFLOW_32 < ToInt32(t.hwCounter) < OVERFLOW_32) ==>
              r == t
  {
    if t.isEncMode && t.resolution == Tim32 then
      var c := ToInt32(t.hwCounter);
      if c <= -OVERFLOW_32 then SetCnt(t.(encOverflow := t.encOverflow - 1), CLEARED)
      else if c >= OVERFLOW_32 then SetCnt(t.(encOverflow := t.encOverflow + 1), CLEARED)
      else t
    else EncOverflowCallbackAsWritten(t)
  }

  /** The position a 32-bit encoder accounts for: the overflow counter in
      units of 10^9 plus the signed count. */
  function Position32(t: Tim): int {
    t.encOverflow * OVERFLOW_32 + ToInt32(t.hwCounter)
  }

  /** The corrected callback keeps a 32-bit count within ±10^9 and accounts
      for the whole range it removed when the count sits at ±10^9. */
  lemma EncOverflowCallbackBoundsCount(t: Tim)
    requires t.resolution == Tim32 && t.isEncMode
    ensures var r := EncOverflowCallback(t);
            -OVERFLOW_32 < ToInt32(r.hwCounter) < OVERFLOW_32
    ensures ToInt32(t.hwCounter) == OVERFLOW_32 || ToInt32(t.hwCounter) == -OVERFLOW_32 ==>
              Position32(EncOverflowCallback(t)) == Position32(t)
  {
  }

  /** A 32-bit encoder at 1.5·10^9 counts: as written the callback leaves it
      alone, and the counter runs on towards the `int32` wrap; the intended
      callback folds it into the overflow counter. */
  lemma Encoder32Counterexample(t: Tim)
    requires t.resolution == Tim32 && t.isEncMode && t.hwCounter == 1500000000 && t.encOverflow == 0
    ensures EncOverflowCallbackAsWritten(t) == t
    ensures EncOverflowCallback(t).encOverflow == 1 && EncOverflowCallback(t).hwCounter == 0
  {
  }

  /**
   On a 16-bit encoder the callback keeps what `getEncCNT` reads exactly
   when it finds the count at precisely ±32760; counts beyond that at the
   moment it runs are lost.
   */
  lemma OverflowCallbackKeepsCount(t: Tim)
    requires t.resolution == Tim16 && t.isEncMode
    requires ToInt16(t.hwCounter) >= OVERFLOW_16 || ToInt16(t.hwCounter) <= -OVERFLOW_16
    ensures GetEncCnt(EncOverflowCallbackAsWritten(t)).1 == GetEncCnt(t).1
            <==> ToInt16(t.hwCounter) == OVERFLOW_16 || ToInt16(t.hwCounter) == -OVERFLOW_16
  {
    assert ToInt16(0) == 0;
  }

  /** What may happen to an encoder: the counter register moves, the
      overflow callback runs, or the encoder is reset. */
  datatype EncEvent = CounterMoves(value: UInt32) | OverflowIrq | Reset

  function ApplyEnc(t: Tim, e: EncEvent): Tim {
    match e
    case CounterMoves(v) => t.(hwCounter := v)
    case OverflowIrq => EncOverflowCallbackAsWritten(t)
    case Reset => ResetEnc(t)
  }

  function RunEnc(t: Tim, events: seq<EncEvent>): Tim
    decreases |events|
  {
    if |events| == 0 then t else RunEnc(ApplyEnc(t, events[0]), events[1..])
  }

  /**
   On a 16-bit encoder, from `initEnc` on, whatever the counter does and
   however often the callback or a reset runs, the overflow is a whole
   multiple of 32760.
   */
  lemma {:induction false} Overflow16IsMultiple(t: Tim, events: seq<EncEvent>)
    requires t.resolution == Tim16 && t.isEncMode && t.encOverflow % OVERFLOW_16 == 0
    ensures var r := RunEnc(t, events);
            r.resolution == Tim16 && r.isEncMode && r.encOverflow % OVERFLOW_16 == 0
    decreases |events|
  {
    if |events| > 0 {
      var t1 := ApplyEnc(t, events[0]);
      assert t1.encOverflow == 0 || t1.encOverflow == t.encOverflow
          || t1.encOverflow == t.encOverflow + OVERFLOW_16
          || t1.encOverflow == t.encOverflow - OVERFLOW_16;
      Overflow16IsMultiple(t1, events[1..]);
    }
  }

  /** The invariant holds from `initEnc` on. */
  lemma Overflow16FromInit(t: Tim, events: seq<EncEvent>)
    requires t.resolution == Tim16
    ensures RunEnc(InitEnc(t), events).encOverflow % OVERFLOW_16 == 0
  {
    Overflow16IsMultiple(InitEnc(t), events);
  }
}
