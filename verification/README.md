# DJI M2006 motor firmware — a Dafny model

This project models the motor-control core of an STM32 robot firmware that
drives up to four DJI M2006 brushless motors over CAN through their C610
speed controllers. Three revisions of the motor driver exist side by side in
the repository (the `ActuatorsModule` driver with a per-motor velocity loop,
the older `UserCode` driver, and the `RM-dev` driver), together with an
incremental PID controller, the `stf_util.h` helpers and two timer
libraries (`stm32-thalamus` in both `RoboMaster` and `RM-dev`).

The model is split into one module per concern:

- `Bytes` — fixed-width integers, big-endian byte pairs, the C casts
  (`(int16_t)`, `(int32_t)`, `(uint32_t)`, float-to-int truncation).
- `StfUtil` — `set_byte_msb_zero`/`set_byte_msb_one` and the linear `map`.
- `MotorBus` — the current command frame (standard id `0x200`, four
  big-endian `int16` currents), the current limits of the three driver
  revisions (9999, 9900, 9500), and the motor test sweeps.
- `Feedback` — the CAN receive callback that stores angle, speed and
  torque per motor, and the raw getters.
- `IncrementalPid` — the `IncrementalPID` class: gains, `init`, the
  first-call priming and the three `calculate` variants.
- `VelocityController` — the `ActuatorsModule` motor object: construction,
  `init`, `get_velocity`, the `pid_update_motor_currents` tick,
  `set_velocity`, `stop`, `update_pid_consts`, `get_ctrl_period_ms`.
- `ParseCmd` — `M2006_Motor::parse_cmd`.
- `TimerMath` — prescaler, achieved frequency and the wrap-around pulse
  width arithmetic shared by both timer libraries.
- `StfTimer` — the `RoboMaster` `stf::Timer`: ARR/CCR/prescaler setters,
  frequency set-up, input capture, PWM input measurement and the encoder
  overflow task.
- `RmDevTimer` — the `RM-dev` `TIM` class: registry, setters, input capture
  set-up, the PWM input callback and encoder counting.

State is immutable: each operation takes a record and returns the new
record. CAN transmission is an append to a log of frames; the hardware
counter, capture registers and the CAN receive buffer are fields or
parameters. Floating point is modelled with `real`.

Two behaviours of the code are easy to overlook and are modelled as
written: `get_ctrl_period_ms` truncates the period toward zero, so the
default 5 kHz loop reports 0 ms, and the receive callback stores a frame
whose id is not a feedback id into the slot of the previously seen motor.

## Model

| member | source | states |
|---|---|---|
| Bytes.ToInt16 | RoboMaster/UserCode/ActuatorsModule/Motor/dji_m2006_motor.cpp:116 | the `(int16_t)` cast yields the signed 16-bit value congruent to its operand modulo 2^16 |
| Bytes.ToInt32 | RM-dev/stm32-thalamus/src/stf_timer.cpp:710 | the `(int32_t)` cast yields the signed 32-bit value congruent to its operand modulo 2^32 |
| Bytes.ToUInt32 | RoboMaster/stm32-thalamus/src/stf_timer.cpp:134-145 | `uint32_t` arithmetic wraps: the result is the 32-bit value congruent to the exact product |
| Bytes.TruncToInt | RoboMaster/UserCode/ActuatorsModule/Motor/dji_m2006_motor.cpp:192 | float-to-int conversion truncates toward zero: the result is the integer part, below or above the input by less than one |
| Bytes.ToInt16OfWord | RoboMaster/UserCode/ActuatorsModule/Motor/dji_m2006_motor.cpp:116 | a 16-bit word below 0x8000 reads as itself, otherwise as itself minus 2^16 |
| Bytes.BeI16RoundTrip | RoboMaster/UserCode/ActuatorsModule/Motor/dji_m2006_motor.cpp:85-95 | splitting a signed current into high and low byte and reading the pair back as big-endian `int16` gives the current back |
| Bytes.BeU16RoundTrip | RoboMaster/UserCode/ActuatorsModule/Motor/dji_m2006_motor.cpp:115 | splitting an unsigned word and reading it back as big-endian `uint16` gives it back |
| Bytes.BeI16Bytes | RoboMaster/UserCode/ActuatorsModule/Motor/dji_m2006_motor.cpp:116 | the other direction: reading any byte pair as `int16` and splitting it again gives the same two bytes |
| StfUtil.SetByteMsbZero | RoboMaster/stm32-thalamus/inc/stf_util.h:33-35 | the result has bit 7 clear, is below 0x80 and keeps the low seven bits of the input |
| StfUtil.SetByteMsbOne | RoboMaster/stm32-thalamus/inc/stf_util.h:36-38 | the result has bit 7 set, is at least 0x80 and keeps the low seven bits of the input |
| StfUtil.MsbHelpersAbsorb | RM-dev/stm32-thalamus/inc/stf_util.h:9-15 | both helpers are idempotent and each undoes the other: only the last one applied matters |
| StfUtil.Map | RoboMaster/stm32-thalamus/inc/stf_util.h:42-49 | an input outside the source range maps to 0; the source endpoints map to the target endpoints; inputs in range land between the target endpoints |
| StfUtil.MapIsAffine | RoboMaster/stm32-thalamus/inc/stf_util.h:47-48 | within range the map scales every difference by the ratio of the target width to the source width |
| StfUtil.MapMonotone | RoboMaster/stm32-thalamus/inc/stf_util.h:47-48 | within range and with an increasing target, a larger input never maps to a smaller output |
| MotorBus.Clamp | RoboMaster/UserCode/ActuatorsModule/Motor/dji_m2006_motor.cpp:68-78 | a current is saturated into `[-limit, limit]`: unchanged inside, the nearer bound outside |
| MotorBus.Pack | RoboMaster/UserCode/ActuatorsModule/Motor/dji_m2006_motor.cpp:80-95 | the frame has standard id 0x200, data frame, eight bytes, and decoding its payload returns the four currents |
| MotorBus.PackInjective | RoboMaster/UserCode/ActuatorsModule/Motor/dji_m2006_motor.cpp:85-95 | two different current vectors never produce the same frame |
| MotorBus.EncodeCommand | RoboMaster/UserCode/ActuatorsModule/Motor/dji_m2006_motor.cpp:67-95 | the frame carries, channel by channel, the requested current saturated to the limit, and every channel is within the limit |
| MotorBus.EncodeChannelsIndependent | RoboMaster/UserCode/ActuatorsModule/Motor/dji_m2006_motor.cpp:68-78 | the current sent on one channel depends only on the current requested for that channel |
| MotorBus.ActuatorsSetCurrent | RoboMaster/UserCode/ActuatorsModule/Motor/dji_m2006_motor.cpp:67-97 | one command frame is appended; each channel carries its own request saturated to ±9999, independently of the other channels, so in-range requests pass unchanged |
| MotorBus.UserCodeSetCurrent | RoboMaster/UserCode/dji_m2006_motor.cpp:59-89 | the same for the older driver: each channel is its own request saturated to ±9900 |
| MotorBus.UserCodeStop | RoboMaster/UserCode/dji_m2006_motor.cpp:91-93 | stopping appends one command frame whose four currents are zero |
| MotorBus.RmDevRoute | RM-dev/dji_m2006_motor.cpp:30-37 | channels 2–4 are sent as requested; if none of them is out of ±9500, channel 1 is its own saturated request, otherwise it is ±9500 with the sign of the last out-of-range channel |
| MotorBus.RmDevSetCurrentAsWritten | RM-dev/dji_m2006_motor.cpp:28-53 | one command frame is appended; channels 2–4 carry the request even when it exceeds the limit, and only channel 1 is bounded |
| MotorBus.RmDevSetCurrent | RM-dev/dji_m2006_motor.cpp:28-53 | the intended behaviour: every channel is saturated to ±9500 on its own and in-range requests pass unchanged |
| MotorBus.RmDevRoutingCounterexample | RM-dev/dji_m2006_motor.cpp:32-37 | a request of 10000 on motor 2 is sent as 9500 on motor 1 and 10000 on motor 2; saturating per channel sends 0 and 9500 |
| MotorBus.RmDevAgreesWithinLimit | RM-dev/dji_m2006_motor.cpp:30-37 | for requests already within ±9500 the written and intended drivers send the same frame |
| MotorBus.Sweep | RoboMaster/UserCode/dji_m2006_motor.cpp:103-129 | the up-and-down ramp of one test round stays within the limit and reaches both +limit and -limit |
| MotorBus.MotorTest | RoboMaster/UserCode/dji_m2006_motor.cpp:95-131 | four rounds, one per motor; round k drives only motor k, stays within the limit and reaches ±limit; for limits up to 9900 every vector is transmitted unchanged by `set_current` (the `ActuatorsModule` and `RM-dev` tests are the same with limits 9999 and 9500) |
| Feedback.Index | RoboMaster/UserCode/ActuatorsModule/Motor/dji_m2006_motor.hpp:12-17 | every motor id has a slot index in 0..3 |
| Feedback.MotorAt | RoboMaster/UserCode/ActuatorsModule/Motor/dji_m2006_motor.hpp:12-17 | every slot index names the motor whose index it is |
| Feedback.IndexBijective | RoboMaster/UserCode/ActuatorsModule/Motor/dji_m2006_motor.hpp:12-17 | index and motor are mutually inverse |
| Feedback.Register | RoboMaster/UserCode/ActuatorsModule/Motor/dji_m2006_motor.cpp:31-34 | `init` records the CAN handle and changes nothing else of the receive state |
| Feedback.RxCallback | RoboMaster/UserCode/ActuatorsModule/Motor/dji_m2006_motor.cpp:103-119 | frames from another CAN handle are ignored; a feedback id 0x201–0x204 selects the slot, any other id reuses the previous slot; the selected slot gets angle, speed and torque from bytes 0–5 and the other slots are untouched |
| Feedback.RxIgnoresTrailingBytes | RoboMaster/UserCode/ActuatorsModule/Motor/dji_m2006_motor.cpp:115-117 | bytes 6 and 7 of a feedback frame have no effect on the stored state |
| Feedback.RxCallbackDiscarding | RoboMaster/UserCode/ActuatorsModule/Motor/dji_m2006_motor.cpp:110-117 | the intended callback: frames whose id is not a feedback id leave the state unchanged; feedback frames are stored as before |
| Feedback.StrayFrameCounterexample | RoboMaster/UserCode/ActuatorsModule/Motor/dji_m2006_motor.cpp:110-117 | before any motor feedback, a frame with id 0x300 and payload 12 34 … sets motor 1's angle to 0x1234; the discarding callback leaves the state unchanged |
| Feedback.GettersAfterFeedback | RoboMaster/UserCode/ActuatorsModule/Motor/dji_m2006_motor.cpp:122-130 | after a feedback frame for motor m, the getters for m return the big-endian fields of that frame and the getters of every other motor are unchanged |
| Feedback.LoopbackRoundTrip | RoboMaster/UserCode/ActuatorsModule/Motor/dji_m2006_motor.cpp:116-117 | a command payload read back through the feedback field layout yields, as speed and torque, the saturated currents of channels 2 and 3: encoder and decoder agree on byte order and sign |
| IncrementalPid.Construct | RoboMaster/UserCode/ActuatorsModule/incremental_pid.hpp:97-101 | a new controller holds the given gains, zero integral and previous error, and is not yet usable |
| IncrementalPid.UpdatePidConsts | RoboMaster/UserCode/ActuatorsModule/incremental_pid.hpp:103-107 | the three gains are replaced and all other state is kept |
| IncrementalPid.Init | RoboMaster/UserCode/ActuatorsModule/incremental_pid.hpp:110-114 | the controller gets a fixed period with `period_ms × frequency = 1000` and will treat the next call as its first |
| IncrementalPid.Prime | RoboMaster/UserCode/ActuatorsModule/incremental_pid.hpp:184-189 | the first call outputs `kp × e`, resets the integral, remembers the error and clears the first-call flag |
| IncrementalPid.CalculateMeasured | RoboMaster/UserCode/ActuatorsModule/incremental_pid.hpp:168-170 | with zero rate and zero sum, or with zero `ki` and `kd`, the output is the proportional term alone |
| IncrementalPid.Calculate | RoboMaster/UserCode/ActuatorsModule/incremental_pid.hpp:127-137 | gains and period are kept, the error is remembered, and after priming the integral grows by `e × period / 1000` |
| IncrementalPid.CalculateIsIncremental | RoboMaster/UserCode/ActuatorsModule/incremental_pid.hpp:131-136 | after priming, the output is the three-term law applied to the error difference `e − prev` as proportional input, `(e − prev) / period` as rate and the updated integral as sum: `Kp·Δe + Kd·Δe/period + Ki·integral′` |
| IncrementalPid.CalculateWithRate | RoboMaster/UserCode/ActuatorsModule/incremental_pid.hpp:146-153 | the variant with a measured rate accumulates the integral like `calculate(e)` and feeds the given rate to the three-term law |
| IncrementalPid.CalculateWithSum | RoboMaster/UserCode/ActuatorsModule/incremental_pid.hpp:157-164 | the variant with a supplied sum leaves the controller state as it was and uses the finite-difference rate |
| IncrementalPid.IntegralIsRiemannSum | RoboMaster/UserCode/ActuatorsModule/incremental_pid.hpp:127-137 | after a run from a fresh `init`, the integral equals the rectangle sum of every error except the first, each weighted by the period |
| IncrementalPid.ConstantErrorStep | RoboMaster/UserCode/ActuatorsModule/incremental_pid.hpp:131-136 | with the same error as last time, the output is the integral term `ki × e × period / 1000` alone |
| IncrementalPid.ConstantErrorRamp | RoboMaster/UserCode/ActuatorsModule/incremental_pid.hpp:133 | n + 1 calls with a constant error leave the integral at `n × e × period / 1000` |
| IncrementalPid.ProportionalStep | RoboMaster/UserCode/ActuatorsModule/incremental_pid.hpp:127-137 | with `ki = kd = 0`, each output is the new proportional value minus the one already committed |
| IncrementalPid.ProportionalOutputsTelescope | RoboMaster/UserCode/ActuatorsModule/incremental_pid.hpp:127-137 | with `ki = kd = 0`, the outputs of a run sum to `kp × last error` minus what was committed at the start: the increments integrate to a P controller |
| VelocityController.ConstructWithFreq | RoboMaster/UserCode/ActuatorsModule/Motor/dji_m2006_motor.hpp:81-88 | all four controllers get the same gains, the targets are zero and nothing has been sent |
| VelocityController.Construct | RoboMaster/UserCode/ActuatorsModule/Motor/dji_m2006_motor.hpp:73-79 | without a frequency the loop runs at the 5000 Hz default |
| VelocityController.Init | RoboMaster/UserCode/ActuatorsModule/Motor/dji_m2006_motor.cpp:31-65 | the CAN handle is registered for feedback and every controller is initialised at the loop frequency; targets, gains and the frame log are kept |
| VelocityController.GetVelocity | RoboMaster/UserCode/ActuatorsModule/Motor/dji_m2006_motor.cpp:133-146 | the velocity is in ±100 and is the raw speed, saturated to ±19100, divided by 191 |
| VelocityController.VelocityScale | RoboMaster/UserCode/ActuatorsModule/Motor/dji_m2006_motor.cpp:142-144 | mapping ±19100 to ±100 is division by 191 |
| VelocityController.Saturate | RoboMaster/UserCode/ActuatorsModule/Motor/dji_m2006_motor.cpp:171-178 | the controller output is clipped to ±100, unchanged inside |
| VelocityController.AxisCurrent | RoboMaster/UserCode/ActuatorsModule/Motor/dji_m2006_motor.cpp:171-192 | the current for one motor lies within ±9999 and is the clipped output scaled by 99.99 and truncated |
| VelocityController.CurrentScale | RoboMaster/UserCode/ActuatorsModule/Motor/dji_m2006_motor.cpp:183-190 | mapping ±100 to ±9999 is multiplication by 99.99 |
| VelocityController.AxisCurrentShape | RoboMaster/UserCode/ActuatorsModule/Motor/dji_m2006_motor.cpp:171-192 | outputs of ±100 or more give full current ±9999; the current is odd in the output and has the output's sign |
| VelocityController.AxisCurrentMonotone | RoboMaster/UserCode/ActuatorsModule/Motor/dji_m2006_motor.cpp:171-192 | a larger controller output never gives a smaller current |
| VelocityController.PidUpdateMotorCurrents | RoboMaster/UserCode/ActuatorsModule/Motor/dji_m2006_motor.cpp:162-193 | one tick advances each controller on its motor's velocity error and appends exactly one command frame within ±9999 whose channel k is that controller's output converted to current |
| VelocityController.AxesIndependent | RoboMaster/UserCode/ActuatorsModule/Motor/dji_m2006_motor.cpp:162-193 | the current sent to motor k and its controller's new state depend only on motor k's controller, target and measured speed |
| VelocityController.FirstTickIsProportional | RoboMaster/UserCode/ActuatorsModule/Motor/dji_m2006_motor.cpp:61-64 | the first tick after `init` sends, on each motor, the current of `kp × error` |
| VelocityController.SetVelocity | RoboMaster/UserCode/ActuatorsModule/Motor/dji_m2006_motor.cpp:196-201 | the four targets are replaced and nothing else changes |
| VelocityController.Stop | RoboMaster/UserCode/ActuatorsModule/Motor/dji_m2006_motor.cpp:203-205 | stopping sets every target to zero and sends nothing by itself |
| VelocityController.StopAtRestSendsZero | RoboMaster/UserCode/ActuatorsModule/Motor/dji_m2006_motor.cpp:203-205 | after `stop`, a motor at rest whose controller has settled at zero error and zero integral is sent zero current on the next tick |
| VelocityController.UpdatePidConsts | RoboMaster/UserCode/ActuatorsModule/Motor/dji_m2006_motor.cpp:150-155 | every controller gets the new gains and keeps its integral, error and timing |
| VelocityController.GetCtrlPeriodMs | RoboMaster/UserCode/ActuatorsModule/Motor/dji_m2006_motor.cpp:158-160 | the period in whole milliseconds is the floor of `1000 / frequency` |
| VelocityController.DefaultPeriodTruncates | RoboMaster/UserCode/ActuatorsModule/Motor/dji_m2006_motor.cpp:158-160 | at the 5000 Hz default the reported period is 0 ms while the controllers integrate over 0.2 ms |
| ParseCmd.Find | RoboMaster/UserCode/ActuatorsModule/Motor/dji_m2006_motor.hpp:110 | the position stored from `find` is -1 exactly when the character is absent, and otherwise its first occurrence |
| ParseCmd.Substr | RoboMaster/UserCode/ActuatorsModule/Motor/dji_m2006_motor.hpp:114-118 | a negative or overlong length takes the rest of the string, otherwise exactly that many characters |
| ParseCmd.Convert | RoboMaster/UserCode/ActuatorsModule/Motor/dji_m2006_motor.hpp:114-118 | the command is produced exactly when all three conversions succeed, and holds their values |
| ParseCmd.ParseCmdAsWritten | RoboMaster/UserCode/ActuatorsModule/Motor/dji_m2006_motor.hpp:99-121 | the missing-comma guard can never fire, since `find` never returns the length; the three split fields are always converted |
| ParseCmd.TwoCommas | RoboMaster/UserCode/ActuatorsModule/Motor/dji_m2006_motor.hpp:114-118 | "a,b,c" splits into a, b and c, where c keeps any further commas |
| ParseCmd.OneComma | RoboMaster/UserCode/ActuatorsModule/Motor/dji_m2006_motor.hpp:114-118 | "a,b" splits into a, b and b |
| ParseCmd.NoComma | RoboMaster/UserCode/ActuatorsModule/Motor/dji_m2006_motor.hpp:110-118 | a string without a comma is used whole for all three fields |
| ParseCmd.ParseCmd | RoboMaster/UserCode/ActuatorsModule/Motor/dji_m2006_motor.hpp:106-113 | the intended parse: no comma gives the zero command, and with a comma it agrees with the code as written |
| ParseCmd.ParseWellFormed | RoboMaster/UserCode/ActuatorsModule/Motor/dji_m2006_motor.hpp:106-118 | a command "a,b,c" with convertible fields parses to the three converted values |
| ParseCmd.MissingCommaCounterexample | RoboMaster/UserCode/ActuatorsModule/Motor/dji_m2006_motor.hpp:110-113 | "5" parses to (5, 5, 5) as written and to the zero command as intended |
| TimerMath.FullRange | RM-dev/stm32-thalamus/src/stf_timer.cpp:556-568 | the full auto-reload value is 0xFFFF for a 16-bit timer and 0xFFFFFFFF for a 32-bit one |
| TimerMath.MaxFrequency | RoboMaster/stm32-thalamus/src/stf_timer.cpp:148-157 | the timer input clock never exceeds HCLK |
| TimerMath.PrescaledFrequencyBounds | RoboMaster/stm32-thalamus/src/stf_timer.cpp:148-157 | for a reachable request the prescaler is below the input clock and the achieved tick frequency lies between the request and the input clock |
| TimerMath.WrappedWidth | RoboMaster/stm32-thalamus/src/stf_timer.cpp:245-250 | the width is the capture difference, plus one counter period when the second capture is below the first; for register values it lies in `[0, ARR]` |
| TimerMath.WrappedWidthRecoversTicks | RoboMaster/stm32-thalamus/src/stf_timer.cpp:245-250 | a pulse shorter than one counter period is measured exactly, wherever in the period it starts |
| StfTimer.ChannelToIdx | RoboMaster/stm32-thalamus/src/stf_timer.cpp:72-79 | every channel maps to an index below 4, and an unknown channel to 0 |
| StfTimer.IdxToChannel | RoboMaster/stm32-thalamus/src/stf_timer.cpp:80-87 | every index maps to a channel, and an index of 4 or more to channel 1 |
| StfTimer.ChannelIdxBijective | RoboMaster/stm32-thalamus/src/stf_timer.cpp:72-87 | on the four channels and four indices the two conversions are mutually inverse |
| StfTimer.SetPrescaler | RoboMaster/stm32-thalamus/src/stf_timer.cpp:21-24 | only the prescaler changes |
| StfTimer.SetARR | RoboMaster/stm32-thalamus/src/stf_timer.cpp:29-44 | a value that fits the counter width is stored in the field and the register; a 16-bit timer ignores a wider value; nothing else changes |
| StfTimer.SetARRKeepsFit | RoboMaster/stm32-thalamus/src/stf_timer.cpp:29-44 | the register always holds a value that fits the counter width, and it takes the requested value exactly when it fits (or already held it) |
| StfTimer.CompareIndex | RoboMaster/stm32-thalamus/src/stf_timer.cpp:56 | `__HAL_TIM_SET_COMPARE` writes CCR1–CCR3 for channels 1–3 and CCR4 for any other selector |
| StfTimer.SetCCR | RoboMaster/stm32-thalamus/src/stf_timer.cpp:50-57 | a compare value above ARR is ignored; otherwise it is stored in the compare register the HAL macro selects and the other registers keep theirs |
| StfTimer.SetCCRKeepsDutyBounded | RoboMaster/stm32-thalamus/src/stf_timer.cpp:50-57 | if every compare value is at most ARR, it stays so after any `set_CCR` |
| StfTimer.SetTimerFrequency | RoboMaster/stm32-thalamus/src/stf_timer.cpp:148-157 | an unreachable request changes nothing; otherwise the prescaler is set and the recorded frequency lies between the request and the input clock |
| StfTimer.SetPwmFrequency | RoboMaster/stm32-thalamus/src/stf_timer.cpp:134-145 | an unreachable `period × frequency` changes nothing; otherwise the tick frequency is that product, the prescaler `max / product − 1`, and the cached ARR `max / (prescaler + 1) / frequency`; the ARR register itself is not written |
| StfTimer.PwmPeriodAtLeastCount | RoboMaster/stm32-thalamus/src/stf_timer.cpp:134-145 | when the product does not wrap, the recorded ARR is at least the requested period count |
| StfTimer.InitInputCapture | RoboMaster/stm32-thalamus/src/stf_timer.cpp:161-166 | the timer enters input-capture mode; a 16-bit timer keeps its ARR (the 32-bit request is rejected) and a 32-bit timer gets 0xFFFF |
| StfTimer.InitInputCaptureFullRange | RM-dev/stm32-thalamus/src/stf_timer.cpp:556-568 | the intended `init_input_capture`: ARR field and register become the counter's full range, the mode input capture, and a reachable tick frequency lies between the request and the input clock |
| StfTimer.InputCaptureRangeDiffers | RoboMaster/stm32-thalamus/src/stf_timer.cpp:161-166 | the written and intended initialisations agree on everything but ARR, and differ there whenever the register was not already at full range |
| StfTimer.InputCaptureRangeCounterexample | RoboMaster/stm32-thalamus/src/stf_timer.cpp:162 | a 16-bit timer with ARR 1000 keeps 1000 as written and gets 0xFFFF as intended |
| StfTimer.InitPwmInput | RoboMaster/stm32-thalamus/src/stf_timer.cpp:189-205 | an unreachable frequency changes nothing; otherwise PWM-input mode is entered and every channel's first edge and width are cleared |
| StfTimer.PwmInputBegin | RoboMaster/stm32-thalamus/src/stf_timer.cpp:207-221 | the channel latches the pulse level and is armed for the edge that starts such a pulse; the mode, the registers and every other channel are unchanged |
| StfTimer.CaptureEdge | RoboMaster/stm32-thalamus/src/stf_timer.cpp:236-271 | every capture flips the polarity; the starting edge records the first-edge time, the closing edge records the wrapped width |
| StfTimer.PwmInputInterrupt | RoboMaster/stm32-thalamus/src/stf_timer.cpp:228-274 | outside PWM-input mode nothing changes; otherwise only the interrupting channel's capture state advances |
| StfTimer.PulseWidthBounded | RoboMaster/stm32-thalamus/src/stf_timer.cpp:245-250 | a width measured from register values lies in `[0, ARR]` |
| StfTimer.PulseMeasured | RoboMaster/stm32-thalamus/src/stf_timer.cpp:228-274 | two interrupts `d` ticks apart record width `d` and leave the channel waiting for the next pulse |
| StfTimer.PwmInputSession | RoboMaster/stm32-thalamus/src/stf_timer.cpp:189-274 | after a successful `init_pwm_input` and `pwm_input_begin`, two interrupts `d` ticks apart record width `d` and re-arm the channel for the same level |
| StfTimer.InitEncoder | RoboMaster/stm32-thalamus/src/stf_timer.cpp:280-286 | encoder mode with full-range ARR and zero count and overflow |
| StfTimer.Threshold | RoboMaster/stm32-thalamus/src/stf_timer.cpp:297-332 | the overflow threshold is positive and below half the counter range, so the signed count reaches it before it wraps |
| StfTimer.EncoderOverflowTask | RoboMaster/stm32-thalamus/src/stf_timer.cpp:297-332 | outside encoder mode or below the threshold nothing changes; at or beyond ±threshold the threshold moves into the overflow and the counter restarts at 0 |
| StfTimer.OverflowTaskKeepsPosition | RoboMaster/stm32-thalamus/src/stf_timer.cpp:297-332 | when the task fires, overflow plus count is preserved exactly when the count sits at ±threshold |
| StfTimer.OverflowIsMultipleOfThreshold | RoboMaster/stm32-thalamus/src/stf_timer.cpp:297-332 | over any sequence of counter moves and overflow interrupts the accumulated overflow stays a multiple of the threshold |
| StfTimer.EncoderOverflowFromInit | RoboMaster/stm32-thalamus/src/stf_timer.cpp:280-286 | from `init_encoder` onwards the overflow is always a multiple of the threshold |
| RmDevTimer.Register | RM-dev/stm32-thalamus/src/stf_timer.cpp:26-35 | a handle already present has its entry replaced in place; a new handle is appended; the entry is then present and handles stay unique |
| RmDevTimer.RegisterAll | RM-dev/stm32-thalamus/src/stf_timer.cpp:26-35 | constructing timers one after another keeps handles unique; timers on new distinct handles each take one new slot, with no capacity check, so more than 25 of them exceed the 25-slot `ActiveTIMs` array |
| RmDevTimer.SetArr | RM-dev/stm32-thalamus/src/stf_timer.cpp:95-109 | the cached value always takes the request; the register always fits the counter width, agrees with the request in its low 16 bits and equals it exactly when the request fits; an error is reported exactly when it does not fit |
| RmDevTimer.GetArr | RM-dev/stm32-thalamus/src/stf_timer.cpp:55-58 | returns the register and makes the cached value agree with it, nothing else changing |
| RmDevTimer.ArrReadBack | RM-dev/stm32-thalamus/src/stf_timer.cpp:55-58 | reading ARR back after `setARR(v)` gives `v` exactly when `v` fits the width, otherwise its low 16 bits, and storing the read-back value raises no error and changes nothing |
| RmDevTimer.SetCnt | RM-dev/stm32-thalamus/src/stf_timer.cpp:127-130 | the field and the hardware counter take the value and nothing else changes |
| RmDevTimer.TimChannelIndex | RM-dev/stm32-thalamus/src/stf_timer.cpp:148-165 | the four channels map to 1..4 in order and anything else to 0 |
| RmDevTimer.TimChannelIndexInjective | RM-dev/stm32-thalamus/src/stf_timer.cpp:148-165 | distinct channels get distinct indices |
| RmDevTimer.SetFrequency | RM-dev/stm32-thalamus/src/stf_timer.cpp:191-204 | success exactly when the request is reachable; on failure nothing changes; on success the achieved frequency lies between the request and the input clock |
| RmDevTimer.InitIC | RM-dev/stm32-thalamus/src/stf_timer.cpp:556-568 | ARR is set to full range, the capture fields are attached with PWM input off, and the returned frequency is the recorded one, stale when the request was unreachable |
| RmDevTimer.InitPwmIn | RM-dev/stm32-thalamus/src/stf_timer.cpp:409-428 | success exactly when `max_count × frequency` is reachable; on success PWM input is on with cleared first edges and widths |
| RmDevTimer.PwmIcBegin | RM-dev/stm32-thalamus/src/stf_timer.cpp:436-446 | the pulse polarity is recorded and slot k is armed for the edge that starts such a pulse; PWM-input flag, ARR, first edges, widths and the other slots' polarities are unchanged |
| RmDevTimer.PwmInCallback | RM-dev/stm32-thalamus/src/stf_timer.cpp:483-547 | without PWM input nothing changes; otherwise the channel's polarity flips and it records either its first edge or the pulse width, corrected for a wrap with the ARR register, whose value then also becomes the cached one |
| RmDevTimer.CapturedWidthAgrees | RM-dev/stm32-thalamus/src/stf_timer.cpp:514-521 | the signed 32-bit width computation agrees with the plain wrap-around width whenever that width fits in `int32` |
| RmDevTimer.PulseMeasured | RM-dev/stm32-thalamus/src/stf_timer.cpp:507-528 | two callbacks `d` ticks apart record width `d` and re-arm the channel |
| RmDevTimer.PwmInputSession | RM-dev/stm32-thalamus/src/stf_timer.cpp:409-547 | after a successful `initPwmIn` and `pwmIcBegin`, two callbacks `d` ticks apart record width `d` and re-arm the slot |
| RmDevTimer.InitEnc | RM-dev/stm32-thalamus/src/stf_timer.cpp:644-654 | encoder mode with full-range ARR and zero count and overflow |
| RmDevTimer.ResetEnc | RM-dev/stm32-thalamus/src/stf_timer.cpp:694-698 | counter, count and overflow are cleared |
| RmDevTimer.GetEncCnt | RM-dev/stm32-thalamus/src/stf_timer.cpp:705-713 | a 16-bit count is the signed counter plus the overflow; a 32-bit count is the signed counter alone |
| RmDevTimer.ResetEncReadsZero | RM-dev/stm32-thalamus/src/stf_timer.cpp:694-713 | right after a reset the encoder reads 0 |
| RmDevTimer.EncOverflowCallbackAsWritten | RM-dev/stm32-thalamus/src/stf_timer.cpp:729-755 | a 32-bit timer is never adjusted; a 16-bit one moves ±32760 into the overflow and restarts the counter at or beyond ±32760 |
| RmDevTimer.EncOverflowCallback | RM-dev/stm32-thalamus/src/stf_timer.cpp:731-741 | the intended 32-bit branch reads the counter as `int32` and counts one overflow at or beyond ±10^9; the 16-bit branch is unchanged |
| RmDevTimer.EncOverflowCallbackBoundsCount | RM-dev/stm32-thalamus/src/stf_timer.cpp:731-741 | after the intended callback the 32-bit counter is strictly inside ±10^9 whenever it fired |
| RmDevTimer.Encoder32Counterexample | RM-dev/stm32-thalamus/src/stf_timer.cpp:733-740 | a 32-bit counter at 1.5×10^9 is left alone as written, while the intended callback counts one overflow and clears it |
| RmDevTimer.OverflowCallbackKeepsCount | RM-dev/stm32-thalamus/src/stf_timer.cpp:742-753 | when the 16-bit callback fires, the count is preserved exactly when the counter sits at ±32760 |
| RmDevTimer.Overflow16IsMultiple | RM-dev/stm32-thalamus/src/stf_timer.cpp:742-753 | over any sequence of counter moves, overflow interrupts and resets the 16-bit overflow stays a multiple of 32760 |
| RmDevTimer.Overflow16FromInit | RM-dev/stm32-thalamus/src/stf_timer.cpp:644-654 | from `initEnc` onwards the 16-bit overflow is always a multiple of 32760 |

## Left out

- CAN and timer peripheral initialisation (`HAL_CAN_Start`, filters, notifications, `HAL_TIM_*_Start`), mailbox selection and the transmit result: hardware I/O; sending is an append to a frame log.
- Exception reporting (`exception(...)` in both timer libraries, `Error_Handler()` in the motor drivers' `init`): I/O only; an operation that reports an exception returns its input unchanged or a failure flag.
- The `IncrementalPID` timing mode that measures the period from a clock: the clock is I/O; only the fixed-period mode set by `init(frequency)` is modelled.
- Floating-point rounding: `float` is modelled as `real`, so the results are the exact values the code approximates.
- The IMU, USB, peripheral wrappers and the application loops: not part of the motor-control core.
- ParseCmd.Convert: `std::stof` is a parameter; its exceptions are collapsed into a failed parse rather than propagated.
- Interrupt interleaving with the main loop: every callback is an atomic step.
- Division by zero is excluded by preconditions where the code would divide by zero: `StfTimer.SetTimerFrequency` and `RmDevTimer.SetFrequency` require a non-zero frequency; `StfTimer.SetPwmFrequency`, `StfTimer.InitPwmInput` and `RmDevTimer.InitPwmIn` require a product that does not wrap to zero; `StfTimer.InitInputCapture` and `RmDevTimer.InitIC` require a non-zero capture frequency; `StfTimer.Valid` and `RmDevTimer.Valid` require a non-zero bus division factor, the divisor of `HAL_RCC_GetHCLKFreq()`; `StfUtil.Map` requires distinct source endpoints; `IncrementalPid.Init` and `VelocityController.Init` require a positive loop frequency.
- VelocityController.GetCtrlPeriodMs: requires a period that fits in `uint32`; the cast of a larger float is undefined in C++.
- ParseCmd.Find: string positions larger than `INT_MAX` are not modelled.
- The `RoboMaster` `stf_timer.h` header is not part of this model: its field widths are taken to be wide enough not to wrap, and the channel constants are taken to be the HAL values 0x0, 0x4, 0x8 and 0xC.
- StfTimer.PwmInputBegin: `set_input_capture_polarity` is defined outside the `RoboMaster` timer sources of this model; it is taken to arm the capture edge and to record it in `input_capture[idx].polarity`, the field the capture interrupt branches on, so `StfTimer.PulseMeasured` and `StfTimer.PwmInputSession` hold under that assumption. `input_capture_begin`, which enables the capture interrupt, is hardware I/O and is not modelled.
- StfTimer.EncoderOverflowTask: `interrupt_safe_set_CNT` is likewise defined outside these sources; `interrupt_safe_set_CNT(0)` is taken to set the cached counter `cnt` to 0 (the hardware counter is zeroed by the `__HAL_TIM_SET_COUNTER` call that follows it).
- StfTimer.PwmInputInterrupt: takes the slot index 0–3 of the interrupting channel; for an `active_channel` other than `HAL_TIM_ACTIVE_CHANNEL_1`..`4` the code reads an uninitialised local channel, which has no defined behaviour.
- StfTimer.EncoderOverflowTask and RmDevTimer.EncOverflowCallback: the accumulated overflow is an unbounded integer, so its own `int32` wrap-around after about 65000 revolutions of the 16-bit counter is not modelled.
- StfTimer.SetARR: the hardware truncation of a value written into a 16-bit ARR register is not modelled, because `set_ARR` refuses such values.
- The `RM-dev` float PWM helpers `pwmWrite`, `pwmRead` and `setPwmFrequency`, and `initBasicCounting`: not part of the motor-control core.
- RmDevTimer.PwmInCallback: requires an active channel 1–4; in the code any other channel leaves a local variable uninitialised, which has no defined behaviour.
- RmDevTimer.PwmInCallback: requires attached capture fields; before `initIC` or `initPwmIn` the code dereferences a null pointer.
- The timer constructors, apart from the `RM-dev` registry: they only store the handle, resolution and bus divider.
- MotorBus.MotorTest: the delays between steps and the single-motor `motor_test(m_id)` variant are not modelled; the variant is one round of the sweep.
- StfTimer.InitPwmInput: follows `init_pwm_input` as written, which calls the swapped `init_input_capture`; its pulse measurement is stated for widths up to the ARR register that call leaves, and `StfTimer.InitInputCaptureFullRange` is the intended initialisation.
- MotorBus.Sweep: states that the ramp stays in range and reaches both limits, not the exact list of intermediate values.

## Findings

| source | as written | input that shows it | evidently intended | confidence | as-written member | corrected member |
|---|---|---|---|---|---|---|
| RM-dev/dji_m2006_motor.cpp:30-37 | an out-of-range current for motor 2, 3 or 4 is saturated and written into motor 1's channel, while the motor's own channel keeps the unsaturated request | currents (0, 10000, 0, 0) send (9500, 10000, 0, 0) | saturate each channel on its own: (0, 9500, 0, 0) | not executed | MotorBus.RmDevRoutingCounterexample | MotorBus.RmDevSetCurrent |
| RoboMaster/UserCode/ActuatorsModule/Motor/dji_m2006_motor.cpp:110-117 | a frame whose id is not 0x201–0x204 is stored into the slot of the previously seen motor | right after `init`, a frame with id 0x300 and bytes 12 34 … sets motor 1's angle to 0x1234 | discard frames that are not motor feedback | not executed | Feedback.StrayFrameCounterexample | Feedback.RxCallbackDiscarding |
| RoboMaster/UserCode/ActuatorsModule/Motor/dji_m2006_motor.hpp:110-113 | the missing-comma guard compares `find`'s result with the string length, which `find` never returns | "5" parses to (5, 5, 5) | a command without a comma yields the zero command | not executed | ParseCmd.MissingCommaCounterexample | ParseCmd.ParseCmd |
| RoboMaster/stm32-thalamus/src/stf_timer.cpp:161-166 | the auto-reload requests are swapped: a 16-bit timer asks for 0xFFFFFFFF, which `set_ARR` refuses, and a 32-bit timer asks for 0xFFFF | a 16-bit timer whose ARR holds 1000 still counts only to 1000 after `init_input_capture` | request the counter's full range, 0xFFFF or 0xFFFFFFFF, as the `RM-dev` `initIC` does | not executed | StfTimer.InputCaptureRangeCounterexample | StfTimer.InitInputCaptureFullRange |
| RM-dev/stm32-thalamus/src/stf_timer.cpp:733-740 | the 32-bit branch reads the counter through `(int16_t)`, whose value never reaches ±10^9, so the overflow is never counted | a 32-bit counter at 1500000000 is left unchanged | read the counter as `int32_t` and count an overflow at ±10^9 | not executed | RmDevTimer.Encoder32Counterexample | RmDevTimer.EncOverflowCallback |
