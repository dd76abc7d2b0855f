/**
 The incoming half of the M2006 ESC CAN protocol. The receive-FIFO-0
 interrupt reads one frame and, when it arrives on the registered CAN
 handle, stores the big-endian angle (unsigned), speed and torque (both
 signed) of bytes 0-5 into the telemetry slot the frame's identifier
 selects. The slot index `motor_idx` is a persistent static: it is only
 assigned when the identifier is one of 0x201..0x204, so a frame with any
 other identifier is written into whichever slot was selected last.

 The callback runs as one atomic step on the telemetry store; the lack of
 cross-field atomicity towards the control task is not modelled.
 */
module Feedback {
  import opened Bytes
  import MotorBus

  /** `motor_id`: the four motors on one bus. */
  datatype MotorId = Motor1 | Motor2 | Motor3 | Motor4

  /** The array index a `motor_id` stands for. */
  function Index(m: MotorId): (i: nat)
    ensures i < 4
  {
    match m
    case Motor1 => 0
    case Motor2 => 1
    case Motor3 => 2
    case Motor4 => 3
  }

  /** The motor whose feedback frames carry identifier 0x201 + i. */
  function MotorAt(i: nat): (m: MotorId)
    requires i < 4
    ensures Index(m) == i
  {
    if i == 0 then Motor1 else if i == 1 then Motor2 else if i == 2 then Motor3 else Motor4
  }

  /** `Index` and `MotorAt` are inverse bijections between motors and 0..3. */
  lemma IndexBijective(m: MotorId)
    ensures MotorAt(Index(m)) == m
  {
  }

  /** A CAN peripheral handle; `Null` is the value of a pointer never assigned. */
  datatype Handle = Null | Can(id: nat)

  /** A received frame: its standard identifier and the 8-byte receive buffer. */
  datatype RxFrame = RxFrame(stdId: nat, data: seq<Byte>)

  const FEEDBACK_BASE_ID: nat := 0x201

  /** Identifiers 0x201..0x204 are the four motors' feedback frames. */
  predicate IsFeedbackId(id: nat) {
    FEEDBACK_BASE_ID <= id < FEEDBACK_BASE_ID + 4
  }

  /** The file-scope statics the interrupt shares with the motor object. */
  datatype RxStore = RxStore(hcan: Handle, motorIdx: nat,
                             angle: seq<UInt16>, speed: seq<Int16>, torque: seq<Int16>)

  predicate Valid(s: RxStore) {
    s.motorIdx < 4 && |s.angle| == 4 && |s.speed| == 4 && |s.torque| == 4
  }

  /** Static storage before `init`: everything zero, no handle registered. */
  const Initial: RxStore := RxStore(Null, 0, [0, 0, 0, 0], [0, 0, 0, 0], [0, 0, 0, 0])

  /** `init` publishes the motor object's handle to the interrupt. */
  function Register(s: RxStore, h: Handle): (r: RxStore)
    ensures r.hcan == h
    ensures r.(hcan := s.hcan) == s
  {
    s.(hcan := h)
  }

  /** Writes the three decoded fields of `data` into slot `i`. */
  function StoreSlot(s: RxStore, i: nat, data: seq<Byte>): RxStore
    requires Valid(s) && i < 4 && |data| == 8
  {
    s.(angle := s.angle[i := BeU16(data[0], data[1])],
       speed := s.speed[i := BeI16(data[2], data[3])],
       torque := s.torque[i := BeI16(data[4], data[5])])
  }

  /** Slot `i` holds exactly the fields decoded from `data`. */
  predicate SlotHolds(s: RxStore, i: nat, data: seq<Byte>)
    requires Valid(s) && i < 4 && |data| == 8
  {
    s.angle[i] == BeU16(data[0], data[1])
    && s.speed[i] == BeI16(data[2], data[3])
    && s.torque[i] == BeI16(data[4], data[5])
  }

  /** Slots other than `i` are the same in `s` and `r`. */
  predicate OthersUnchanged(s: RxStore, r: RxStore, i: nat)
    requires Valid(s) && Valid(r)
  {
    forall j :: 0 <= j < 4 && j != i ==>
      r.angle[j] == s.angle[j] && r.speed[j] == s.speed[j] && r.torque[j] == s.torque[j]
  }

  /**
   `HAL_CAN_RxFifo0MsgPendingCallback`, as written (both the ActuatorsModule
   and the UserCode revision): a frame on another handle changes nothing;
   otherwise `motor_idx` is reselected only for identifiers 0x201..0x204,
   and the slot it designates receives the frame's fields.
   */
  function RxCallback(s: RxStore, hcan: Handle, f: RxFrame): (r: RxStore)
    requires Valid(s) && hcan.Can? && |f.data| == 8
    ensures Valid(r)
    ensures hcan != s.hcan ==> r == s
    ensures hcan == s.hcan ==> r.hcan == s.hcan
    ensures hcan == s.hcan && IsFeedbackId(f.stdId) ==> r.motorIdx == f.stdId - FEEDBACK_BASE_ID
    ensures hcan == s.hcan && !IsFeedbackId(f.stdId) ==> r.motorIdx == s.motorIdx
    ensures hcan == s.hcan ==> SlotHolds(r, r.motorIdx, f.data) && OthersUnchanged(s, r, r.motorIdx)
  {
    if hcan != s.hcan then s
    else
      var idx := if IsFeedbackId(f.stdId) then f.stdId - FEEDBACK_BASE_ID else s.motorIdx;
      StoreSlot(s.(motorIdx := idx), idx, f.data)
  }

  /** Bytes 6 and 7 of a feedback frame play no part in the update. */
  lemma RxIgnoresTrailingBytes(s: RxStore, hcan: Handle, f: RxFrame, b6: Byte, b7: Byte)
    requires Valid(s) && hcan.Can? && |f.data| == 8
    ensures RxCallback(s, hcan, f) == RxCallback(s, hcan, f.(data := f.data[6 := b6][7 := b7]))
  {
  }

  /** The decoder as the protocol intends it: a frame whose identifier is
      not one of the four motors' is discarded. */
  function RxCallbackDiscarding(s: RxStore, hcan: Handle, f: RxFrame): (r: RxStore)
    requires Valid(s) && hcan.Can? && |f.data| == 8
    ensures Valid(r)
    ensures hcan != s.hcan || !IsFeedbackId(f.stdId) ==> r == s
    ensures hcan == s.hcan && IsFeedbackId(f.stdId) ==> r == RxCallback(s, hcan, f)
  {
    if hcan == s.hcan && IsFeedbackId(f.stdId) then RxCallback(s, hcan, f) else s
  }

  /** With the as-written decoder, a stray frame (identifier 0x300) arriving
      before any motor frame overwrites motor 1's telemetry; the intended
      decoder leaves the store untouched. */
  lemma StrayFrameCounterexample()
    ensures var f := RxFrame(0x300, [0x12, 0x34, 0, 7, 0, 9, 0, 0]);
            var s := Register(Initial, Can(1));
            RxCallback(s, Can(1), f).angle[0] == 0x1234
            && RxCallbackDiscarding(s, Can(1), f) == s
  {
  }

  /** `get_raw_angle`. */
  function GetRawAngle(s: RxStore, m: MotorId): UInt16
    requires Valid(s)
  {
    s.angle[Index(m)]
  }

  /** `get_raw_speed`. */
  function GetRawSpeed(s: RxStore, m: MotorId): Int16
    requires Valid(s)
  {
    s.speed[Index(m)]
  }

  /** `get_raw_torque`. */
  function GetRawTorque(s: RxStore, m: MotorId): Int16
    requires Valid(s)
  {
    s.torque[Index(m)]
  }

  /** After a feedback frame for motor `m` on the registered handle, the
      getters for `m` return that frame's fields and the getters for every
      other motor return what they returned before. */
  lemma GettersAfterFeedback(s: RxStore, f: RxFrame, m: MotorId, other: MotorId)
    requires Valid(s) && s.hcan.Can? && |f.data| == 8
    requires f.stdId == FEEDBACK_BASE_ID + Index(m) && other != m
    ensures var r := RxCallback(s, s.hcan, f);
            GetRawAngle(r, m) == BeU16(f.data[0], f.data[1])
            && GetRawSpeed(r, m) == BeI16(f.data[2], f.data[3])
            && GetRawTorque(r, m) == BeI16(f.data[4], f.data[5])
            && GetRawAngle(r, other) == GetRawAngle(s, other)
            && GetRawSpeed(r, other) == GetRawSpeed(s, other)
            && GetRawTorque(r, other) == GetRawTorque(s, other)
  {
    var r := RxCallback(s, s.hcan, f);
    assert r.motorIdx == Index(m);
    assert Index(other) != Index(m) by {
      IndexBijective(m);
      IndexBijective(other);
    }
  }

  /** Looped back through the feedback decoder's field layout, the speed and
      torque fields of a command payload read back the clamped currents of
      channels 2 and 3: encoder and decoder agree on byte order and sign. */
  lemma LoopbackRoundTrip(s: RxStore, c: MotorBus.Currents, limit: int, m: MotorId)
    requires Valid(s) && s.hcan.Can? && 0 <= limit < 0x8000
    ensures var tx := MotorBus.EncodeCommand(c, limit);
            var r := RxCallback(s, s.hcan, RxFrame(FEEDBACK_BASE_ID + Index(m), tx.data));
            GetRawSpeed(r, m) == MotorBus.Clamp(c[1], limit)
            && GetRawTorque(r, m) == MotorBus.Clamp(c[2], limit)
  {
    var tx := MotorBus.EncodeCommand(c, limit);
    assert MotorBus.ChannelOf(tx, 1) == BeI16(tx.data[2], tx.data[3]);
    assert MotorBus.ChannelOf(tx, 2) == BeI16(tx.data[4], tx.data[5]);
  }
}
