/**
 The outgoing half of the M2006 ESC CAN protocol: one standard data frame
 with identifier 0x200 carries the four current commands as big-endian
 signed 16-bit words in channel order. Three firmware revisions encode it,
 differing in the current limit (9999, 9900, 9500) and, in the RM-dev
 revision, in where the clamped value is written.

 Transmission is modelled as appending the frame to a log of sent frames.
 The source ignores the mailbox result, so a frame the hardware drops is
 simply absent from the log; the model always appends.
 */
module MotorBus {
  import opened Bytes

  datatype IdType = StandardId | ExtendedId
  datatype FrameKind = DataFrame | RemoteFrame

  /** A CAN transmit header together with its payload. */
  datatype TxFrame = TxFrame(stdId: nat, ide: IdType, rtr: FrameKind, dlc: nat,
                             globalTime: bool, data: seq<Byte>)

  const COMMAND_ID: nat := 0x200

  /** Current limits of the three revisions (units of 1 mA). */
  const ACTUATORS_MAX_CURRENT: int := 9999
  const USERCODE_MAX_CURRENT: int := 9900
  const RMDEV_MAX_CURRENT: int := 9500

  /** The four `int16_t` arguments of `set_current`, channel 1 first. */
  type Currents = s: seq<Int16> | |s| == 4 witness [0, 0, 0, 0]

  /** Every channel lies within [-limit, limit]. */
  predicate WithinLimit(c: seq<int>, limit: int) {
    forall k :: 0 <= k < |c| ==> -limit <= c[k] <= limit
  }

  /** The header every command frame carries. */
  predicate IsCommandHeader(f: TxFrame) {
    f.stdId == COMMAND_ID && f.ide == StandardId && f.rtr == DataFrame
    && f.dlc == 8 && !f.globalTime && |f.data| == 8
  }

  /** The pair of `if` statements the source applies to one channel. */
  function Clamp(c: Int16, limit: int): (r: Int16)
    requires 0 <= limit < 0x8000
    ensures -limit <= r <= limit
    ensures -limit <= c <= limit ==> r == c
    ensures c > limit ==> r == limit
    ensures c < -limit ==> r == -limit
  {
    if c > limit then limit else if c < -limit then -limit else c
  }

  /** Reads channel `k` back out of a command payload (signed big-endian pair). */
  function ChannelOf(f: TxFrame, k: nat): Int16
    requires |f.data| == 8 && k < 4
  {
    BeI16(f.data[2 * k], f.data[2 * k + 1])
  }

  /** All four channels of a command payload. */
  function Unpack(f: TxFrame): (c: Currents)
    requires |f.data| == 8
  {
    [ChannelOf(f, 0), ChannelOf(f, 1), ChannelOf(f, 2), ChannelOf(f, 3)]
  }

  /** Builds the command frame from four already-limited words: bytes 2k and
      2k+1 are the high and low bytes of channel k+1. */
  function Pack(c: Currents): (f: TxFrame)
    ensures IsCommandHeader(f)
    ensures Unpack(f) == c
  {
    BeI16RoundTrip(c[0]);
    BeI16RoundTrip(c[1]);
    BeI16RoundTrip(c[2]);
    BeI16RoundTrip(c[3]);
    TxFrame(COMMAND_ID, StandardId, DataFrame, 8, false,
            [HighByte(c[0]), LowByte(c[0]), HighByte(c[1]), LowByte(c[1]),
             HighByte(c[2]), LowByte(c[2]), HighByte(c[3]), LowByte(c[3])])
  }

  /** A command payload is determined by the four words it carries. */
  lemma PackInjective(c: Currents, d: Currents)
    requires Pack(c) == Pack(d)
    ensures c == d
  {
    assert Unpack(Pack(c)) == Unpack(Pack(d));
  }

  /** `set_current` of the revisions that clamp every channel independently:
      each channel is clamped to [-limit, limit] and the result is packed. */
  function EncodeCommand(c: Currents, limit: int): (f: TxFrame)
    requires 0 <= limit < 0x8000
    ensures IsCommandHeader(f)
    ensures WithinLimit(Unpack(f), limit)
    ensures forall k :: 0 <= k < 4 && -limit <= c[k] <= limit ==> ChannelOf(f, k) == c[k]
    ensures forall k :: 0 <= k < 4 && c[k] > limit ==> ChannelOf(f, k) == limit
    ensures forall k :: 0 <= k < 4 && c[k] < -limit ==> ChannelOf(f, k) == -limit
  {
    Pack([Clamp(c[0], limit), Clamp(c[1], limit), Clamp(c[2], limit), Clamp(c[3], limit)])
  }

  /** Channel `k` of the encoded frame depends on `c[k]` alone. */
  lemma EncodeChannelsIndependent(c: Currents, d: Currents, limit: int, k: nat)
    requires 0 <= limit < 0x8000 && k < 4
    requires c[k] == d[k]
    ensures ChannelOf(EncodeCommand(c, limit), k) == ChannelOf(EncodeCommand(d, limit), k)
  {
  }

  /** `set_current` in ActuatorsModule/Motor (limit 9999), transmitting onto `log`. */
  function ActuatorsSetCurrent(log: seq<TxFrame>, c: Currents): (log': seq<TxFrame>)
    ensures |log'| == |log| + 1 && log'[..|log|] == log
    ensures IsCommandHeader(log'[|log|])
    ensures WithinLimit(Unpack(log'[|log|]), ACTUATORS_MAX_CURRENT)
    ensures WithinLimit(c, ACTUATORS_MAX_CURRENT) ==> Unpack(log'[|log|]) == c
    ensures forall k :: 0 <= k < 4 ==> ChannelOf(log'[|log|], k) == Clamp(c[k], ACTUATORS_MAX_CURRENT)
  {
    log + [EncodeCommand(c, ACTUATORS_MAX_CURRENT)]
  }

  /** `set_current` in UserCode (limit 9900), transmitting onto `log`. */
  function UserCodeSetCurrent(log: seq<TxFrame>, c: Currents): (log': seq<TxFrame>)
    ensures |log'| == |log| + 1 && log'[..|log|] == log
    ensures IsCommandHeader(log'[|log|])
    ensures WithinLimit(Unpack(log'[|log|]), USERCODE_MAX_CURRENT)
    ensures WithinLimit(c, USERCODE_MAX_CURRENT) ==> Unpack(log'[|log|]) == c
    ensures forall k :: 0 <= k < 4 ==> ChannelOf(log'[|log|], k) == Clamp(c[k], USERCODE_MAX_CURRENT)
  {
    log + [EncodeCommand(c, USERCODE_MAX_CURRENT)]
  }

  /** `stop` in UserCode transmits an all-zero command at once. */
  function UserCodeStop(log: seq<TxFrame>): (log': seq<TxFrame>)
    ensures |log'| == |log| + 1 && log'[..|log|] == log
    ensures IsCommandHeader(log'[|log|])
    ensures Unpack(log'[|log|]) == [0, 0, 0, 0]
  {
    UserCodeSetCurrent(log, [0, 0, 0, 0])
  }

  /** Whether a channel value trips one of the RM-dev revision's limit tests. */
  predicate OutOfRmDevRange(v: int) {
    v > RMDEV_MAX_CURRENT || v < -RMDEV_MAX_CURRENT
  }

  /** One channel's pair of tests in the RM-dev revision: whatever the tested
      channel, the saturated value is written into channel 1's variable. */
  function RouteIntoChannel1(acc: Int16, tested: Int16): Int16 {
    if tested > RMDEV_MAX_CURRENT then RMDEV_MAX_CURRENT
    else if tested < -RMDEV_MAX_CURRENT then -RMDEV_MAX_CURRENT
    else acc
  }

  /**
   The arguments the RM-dev `set_current` packs, as written: channel 1 is
   clamped, then the tests of channels 2, 3 and 4 each overwrite channel 1
   with +-9500 when they trip, and channels 2-4 are passed through unchanged.
   */
  function RmDevRoute(c: Currents): (r: Currents)
    ensures r[1..] == c[1..]
    ensures (forall k :: 1 <= k < 4 ==> !OutOfRmDevRange(c[k]))
            ==> r[0] == Clamp(c[0], RMDEV_MAX_CURRENT)
    ensures forall k :: 1 <= k < 4 && OutOfRmDevRange(c[k])
                        && (forall j :: k < j < 4 ==> !OutOfRmDevRange(c[j]))
              ==> r[0] == (if c[k] > 0 then RMDEV_MAX_CURRENT else -RMDEV_MAX_CURRENT)
  {
    var c1 := Clamp(c[0], RMDEV_MAX_CURRENT);
    var c1 := RouteIntoChannel1(c1, c[1]);
    var c1 := RouteIntoChannel1(c1, c[2]);
    var c1 := RouteIntoChannel1(c1, c[3]);
    [c1, c[1], c[2], c[3]]
  }

  /** `set_current` in RM-dev as written, transmitting onto `log`. */
  function RmDevSetCurrentAsWritten(log: seq<TxFrame>, c: Currents): (log': seq<TxFrame>)
    ensures |log'| == |log| + 1 && log'[..|log|] == log
    ensures IsCommandHeader(log'[|log|])
    ensures Unpack(log'[|log|])[1..] == c[1..]
    ensures -RMDEV_MAX_CURRENT <= Unpack(log'[|log|])[0] <= RMDEV_MAX_CURRENT
  {
    log + [Pack(RmDevRoute(c))]
  }

  /** `set_current` in RM-dev as evidently intended: every channel clamped to +-9500. */
  function RmDevSetCurrent(log: seq<TxFrame>, c: Currents): (log': seq<TxFrame>)
    ensures |log'| == |log| + 1 && log'[..|log|] == log
    ensures IsCommandHeader(log'[|log|])
    ensures WithinLimit(Unpack(log'[|log|]), RMDEV_MAX_CURRENT)
    ensures WithinLimit(c, RMDEV_MAX_CURRENT) ==> Unpack(log'[|log|]) == c
    ensures forall k :: 0 <= k < 4 ==> ChannelOf(log'[|log|], k) == Clamp(c[k], RMDEV_MAX_CURRENT)
  {
    log + [EncodeCommand(c, RMDEV_MAX_CURRENT)]
  }

  /** A command whose channels 2-4 exceed 9500 goes out unclamped from the
      RM-dev revision as written, and channel 1 is driven although it was
      commanded 0; the intended encoder sends [0, 9500, 0, 0]. */
  lemma RmDevRoutingCounterexample()
    ensures Unpack(RmDevSetCurrentAsWritten([], [0, 10000, 0, 0])[0]) == [9500, 10000, 0, 0]
    ensures Unpack(RmDevSetCurrent([], [0, 10000, 0, 0])[0]) == [0, 9500, 0, 0]
  {
  }

  /** When every channel is within +-9500 the as-written RM-dev encoder and
      the intended one send the same frame, so no limit branch changes anything. */
  lemma RmDevAgreesWithinLimit(log: seq<TxFrame>, c: Currents)
    requires WithinLimit(c, RMDEV_MAX_CURRENT)
    ensures RmDevSetCurrentAsWritten(log, c) == RmDevSetCurrent(log, c)
  {
    assert RmDevRoute(c) == c;
    var f := EncodeCommand(c, RMDEV_MAX_CURRENT);
    assert Unpack(f) == c;
    PackInjective([Clamp(c[0], RMDEV_MAX_CURRENT), Clamp(c[1], RMDEV_MAX_CURRENT),
                   Clamp(c[2], RMDEV_MAX_CURRENT), Clamp(c[3], RMDEV_MAX_CURRENT)], c);
  }

  /** The command with `v` on channel `k` and 0 elsewhere. */
  function OnChannel(k: nat, v: Int16): (c: Currents)
    requires k < 4
  {
    seq(4, j => if j == k then v else 0)
  }

  /** At most channel `k` is non-zero. */
  predicate DrivesOnly(c: Currents, k: nat) {
    forall j :: 0 <= j < 4 && j != k ==> c[j] == 0
  }

  /**
   The current sweep `motor_test` runs on one motor: up from 0 while below
   `limit`, down from `limit` while above -`limit`, then up from -`limit`
   while below 0, in steps of `step`.
   */
  method Sweep(limit: int, step: int) returns (vals: seq<int>)
    requires 0 < step && 0 < limit && limit + step < 0x8000
    ensures WithinLimit(vals, limit)
    ensures limit in vals && -limit in vals
  {
    vals := [];
    var curr := 0;
    while curr < limit
      invariant 0 <= curr < limit + step
      invariant WithinLimit(vals, limit)
      decreases limit - curr
    {
      vals := vals + [curr];
      curr := curr + step;
    }
    curr := limit;
    assert vals + [curr] == vals + [limit];
    while curr > -limit
      invariant -limit - step < curr <= limit
      invariant WithinLimit(vals, limit)
      invariant curr == limit || limit in vals
      decreases curr + limit
    {
      vals := vals + [curr];
      curr := curr - step;
    }
    curr := -limit;
    while curr < 0
      invariant -limit <= curr < step
      invariant WithinLimit(vals, limit)
      invariant limit in vals
      invariant curr == -limit || -limit in vals
      decreases -curr
    {
      vals := vals + [curr];
      curr := curr + step;
    }
  }

  /**
   `motor_test` of the UserCode (limit 9900, step 10) and RM-dev (limit
   9500, step 100) revisions: the sweep is run on channel 1, then 2, 3 and 4.
   `rounds[k]` lists the `set_current` arguments of round k in order. Every
   one drives channel k alone and stays within the limit, so no clamp ever
   applies, and every round reaches both +limit and -limit.
   */
  method MotorTest(limit: int, step: int) returns (rounds: seq<seq<Currents>>)
    requires 0 < step && 0 < limit && limit + step < 0x8000
    ensures |rounds| == 4
    ensures forall k :: 0 <= k < 4 ==> OnChannel(k, limit) in rounds[k] && OnChannel(k, -limit) in rounds[k]
    ensures forall k, i :: 0 <= k < 4 && 0 <= i < |rounds[k]| ==>
              WithinLimit(rounds[k][i], limit) && DrivesOnly(rounds[k][i], k)
    ensures limit <= USERCODE_MAX_CURRENT ==>
              forall k, i :: 0 <= k < 4 && 0 <= i < |rounds[k]| ==>
                Unpack(UserCodeSetCurrent([], rounds[k][i])[0]) == rounds[k][i]
  {
    var vals := Sweep(limit, step);
    rounds := [];
    var rnd := 0;
    while rnd < 4
      invariant 0 <= rnd <= 4 && |rounds| == rnd
      invariant forall k :: 0 <= k < rnd ==> OnChannel(k, limit) in rounds[k] && OnChannel(k, -limit) in rounds[k]
      invariant forall k, i :: 0 <= k < rnd && 0 <= i < |rounds[k]| ==>
                  WithinLimit(rounds[k][i], limit) && DrivesOnly(rounds[k][i], k)
    {
      var round := [];
      var i := 0;
      while i < |vals|
        invariant 0 <= i <= |vals| && |round| == i
        invariant forall j :: 0 <= j < i ==> round[j] == OnChannel(rnd, vals[j])
      {
        round := round + [OnChannel(rnd, vals[i])];
        i := i + 1;
      }
      var a :| 0 <= a < |vals| && vals[a] == limit;
      var b :| 0 <= b < |vals| && vals[b] == -limit;
      assert round[a] == OnChannel(rnd, limit) && round[b] == OnChannel(rnd, -limit);
      rounds := rounds + [round];
      rnd := rnd + 1;
    }
  }
}
