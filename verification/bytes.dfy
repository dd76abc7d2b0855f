/**
 Fixed-width integer views used by the firmware. Dafny integers are
 unbounded, so every C cast the firmware relies on is written out here:
 byte extraction by shift-and-truncate, big-endian reassembly, the
 two's-complement reinterpretation `(int16_t)` / `(int32_t)`, and the
 float-to-integer cast, which truncates toward zero.
 */
module Bytes {

  type Byte = x: int | 0 <= x < 0x100
  type Int16 = x: int | -0x8000 <= x < 0x8000
  type UInt16 = x: int | 0 <= x < 0x1_0000
  type Int32 = x: int | -0x8000_0000 <= x < 0x8000_0000
  type UInt32 = x: int | 0 <= x < 0x1_0000_0000

  /** `(uint8_t)(v >> 8)`: arithmetic shift right by 8, then keep the low byte. */
  function HighByte(v: int): Byte {
    (v / 0x100) % 0x100
  }

  /** `(uint8_t)v`: keep the low byte of the two's-complement representation. */
  function LowByte(v: int): Byte {
    v % 0x100
  }

  /** `(uint16_t)(hi << 8 | lo)`: an unsigned big-endian 16-bit word. */
  function BeU16(hi: Byte, lo: Byte): UInt16 {
    hi * 0x100 + lo
  }

  /** `(int16_t)u`: the low 16 bits of `u` read as two's complement. */
  function ToInt16(u: int): (r: Int16)
    ensures (r - u) % 0x1_0000 == 0
  {
    var w := u % 0x1_0000;
    if w >= 0x8000 then w - 0x1_0000 else w
  }

  /** `(int32_t)u`: the low 32 bits of `u` read as two's complement. */
  function ToInt32(u: int): (r: Int32)
    ensures (r - u) % 0x1_0000_0000 == 0
  {
    var w := u % 0x1_0000_0000;
    if w >= 0x8000_0000 then w - 0x1_0000_0000 else w
  }

  /** `(uint32_t)x`: arithmetic modulo 2^32. */
  function ToUInt32(x: int): (r: UInt32)
    ensures (r - x) % 0x1_0000_0000 == 0
  {
    x % 0x1_0000_0000
  }

  /** `(int16_t)(hi << 8 | lo)`: a signed big-endian 16-bit word. */
  function BeI16(hi: Byte, lo: Byte): Int16 {
    ToInt16(BeU16(hi, lo))
  }

  /** Casting a float to an integer type truncates toward zero. */
  function TruncToInt(x: real): (i: int)
    ensures 0.0 <= x ==> 0 <= i && i as real <= x < i as real + 1.0
    ensures x < 0.0 ==> i <= 0 && i as real - 1.0 < x <= i as real
  {
    if x >= 0.0 then x.Floor else -((-x).Floor)
  }

  /** Splitting a signed 16-bit word into bytes and reading them back
      as a signed big-endian word gives the word back. */
  lemma BeI16RoundTrip(v: Int16)
    ensures BeI16(HighByte(v), LowByte(v)) == v
  {
    var q, r := v / 0x100, v % 0x100;
    assert v == q * 0x100 + r;
    assert -0x80 <= q < 0x80;
    if q >= 0 {
      assert BeU16(HighByte(v), LowByte(v)) == v;
    } else {
      assert HighByte(v) == q + 0x100;
      assert BeU16(HighByte(v), LowByte(v)) == v + 0x1_0000;
    }
  }

  /** The unsigned counterpart of `BeI16RoundTrip`. */
  lemma BeU16RoundTrip(v: UInt16)
    ensures BeU16(HighByte(v), LowByte(v)) == v
  {
    var q, r := v / 0x100, v % 0x100;
    assert v == q * 0x100 + r;
    assert HighByte(v) == q;
  }

  /** The other direction: any two bytes are the high and low bytes of the
      signed word they encode, so the byte pair and the word are in bijection. */
  lemma BeI16Bytes(hi: Byte, lo: Byte)
    ensures HighByte(BeI16(hi, lo)) == hi && LowByte(BeI16(hi, lo)) == lo
  {
    var u: int := BeU16(hi, lo);
    var v := BeI16(hi, lo);
    ToInt16OfWord(u);
    if u >= 0x8000 {
      assert v == u - 0x1_0000;
      DivModByte(v, hi - 0x100, lo);
      assert (hi - 0x100) % 0x100 == hi;
    } else {
      assert v == u;
      DivModByte(v, hi, lo);
    }
  }

  /** On a 16-bit word, `(int16_t)` subtracts 2^16 exactly when bit 15 is set. */
  lemma ToInt16OfWord(u: int)
    requires 0 <= u < 0x1_0000
    ensures u < 0x8000 ==> ToInt16(u) == u
    ensures u >= 0x8000 ==> ToInt16(u) == u - 0x1_0000
  {
  }

  /** Quotient and remainder by 256 are unique. */
  lemma DivModByte(v: int, q: int, r: int)
    requires v == q * 0x100 + r && 0 <= r < 0x100
    ensures v / 0x100 == q && v % 0x100 == r
  {
  }
}
