/** Fixed-width integers of the AVR target and the byte images the protocol
    copies onto the wire. The target is little-endian and uses two's
    complement, so a 16-bit field occupies two bytes, low byte first, and a
    signed value shares its bit pattern with the unsigned value congruent to
    it modulo 2^width. */
module Wire {

  newtype uint8 = x: int | 0 <= x < 0x100
  newtype int8 = x: int | -0x80 <= x < 0x80
  newtype uint16 = x: int | 0 <= x < 0x1_0000
  newtype int16 = x: int | -0x8000 <= x < 0x8000

  /** `static_cast<int8_t>` of a byte: the signed value with the same bits. */
  function ToInt8(b: uint8): (s: int8)
    ensures (s as int - b as int) % 0x100 == 0
    ensures s < 0 <==> b >= 0x80
  {
    if b < 0x80 then b as int as int8 else (b as int - 0x100) as int8
  }

  /** Storing a signed byte into a `uint8_t` slot: the byte with the same bits. */
  function FromInt8(s: int8): (b: uint8)
    ensures (b as int - s as int) % 0x100 == 0
    ensures s < 0 <==> b >= 0x80
  {
    if s < 0 then (s as int + 0x100) as uint8 else s as int as uint8
  }

  lemma Int8RoundTrip(s: int8)
    ensures ToInt8(FromInt8(s)) == s
  {
  }

  lemma ByteRoundTrip(b: uint8)
    ensures FromInt8(ToInt8(b)) == b
  {
  }

  /** The two bytes that `memcpy` copies out of a 16-bit value whose bit
      pattern, read as unsigned, is `bits`: low byte first. */
  function LittleEndian(bits: int): (bytes: seq<uint8>)
    requires 0 <= bits < 0x1_0000
    ensures |bytes| == 2
    ensures bytes[0] as int + 0x100 * bytes[1] as int == bits
  {
    [(bits % 0x100) as uint8, (bits / 0x100) as uint8]
  }

  /** The unsigned bit pattern that two bytes, low byte first, hold. */
  function Bits(lo: uint8, hi: uint8): (bits: int)
    ensures 0 <= bits < 0x1_0000
    ensures bits % 0x100 == lo as int && bits / 0x100 == hi as int
  {
    lo as int + 0x100 * hi as int
  }

  lemma {:induction false} BitsLittleEndian(lo: uint8, hi: uint8)
    ensures LittleEndian(Bits(lo, hi)) == [lo, hi]
  {
    var bits := Bits(lo, hi);
    assert (bits % 0x100) as uint8 == lo;
    assert (bits / 0x100) as uint8 == hi;
  }

  /** `memcpy` of a `uint16_t` into two bytes. */
  function U16Bytes(v: uint16): (bytes: seq<uint8>)
    ensures |bytes| == 2
    ensures bytes[0] as int + 0x100 * bytes[1] as int == v as int
  {
    LittleEndian(v as int)
  }

  /** `memcpy` of two bytes into a `uint16_t`. */
  function U16Of(lo: uint8, hi: uint8): (v: uint16)
    ensures v as int == lo as int + 0x100 * hi as int
  {
    Bits(lo, hi) as uint16
  }

  /** `memcpy` of an `int16_t` into two bytes (two's complement). */
  function I16Bytes(v: int16): (bytes: seq<uint8>)
    ensures |bytes| == 2
    ensures (bytes[0] as int + 0x100 * bytes[1] as int - v as int) % 0x1_0000 == 0
    ensures v < 0 <==> bytes[1] >= 0x80
  {
    LittleEndian(if v < 0 then v as int + 0x1_0000 else v as int)
  }

  /** `memcpy` of two bytes into an `int16_t` (two's complement). */
  function I16Of(lo: uint8, hi: uint8): (v: int16)
    ensures (v as int - (lo as int + 0x100 * hi as int)) % 0x1_0000 == 0
    ensures v < 0 <==> hi >= 0x80
  {
    var bits := Bits(lo, hi);
    if bits < 0x8000 then bits as int16 else (bits - 0x1_0000) as int16
  }

  /** Copying a `uint16_t` out to two bytes and back in gives the same value. */
  lemma {:induction false} U16BytesRoundTrip(v: uint16)
    ensures var bytes := U16Bytes(v); U16Of(bytes[0], bytes[1]) == v
  {
  }

  /** Copying two bytes into a `uint16_t` and back out gives the same bytes. */
  lemma {:induction false} U16OfRoundTrip(lo: uint8, hi: uint8)
    ensures U16Bytes(U16Of(lo, hi)) == [lo, hi]
  {
    BitsLittleEndian(lo, hi);
  }

  /** Copying an `int16_t` out to two bytes and back in gives the same value. */
  lemma {:induction false} I16BytesRoundTrip(v: int16)
    ensures var bytes := I16Bytes(v); I16Of(bytes[0], bytes[1]) == v
  {
  }

  /** Copying two bytes into an `int16_t` and back out gives the same bytes. */
  lemma {:induction false} I16OfRoundTrip(lo: uint8, hi: uint8)
    ensures I16Bytes(I16Of(lo, hi)) == [lo, hi]
  {
    BitsLittleEndian(lo, hi);
  }
}
