/**
 * A 16-bit register on the wire: high byte first, then low byte, as the
 * MODBUS Application Protocol Specification V1.1b3 lays registers out
 * (section 4.2). The write commands, the server's default image and the
 * test process image all encode with `(v >> 8) & 0xFF` and `v & 0xFF` of a
 * Java `int`, and decode with `((hi & 0xFF) << 8) | (lo & 0xFF)`.
 */
module RegisterBytes {

  /** `(byte) ((v >> 8) & 0xFF)`: an arithmetic shift of a 32-bit int is a
      floor division by 256, and the mask keeps the remainder modulo 256
      (Dafny's `/` and `%` by a positive divisor are floor division and a
      non-negative remainder, for negative `v` too). */
  function HighByte(v: int): bv8 {
    ((v / 256) % 256) as bv8
  }

  /** `(byte) (v & 0xFF)`. */
  function LowByte(v: int): bv8 {
    (v % 256) as bv8
  }

  /** The unsigned 16-bit value of a high and a low byte. */
  function Decode(hi: bv8, lo: bv8): (v: int)
    ensures 0 <= v < 65536
  {
    hi as int * 256 + lo as int
  }

  /** Decoding an encoded value gives it back modulo 2^16: the value itself
      for 0..65535, and its two's-complement 16-bit pattern below 0. */
  lemma EncodeDecode(v: int)
    ensures Decode(HighByte(v), LowByte(v)) == v % 65536
  {
    var q := v / 256;
    var lo := v % 256;
    var hi := q % 256;
    var q2 := q / 256;
    assert HighByte(v) as int == hi by { ByteValue(hi); }
    assert LowByte(v) as int == lo by { ByteValue(lo); }
    assert v == 65536 * q2 + (256 * hi + lo) by {
      assert v == 256 * q + lo;
      assert q == 256 * q2 + hi;
    }
    ModUnique(v, q2, 256 * hi + lo);
  }

  /** A number below 256 survives the trip through a byte. */
  lemma ByteValue(x: int)
    requires 0 <= x < 256
    ensures (x as bv8) as int == x
  {
    assert x % 256 == x;
  }

  /** The remainder is the only value in range that differs from `v` by a
      multiple of 65536. */
  lemma ModUnique(v: int, q: int, r: int)
    requires 0 <= r < 65536 && v == 65536 * q + r
    ensures v % 65536 == r
  {
  }

  /** Every 16-bit pattern decodes from exactly one pair of bytes. */
  lemma DecodeInjective(h1: bv8, l1: bv8, h2: bv8, l2: bv8)
    requires Decode(h1, l1) == Decode(h2, l2)
    ensures h1 == h2 && l1 == l2
  {
    DecodeValues(h1, l1, h2, l2);
    SameValueSameByte(h1, h2);
    SameValueSameByte(l1, l2);
  }

  /** Equal decodings come from bytes of equal values. */
  lemma DecodeValues(h1: bv8, l1: bv8, h2: bv8, l2: bv8)
    requires Decode(h1, l1) == Decode(h2, l2)
    ensures h1 as int == h2 as int && l1 as int == l2 as int
  {
    SplitUnique(h1 as int, l1 as int, h2 as int, l2 as int);
  }

  /** A byte is determined by its value. */
  lemma SameValueSameByte(x: bv8, y: bv8)
    requires x as int == y as int
    ensures x == y
  {
    assert (x as int) as bv8 == x;
    assert (y as int) as bv8 == y;
  }

  /** A number has one high part and one low part below 256. */
  lemma SplitUnique(a1: int, b1: int, a2: int, b2: int)
    requires 0 <= b1 < 256 && 0 <= b2 < 256 && 256 * a1 + b1 == 256 * a2 + b2
    ensures a1 == a2 && b1 == b2
  {
    DivUnique(256 * a1 + b1, a1, b1);
    DivUnique(256 * a2 + b2, a2, b2);
  }

  lemma DivUnique(d: int, q: int, r: int)
    requires 0 <= r < 256 && d == 256 * q + r
    ensures d / 256 == q && d % 256 == r
  {
  }

  /** Values from 0 to 65535 come back unchanged. */
  lemma EncodeDecodeUnsigned(v: int)
    requires 0 <= v < 65536
    ensures Decode(HighByte(v), LowByte(v)) == v
  {
    EncodeDecode(v);
    ModUnique(v, 0, v);
  }

  /** `-1` goes on the wire as `FF FF` and reads back as 65535. */
  lemma MinusOne()
    ensures HighByte(-1) == 0xFF && LowByte(-1) == 0xFF
    ensures Decode(HighByte(-1), LowByte(-1)) == 65535
  {
    assert -1 / 256 == -1 && -1 % 256 == 255 && (-1 / 256) % 256 == 255;
    assert HighByte(-1) == 0xFF && LowByte(-1) == 0xFF;
  }
}
