/** The little-endian readers `u1`, `u2`, `u4` and `u8` over an immutable byte buffer,
    the signed reinterpretations the property renderer applies to them, and the
    byte-to-character view that `std::string` gives of raw bytes. */
module Bytes {

  type byte = b: int | 0 <= b < 256

  /** 256 to the power n: one more than the largest n-byte unsigned value. */
  function Pow256(n: nat): (r: nat)
    ensures r >= 1
  {
    if n == 0 then 1 else 256 * Pow256(n - 1)
  }

  /** The unsigned value of a byte string read least significant byte first:
      the independent reference definition every reader is checked against. */
  function LittleEndian(s: seq<byte>): (r: nat)
  {
    if s == [] then 0 else s[0] + 256 * LittleEndian(s[1..])
  }

  lemma {:induction false} LittleEndianBound(s: seq<byte>)
    ensures LittleEndian(s) < Pow256(|s|)
  {
    if s != [] {
      LittleEndianBound(s[1..]);
    }
  }

  /** The `n`-byte little-endian encoding of `v`: the inverse of the readers. */
  function Encode(v: nat, n: nat): (s: seq<byte>)
    requires v < Pow256(n)
    ensures |s| == n
  {
    if n == 0 then [] else [v % 256] + Encode(v / 256, n - 1)
  }

  lemma {:induction false} DecodeEncode(v: nat, n: nat)
    requires v < Pow256(n)
    ensures LittleEndian(Encode(v, n)) == v
  {
    if n > 0 {
      DecodeEncode(v / 256, n - 1);
      assert Encode(v, n)[1..] == Encode(v / 256, n - 1);
    }
  }

  lemma {:induction false} EncodeDecode(s: seq<byte>)
    ensures LittleEndian(s) < Pow256(|s|)
    ensures Encode(LittleEndian(s), |s|) == s
  {
    LittleEndianBound(s);
    if s != [] {
      EncodeDecode(s[1..]);
      assert LittleEndian(s) % 256 == s[0];
      assert LittleEndian(s) / 256 == LittleEndian(s[1..]);
    }
  }

  /** `u1`: the byte at `pos`. */
  function U1(buf: seq<byte>, pos: nat): (r: nat)
    requires pos + 1 <= |buf|
    ensures r < 256
  {
    buf[pos]
  }

  /** `u2`: `q[0] + q[1] * 0x100`. */
  function U2(buf: seq<byte>, pos: nat): (r: nat)
    requires pos + 2 <= |buf|
    ensures r < 0x1_0000
  {
    buf[pos] as int + buf[pos + 1] as int * 0x100
  }

  /** `u4`: `q[0] + q[1] * 0x100 + q[2] * 0x10000 + q[3] * 0x1000000`. */
  function U4(buf: seq<byte>, pos: nat): (r: nat)
    requires pos + 4 <= |buf|
    ensures r < 0x1_0000_0000
  {
    buf[pos] as int + buf[pos + 1] as int * 0x100 + buf[pos + 2] as int * 0x10000
      + buf[pos + 3] as int * 0x1000000
  }

  /** `u8`: the high word `u4(p + 4)` shifted left by 32 and or-ed with the low word
      `u4(p)`; the low word is below 2^32, so the or is an addition. */
  function U8(buf: seq<byte>, pos: nat): (r: nat)
    requires pos + 8 <= |buf|
    ensures r < 0x1_0000_0000_0000_0000
  {
    U4(buf, pos + 4) * 0x1_0000_0000 + U4(buf, pos)
  }

  lemma U2IsLittleEndian(buf: seq<byte>, pos: nat)
    requires pos + 2 <= |buf|
    ensures U2(buf, pos) == LittleEndian(buf[pos..pos + 2])
    ensures U2(buf, pos) < 0x1_0000
  {
    var s := buf[pos..pos + 2];
    assert s[1..][1..] == [];
    assert LittleEndian(s[1..]) == s[1];
  }

  lemma U4IsLittleEndian(buf: seq<byte>, pos: nat)
    requires pos + 4 <= |buf|
    ensures U4(buf, pos) == LittleEndian(buf[pos..pos + 4])
    ensures U4(buf, pos) < 0x1_0000_0000
  {
    var s := buf[pos..pos + 4];
    assert s[1..][1..][1..][1..] == [];
    assert LittleEndian(s[1..][1..][1..]) == s[3] as int;
    assert LittleEndian(s[1..][1..]) == s[2] as int + 256 * s[3] as int;
    assert LittleEndian(s[1..]) == s[1] as int + 256 * (s[2] as int + 256 * s[3] as int);
  }

  lemma ShiftDistributes(x: int, p: int, y: int)
    ensures 256 * (x + p * y) == 256 * x + (256 * p) * y
  {
  }

  lemma {:induction false} LittleEndianSplit(a: seq<byte>, b: seq<byte>)
    ensures LittleEndian(a + b) == LittleEndian(a) + Pow256(|a|) * LittleEndian(b)
  {
    if a != [] {
      var ab := a + b;
      assert ab[0] == a[0] && ab[1..] == a[1..] + b;
      LittleEndianSplit(a[1..], b);
      var p, x, y := Pow256(|a| - 1), LittleEndian(a[1..]), LittleEndian(b);
      assert LittleEndian(ab) == a[0] + 256 * (x + p * y);
      ShiftDistributes(x, p, y);
      assert LittleEndian(a) == a[0] + 256 * x;
      assert Pow256(|a|) == 256 * p;
    } else {
      assert a + b == b;
    }
  }

  lemma U8IsLittleEndian(buf: seq<byte>, pos: nat)
    requires pos + 8 <= |buf|
    ensures U8(buf, pos) == LittleEndian(buf[pos..pos + 8])
    ensures U8(buf, pos) < 0x1_0000_0000_0000_0000
  {
    U4IsLittleEndian(buf, pos);
    U4IsLittleEndian(buf, pos + 4);
    assert buf[pos..pos + 8] == buf[pos..pos + 4] + buf[pos + 4..pos + 8];
    LittleEndianSplit(buf[pos..pos + 4], buf[pos + 4..pos + 8]);
    assert Pow256(4) == 0x1_0000_0000;
  }

  /** Number of values of an unsigned integer `bits` wide, for the widths the engine casts. */
  function Modulus(bits: nat): (m: nat)
    requires bits == 16 || bits == 32 || bits == 64
  {
    if bits == 16 then 0x1_0000 else if bits == 32 then 0x1_0000_0000 else 0x1_0000_0000_0000_0000
  }

  /** Two's-complement reinterpretation of an unsigned `bits`-wide value, as the casts
      `(short)`, `(std::int32_t)` and `(std::int64_t)` perform it: the value of the
      signed range that is congruent to `v`. */
  function ToSigned(v: nat, bits: nat): (r: int)
    requires bits == 16 || bits == 32 || bits == 64
    requires v < Modulus(bits)
    ensures -(Modulus(bits) as int) <= 2 * r < Modulus(bits)
    ensures r % Modulus(bits) == v
  {
    if 2 * v < Modulus(bits) then v else v - Modulus(bits)
  }

  /** No other value of the signed range is congruent to `v`. */
  lemma SignedIsUnique(v: nat, bits: nat, x: int)
    requires bits == 16 || bits == 32 || bits == 64
    requires v < Modulus(bits)
    requires -(Modulus(bits) as int) <= 2 * x < Modulus(bits)
    requires x % Modulus(bits) == v
    ensures x == ToSigned(v, bits)
  {
  }

  /** The characters of a raw byte string, one per byte, as `std::string(first, last)`
      holds them. */
  function Chars(s: seq<byte>): (r: string)
    ensures |r| == |s|
    ensures forall i :: 0 <= i < |s| ==> r[i] as int == s[i]
  {
    seq(|s|, i requires 0 <= i < |s| => s[i] as char)
  }

  /** The bytes of a string whose characters are all below 256: the inverse of `Chars`. */
  function Codes(t: string): (r: seq<byte>)
    requires forall i :: 0 <= i < |t| ==> t[i] as int < 256
    ensures |r| == |t|
  {
    seq(|t|, i requires 0 <= i < |t| => t[i] as int)
  }

  lemma CodesChars(s: seq<byte>)
    ensures Codes(Chars(s)) == s
  {
  }
}
