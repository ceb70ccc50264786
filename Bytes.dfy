// Byte-level helpers shared by the encoder: the signed range tests the
// assembler uses (IS_SIMM8, IS_SIMM16) and the little-endian byte order in
// which immediates and displacements are appended to the code buffer.
module Bytes {

  /** IS_SIMM8: v fits in a signed byte. */
  predicate IsSimm8(v: int)
  {
    -128 <= v <= 127
  }

  /** IS_SIMM16: v fits in a signed 16-bit half-word. */
  predicate IsSimm16(v: int)
  {
    -32768 <= v <= 32767
  }

  /** 256 to the power n. */
  function Pow256(n: nat): (r: nat)
    ensures r >= 1
  {
    if n == 0 then 1 else 256 * Pow256(n - 1)
  }

  /** `v & 0xFF` on a two's-complement int: the remainder modulo 256. */
  function Lo8(v: int): bv8
  {
    (v % 256) as bv8
  }

  /**
   * The n low-order bytes of x, least significant first. Byte k is
   * (x >> 8k) & 0xFF: an arithmetic right shift is floor division, which is
   * what Dafny's `/` does for a positive divisor.
   */
  function LittleEndian(x: int, n: nat): (r: seq<bv8>)
    ensures |r| == n
    decreases n
  {
    if n == 0 then [] else [Lo8(x)] + LittleEndian(x / 256, n - 1)
  }

  /** The unsigned value of a little-endian byte sequence. */
  function ReadLittleEndian(s: seq<bv8>): nat
  {
    if s == [] then 0 else s[0] as nat + 256 * ReadLittleEndian(s[1..])
  }

  /** The two's-complement value of an n-byte unsigned quantity u. */
  function Signed(u: int, n: nat): int
  {
    if 2 * u >= Pow256(n) then u - Pow256(n) else u
  }

  lemma Lo8Value(v: int)
    ensures Lo8(v) as int == v % 256
  {
    ByteValue(v % 256);
  }

  /** A value in byte range survives the conversion to bv8 and back. */
  lemma ByteValue(m: int)
    requires 0 <= m < 256
    ensures (m as bv8) as int == m
  {
    // Splitting the range into blocks of eight keeps each bit-vector case small.
    if m < 8 { } else if m < 16 { } else if m < 24 { } else if m < 32 { }
    else if m < 40 { } else if m < 48 { } else if m < 56 { } else if m < 64 { }
    else if m < 72 { } else if m < 80 { } else if m < 88 { } else if m < 96 { }
    else if m < 104 { } else if m < 112 { } else if m < 120 { } else if m < 128 { }
    else if m < 136 { } else if m < 144 { } else if m < 152 { } else if m < 160 { }
    else if m < 168 { } else if m < 176 { } else if m < 184 { } else if m < 192 { }
    else if m < 200 { } else if m < 208 { } else if m < 216 { } else if m < 224 { }
    else if m < 232 { } else if m < 240 { } else if m < 248 { }
    else { }
  }

  /** x mod 256^(n+1) splits into its low byte and the rest. */
  lemma ModSplit(x: int, n: nat)
    ensures x % Pow256(n + 1) == x % 256 + 256 * ((x / 256) % Pow256(n))
  {
    var p := Pow256(n);
    var q := x / 256;
    var r := x % 256;
    assert x == 256 * q + r;
    var q2 := q / p;
    var r2 := q % p;
    assert q == p * q2 + r2;
    assert x == (256 * p) * q2 + (256 * r2 + r) by {
      calc {
        x;
        256 * q + r;
        256 * (p * q2 + r2) + r;
        { assert 256 * (p * q2) == (256 * p) * q2; }
        (256 * p) * q2 + (256 * r2 + r);
      }
    }
    assert 0 <= 256 * r2 + r < 256 * p;
    assert Pow256(n + 1) == 256 * p;
    ModUnique(x, 256 * p, q2, 256 * r2 + r);
  }

  /** The remainder of a division is determined by any quotient/remainder pair. */
  lemma ModUnique(x: int, d: int, q: int, r: int)
    requires d > 0 && x == d * q + r && 0 <= r < d
    ensures x % d == r && x / d == q
  {
    var q0, r0 := x / d, x % d;
    assert d * (q - q0) == r0 - r;
    if q > q0 {
      MulAtLeast(d, q - q0);
    } else if q < q0 {
      MulAtLeast(d, q0 - q);
    }
  }

  lemma MulAtLeast(d: int, k: int)
    requires d > 0 && k >= 1
    ensures d * k >= d
  {
  }

  /** Reading back the n bytes written for x gives x modulo 256^n. */
  lemma {:induction false} LittleEndianRoundTrip(x: int, n: nat)
    ensures ReadLittleEndian(LittleEndian(x, n)) == x % Pow256(n)
    decreases n
  {
    if n > 0 {
      var s := LittleEndian(x, n);
      assert s[1..] == LittleEndian(x / 256, n - 1);
      LittleEndianRoundTrip(x / 256, n - 1);
      Lo8Value(x);
      ModSplit(x, n - 1);
    }
  }

  /** A value in the signed n-byte range is recovered exactly from its n bytes. */
  lemma SignedRoundTrip(x: int, n: nat)
    requires n > 0
    requires -(Pow256(n) as int) <= 2 * x < Pow256(n)
    ensures Signed(ReadLittleEndian(LittleEndian(x, n)), n) == x
  {
    LittleEndianRoundTrip(x, n);
    var p := Pow256(n);
    if x >= 0 {
      ModUnique(x, p, 0, x);
    } else {
      ModUnique(x, p, -1, x + p);
    }
  }

  /** IS_SIMM8 values survive one byte, IS_SIMM16 values two, 32-bit ints four. */
  lemma ImmediateRoundTrips(x: int)
    ensures IsSimm8(x) ==> Signed(ReadLittleEndian(LittleEndian(x, 1)), 1) == x
    ensures IsSimm16(x) ==> Signed(ReadLittleEndian(LittleEndian(x, 2)), 2) == x
    ensures -0x8000_0000 <= x < 0x8000_0000 ==>
              Signed(ReadLittleEndian(LittleEndian(x, 4)), 4) == x
  {
    assert Pow256(1) == 256;
    assert Pow256(2) == 65536;
    assert Pow256(4) == 0x1_0000_0000 by {
      assert Pow256(3) == 0x100_0000;
    }
    if IsSimm8(x) { SignedRoundTrip(x, 1); }
    if IsSimm16(x) { SignedRoundTrip(x, 2); }
    if -0x8000_0000 <= x < 0x8000_0000 { SignedRoundTrip(x, 4); }
  }

  /** Dividing by a and then by b is dividing by a * b. */
  lemma DivDiv(x: int, a: int, b: int)
    requires a > 0 && b > 0
    ensures (x / a) / b == x / (a * b)
  {
    var q1, r1 := x / a, x % a;
    var q2, r2 := q1 / b, q1 % b;
    assert x == (a * b) * q2 + (a * r2 + r1) by {
      assert x == a * q1 + r1;
      assert q1 == b * q2 + r2;
      assert a * (b * q2 + r2) == (a * b) * q2 + a * r2;
    }
    assert a * r2 <= a * (b - 1) by {
      MulMonotone(a, r2, b - 1);
    }
    assert a * (b - 1) == a * b - a;
    ModUnique(x, a * b, q2, a * r2 + r1);
  }

  lemma MulMonotone(a: int, x: int, y: int)
    requires a >= 0 && x <= y
    ensures a * x <= a * y
  {
    assert a * y - a * x == a * (y - x);
  }

  /**
   * The four bytes written for a 32-bit quantity are (x & 0xFF),
   * ((x >> 8) & 0xFF), ((x >> 16) & 0xFF) and ((x >> 24) & 0xFF).
   */
  lemma LittleEndian4(x: int)
    ensures LittleEndian(x, 4) ==
              [Lo8(x), Lo8(x / 0x100), Lo8(x / 0x1_0000), Lo8(x / 0x100_0000)]
  {
    DivDiv(x, 0x100, 0x100);
    DivDiv(x, 0x1_0000, 0x100);
    assert LittleEndian(x, 4) == [Lo8(x)] + LittleEndian(x / 0x100, 3);
    assert LittleEndian(x / 0x100, 3) == [Lo8(x / 0x100)] + LittleEndian(x / 0x1_0000, 2);
    assert LittleEndian(x / 0x1_0000, 2) == [Lo8(x / 0x1_0000)] + LittleEndian(x / 0x100_0000, 1);
  }

  /** The two bytes written for a 16-bit quantity are (x & 0xFF) and ((x >> 8) & 0xFF). */
  lemma LittleEndian2(x: int)
    ensures LittleEndian(x, 2) == [Lo8(x), Lo8(x / 0x100)]
  {
    assert LittleEndian(x, 2) == [Lo8(x)] + LittleEndian(x / 0x100, 1);
  }
}
