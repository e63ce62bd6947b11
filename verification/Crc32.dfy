/**
 * CRC-32 as section 8 of RFC 1952 defines it: the checksum the write-ahead log and the SSTables put before every
 * record. A word is its 32 bits, least significant first. What matters elsewhere is that a change confined to four
 * consecutive bytes always changes the checksum.
 */
module Crc32 {
  import opened Bytes

  // ---------- Numbers as bits ----------

  function Bits(n: nat, width: nat): (r: seq<bool>)
    ensures |r| == width
  {
    if width == 0 then [] else [n % 2 == 1] + Bits(n / 2, width - 1)
  }

  function Number(bits: seq<bool>): nat {
    if bits == [] then 0 else (if bits[0] then 1 else 0) + 2 * Number(bits[1..])
  }

  lemma {:induction false} NumberOfBits(n: nat, width: nat)
    requires n < Pow2(width)
    ensures Number(Bits(n, width)) == n
  {
    if width > 0 {
      NumberOfBits(n / 2, width - 1);
    }
  }

  lemma {:induction false} NumberBound(bits: seq<bool>)
    ensures Number(bits) < Pow2(|bits|)
  {
    if bits != [] {
      NumberBound(bits[1..]);
    }
  }

  lemma {:induction false} NumberInjective(a: seq<bool>, b: seq<bool>)
    requires |a| == |b| && Number(a) == Number(b)
    ensures a == b
  {
    if a != [] {
      NumberInjective(a[1..], b[1..]);
      assert a == [a[0]] + a[1..] && b == [b[0]] + b[1..];
    }
  }

  // ---------- The shift register ----------

  type Word = w: seq<bool> | |w| == 32 witness Bits(0, 32)

  /** The polynomial 0xEDB88320. */
  const POLYNOMIAL: Word :=
    [false, false, false, false, false, true, false, false]
    + [true, true, false, false, false, false, false, true]
    + [false, false, false, true, true, true, false, true]
    + [true, false, true, true, false, true, true, true]

  const ALL_ONES: Word :=
    [true, true, true, true, true, true, true, true]
    + [true, true, true, true, true, true, true, true]
    + [true, true, true, true, true, true, true, true]
    + [true, true, true, true, true, true, true, true]

  function Xor(a: seq<bool>, b: seq<bool>): (r: seq<bool>)
    requires |a| == |b|
    ensures |r| == |a| && forall i :: 0 <= i < |r| ==> r[i] == (a[i] != b[i])
  {
    if a == [] then [] else [a[0] != b[0]] + Xor(a[1..], b[1..])
  }

  /** Shift right by one; if a one falls out, add the polynomial. */
  function Shift(c: Word): Word {
    if c[0] then Xor(c[1..] + [false], POLYNOMIAL) else c[1..] + [false]
  }

  function Shifts(c: Word, n: nat): Word
    decreases n
  {
    if n == 0 then c else Shifts(Shift(c), n - 1)
  }

  /** Add a byte to the low bits of the word. */
  function AddByte(c: Word, b: byte): Word {
    Xor(c[..8], Bits(b, 8)) + c[8..]
  }

  function Update(c: Word, b: byte): Word {
    Shifts(AddByte(c, b), 8)
  }

  function Register(c: Word, data: seq<byte>): Word
    decreases |data|
  {
    if data == [] then c else Register(Update(c, data[0]), data[1..])
  }

  function Octet(bits: seq<bool>): (r: byte)
    requires |bits| == 8
    ensures r == Number(bits)
  {
    NumberBound(bits);
    assert Pow2(8) == 256;
    Number(bits)
  }

  /** The four bytes of a word, most significant first. */
  function BigEndian(c: Word): (r: seq<byte>)
    ensures |r| == 4
  {
    [Octet(c[24..]), Octet(c[16..24]), Octet(c[8..16]), Octet(c[..8])]
  }

  /** The checksum of `data`, laid out as it is stored. */
  function Checksum(data: seq<byte>): (r: seq<byte>)
    ensures |r| == 4
  {
    BigEndian(Xor(Register(ALL_ONES, data), ALL_ONES))
  }

  /**
   * The generator x^32 + x^26 + x^23 + x^22 + x^16 + x^12 + x^11 + x^10 + x^8 + x^7 + x^5 + x^4 + x^2 + x + 1, its
   * highest term left out and the others with the highest in the lowest bit.
   */
  lemma PolynomialIs()
    ensures forall i :: 0 <= i < 32 ==>
      (POLYNOMIAL[i] <==> 31 - i in {26, 23, 22, 16, 12, 11, 10, 8, 7, 5, 4, 2, 1, 0})
  {
  }

  // ---------- Nothing is lost on the way ----------

  lemma XorInjective(x: seq<bool>, y: seq<bool>, z: seq<bool>)
    requires |x| == |y| == |z|
    ensures Xor(x, z) == Xor(y, z) ==> x == y
    ensures Xor(z, x) == Xor(z, y) ==> x == y
  {
    if Xor(x, z) == Xor(y, z) || Xor(z, x) == Xor(z, y) {
      forall i | 0 <= i < |x|
        ensures x[i] == y[i]
      {
        assert Xor(x, z)[i] == Xor(y, z)[i] || Xor(z, x)[i] == Xor(z, y)[i];
      }
    }
  }

  lemma ShiftInjective(x: Word, y: Word)
    requires Shift(x) == Shift(y)
    ensures x == y
  {
    assert Shift(x)[31] == x[0] && Shift(y)[31] == y[0];
    var x', y' := x[1..] + [false], y[1..] + [false];
    XorInjective(x', y', POLYNOMIAL);
    assert x == [x[0]] + x'[..31] && y == [y[0]] + y'[..31];
  }

  lemma {:induction false} ShiftsInjective(x: Word, y: Word, n: nat)
    requires Shifts(x, n) == Shifts(y, n)
    ensures x == y
    decreases n
  {
    hide Shift;
    if n > 0 {
      ShiftsInjective(Shift(x), Shift(y), n - 1);
      ShiftInjective(x, y);
    }
  }

  lemma AddByteInjective(c: Word, b: byte, c': Word, b': byte)
    requires AddByte(c, b) == AddByte(c', b')
    ensures c == c' <==> b == b'
  {
    assert AddByte(c, b)[..8] == Xor(c[..8], Bits(b, 8)) && AddByte(c, b)[8..] == c[8..];
    assert AddByte(c', b')[..8] == Xor(c'[..8], Bits(b', 8)) && AddByte(c', b')[8..] == c'[8..];
    assert c == c[..8] + c[8..] && c' == c'[..8] + c'[8..];
    XorInjective(Bits(b, 8), Bits(b', 8), c[..8]);
    XorInjective(c[..8], c'[..8], Bits(b, 8));
    assert Pow2(8) == 256;
    NumberOfBits(b, 8);
    NumberOfBits(b', 8);
  }

  lemma UpdateInjective(c: Word, b: byte, c': Word, b': byte)
    requires Update(c, b) == Update(c', b')
    ensures c == c' <==> b == b'
  {
    hide Shifts, AddByte;
    ShiftsInjective(AddByte(c, b), AddByte(c', b'), 8);
    AddByteInjective(c, b, c', b');
  }

  /** Different registers stay different over the same bytes. */
  lemma {:induction false} RegisterInjective(c: Word, c': Word, data: seq<byte>)
    requires Register(c, data) == Register(c', data)
    ensures c == c'
    decreases |data|
  {
    hide Update;
    if data != [] {
      RegisterInjective(Update(c, data[0]), Update(c', data[0]), data[1..]);
      UpdateInjective(c, data[0], c', data[0]);
    }
  }

  lemma {:induction false} RegisterConcat(c: Word, a: seq<byte>, b: seq<byte>)
    ensures Register(c, a + b) == Register(Register(c, a), b)
    decreases |a|
  {
    hide Update;
    if a == [] {
      assert a + b == b;
    } else {
      RegisterConcat(Update(c, a[0]), a[1..], b);
      assert (a + b)[1..] == a[1..] + b;
    }
  }

  lemma BigEndianInjective(x: Word, y: Word)
    requires BigEndian(x) == BigEndian(y)
    ensures x == y
  {
    assert forall k :: 0 <= k < 4 ==> BigEndian(x)[k] == BigEndian(y)[k];
    NumberInjective(x[24..], y[24..]);
    NumberInjective(x[16..24], y[16..24]);
    NumberInjective(x[8..16], y[8..16]);
    NumberInjective(x[..8], y[..8]);
    assert x == x[..8] + x[8..16] + x[16..24] + x[24..];
    assert y == y[..8] + y[8..16] + y[16..24] + y[24..];
  }

  lemma ChecksumInjective(a: seq<byte>, b: seq<byte>)
    requires Checksum(a) == Checksum(b)
    ensures Register(ALL_ONES, a) == Register(ALL_ONES, b)
  {
    hide BigEndian, Register;
    var x, y := Register(ALL_ONES, a), Register(ALL_ONES, b);
    BigEndianInjective(Xor(x, ALL_ONES), Xor(y, ALL_ONES));
    XorInjective(x, y, ALL_ONES);
  }

  // ---------- Changing up to four bytes in a row ----------

  function ZeroBits(n: nat): (r: seq<bool>)
    ensures |r| == n && forall i :: 0 <= i < n ==> !r[i]
  {
    if n == 0 then [] else [false] + ZeroBits(n - 1)
  }

  /** The bits of `x`, one byte after the other, filled up to a word. */
  function Padded(x: seq<byte>): Word
    requires |x| <= 4
  {
    AllBits(x) + ZeroBits(32 - 8 * |x|)
  }

  function AllBits(x: seq<byte>): (r: seq<bool>)
    ensures |r| == 8 * |x|
  {
    if x == [] then [] else Bits(x[0], 8) + AllBits(x[1..])
  }

  lemma {:induction false} AllBitsInjective(x: seq<byte>, y: seq<byte>)
    requires |x| == |y| && AllBits(x) == AllBits(y)
    ensures x == y
  {
    if x != [] {
      assert AllBits(x)[..8] == Bits(x[0], 8) && AllBits(x)[8..] == AllBits(x[1..]);
      assert AllBits(y)[..8] == Bits(y[0], 8) && AllBits(y)[8..] == AllBits(y[1..]);
      assert Pow2(8) == 256;
      NumberOfBits(x[0], 8);
      NumberOfBits(y[0], 8);
      AllBitsInjective(x[1..], y[1..]);
      assert x == [x[0]] + x[1..] && y == [y[0]] + y[1..];
    }
  }

  /** A pattern that does not reach the lowest bit shifts along with the word. */
  lemma ShiftXor(c: Word, z: Word)
    requires !z[0]
    ensures Shift(Xor(c, z)) == Xor(Shift(c), z[1..] + [false])
  {
    var left, right := Shift(Xor(c, z)), Xor(Shift(c), z[1..] + [false]);
    assert Xor(c, z)[0] == c[0];
    forall i | 0 <= i < 32
      ensures left[i] == right[i]
    {
      if i < 31 {
        assert Xor(c, z)[i + 1] == (c[i + 1] != z[i + 1]);
      }
    }
  }

  lemma {:induction false} ShiftsXor(c: Word, z: Word, n: nat)
    requires n <= 32 && forall i :: 0 <= i < n ==> !z[i]
    ensures Shifts(Xor(c, z), n) == Xor(Shifts(c, n), z[n..] + ZeroBits(n))
    decreases n
  {
    hide Shift;
    if n == 0 {
      assert z[0..] + ZeroBits(0) == z;
    } else {
      var z' := z[1..] + [false];
      ShiftXor(c, z);
      ShiftsXor(Shift(c), z', n - 1);
      assert z'[n - 1..] + ZeroBits(n - 1) == z[n..] + ZeroBits(n);
    }
  }

  lemma {:induction false} ShiftsAdd(c: Word, m: nat, n: nat)
    ensures Shifts(Shifts(c, m), n) == Shifts(c, m + n)
    decreases m
  {
    hide Shift;
    if m > 0 {
      ShiftsAdd(Shift(c), m - 1, n);
    }
  }

  /** Feeding up to four bytes is adding them all to the word at once and then shifting. */
  lemma {:induction false} RegisterAtOnce(c: Word, x: seq<byte>)
    requires |x| <= 4
    ensures Register(c, x) == Shifts(Xor(c, Padded(x)), 8 * |x|)
    decreases |x|
  {
    hide Shifts, Bits, Xor;
    if x == [] {
      NothingAdded(c);
    } else {
      var rest := x[1..];
      var z: Word := ZeroBits(8) + Padded(rest)[..24];
      RegisterAtOnce(Update(c, x[0]), rest);
      assert z[8..] + ZeroBits(8) == Padded(rest);
      ShiftsXor(AddByte(c, x[0]), z, 8);
      AddedInTurn(c, x);
      ShiftsAdd(Xor(c, Padded(x)), 8, 8 * |rest|);
    }
  }

  // ---------- Known values ----------

  lemma {:induction false} ZeroStays(n: nat)
    ensures Shifts(ZeroBits(32), n) == ZeroBits(32)
    decreases n
  {
    hide ZeroBits;
    if n > 0 {
      assert Shift(ZeroBits(32)) == ZeroBits(32);
      ZeroStays(n - 1);
    }
  }

  /** A one in the highest bit falls out after 32 shifts and leaves the polynomial. */
  lemma TopBit(c: Word)
    requires c == ZeroBits(31) + [true]
    ensures Shifts(c, 32) == POLYNOMIAL
  {
    hide Shift, Xor, Shifts, ZeroBits;
    var zero := ZeroBits(32);
    assert c == Xor(zero, c);
    ShiftsXor(zero, c, 31);
    ZeroStays(31);
    assert c[31..] == [true];
    var low: Word := [true] + ZeroBits(31);
    assert Xor(zero, low) == low;
    ShiftsAdd(c, 31, 1);
    LowBit(low);
  }

  lemma LowBit(low: Word)
    requires low == [true] + ZeroBits(31)
    ensures Shifts(low, 1) == POLYNOMIAL
  {
    hide ZeroBits;
    assert low[1..] + [false] == ZeroBits(32);
    assert Shift(low) == POLYNOMIAL;
  }

  function Weight(bit: bool, w: nat): nat {
    if bit then w else 0
  }

  lemma NumberNone()
    ensures Number([]) == 0
  {
  }

  lemma NumberHead(bits: seq<bool>, i: nat)
    requires i < |bits|
    ensures Number(bits[i..]) == Weight(bits[i], 1) + 2 * Number(bits[i + 1..])
  {
    assert bits[i..][1..] == bits[i + 1..];
  }

  lemma NumberFrom(bits: seq<bool>, i: nat)
    requires i + 4 <= |bits|
    ensures Number(bits[i..]) == Weight(bits[i], 1) + Weight(bits[i + 1], 2) + Weight(bits[i + 2], 4)
                                 + Weight(bits[i + 3], 8) + 16 * Number(bits[i + 4..])
  {
    hide Number;
    NumberHead(bits, i);
    NumberHead(bits, i + 1);
    NumberHead(bits, i + 2);
    NumberHead(bits, i + 3);
  }

  /** The bits of a byte, the lowest first. */
  lemma OctetBits(b: byte, bits: seq<bool>)
    requires |bits| == 8
    requires b == Weight(bits[0], 1) + Weight(bits[1], 2) + Weight(bits[2], 4) + Weight(bits[3], 8)
                + Weight(bits[4], 16) + Weight(bits[5], 32) + Weight(bits[6], 64) + Weight(bits[7], 128)
    ensures Bits(b, 8) == bits && Number(bits) == b
  {
    hide Number, Bits;
    NumberFrom(bits, 4);
    NumberFrom(bits, 0);
    assert bits[0..] == bits && bits[8..] == [];
    NumberNone();
    assert Pow2(8) == 256;
    NumberOfBits(b, 8);
    NumberInjective(Bits(b, 8), bits);
  }

  /**
   * The checksums of FF FF FF FF and FF FF FF 7F, which any other generator, start value, final complement, bit order
   * or byte order would change.
   */
  lemma KnownValues()
    ensures Checksum([255, 255, 255, 255]) == [255, 255, 255, 255]
    ensures Checksum([255, 255, 255, 127]) == [0x12, 0x47, 0x7C, 0xDF]
  {
    hide Shifts, Bits, Xor, Register;
    var a, b := [255, 255, 255, 255], [255, 255, 255, 127];
    RegisterAtOnce(ALL_ONES, a);
    RegisterAtOnce(ALL_ONES, b);
    PaddedOnes();
    assert Xor(ALL_ONES, ALL_ONES) == ZeroBits(32);
    ZeroStays(32);
    assert Xor(ALL_ONES, Padded(b)) == ZeroBits(31) + [true];
    TopBit(Xor(ALL_ONES, Padded(b)));
    StoredZero();
    StoredPolynomial();
  }

  lemma PaddedOnes()
    ensures Padded([255, 255, 255, 255]) == ALL_ONES
    ensures Padded([255, 255, 255, 127]) == ALL_ONES[31 := false]
  {
    hide Bits;
    OctetBits(255, ALL_ONES[..8]);
    OctetBits(127, ALL_ONES[..8][7 := false]);
    var a, b := [255, 255, 255, 255], [255, 255, 255, 127];
    assert AllBits(a) == Bits(255, 8) + Bits(255, 8) + Bits(255, 8) + Bits(255, 8);
    assert AllBits(b) == Bits(255, 8) + Bits(255, 8) + Bits(255, 8) + Bits(127, 8);
  }

  lemma StoredZero()
    ensures BigEndian(Xor(ZeroBits(32), ALL_ONES)) == [255, 255, 255, 255]
  {
    hide Bits, Number, Xor, ZeroBits;
    var x, ones := Xor(ZeroBits(32), ALL_ONES), [true, true, true, true, true, true, true, true];
    OctetBits(255, ones);
    assert x[24..] == ones && x[16..24] == ones && x[8..16] == ones && x[..8] == ones;
  }

  lemma StoredPolynomial()
    ensures BigEndian(Xor(POLYNOMIAL, ALL_ONES)) == [0x12, 0x47, 0x7C, 0xDF]
  {
    hide Bits, Number, Xor;
    var x := Xor(POLYNOMIAL, ALL_ONES);
    assert x[24..] == [false, true, false, false, true, false, false, false];
    assert x[16..24] == [true, true, true, false, false, false, true, false];
    assert x[8..16] == [false, false, true, true, true, true, true, false];
    assert x[..8] == [true, true, true, true, true, false, true, true];
    OctetBits(0x12, x[24..]);
    OctetBits(0x47, x[16..24]);
    OctetBits(0x7C, x[8..16]);
    OctetBits(0xDF, x[..8]);
  }

  lemma NothingAdded(c: Word)
    ensures Shifts(Xor(c, Padded([])), 0) == c
  {
    assert Xor(c, Padded([])) == c;
  }

  lemma AddedInTurn(c: Word, x: seq<byte>)
    requires 0 < |x| <= 4
    ensures Xor(AddByte(c, x[0]), ZeroBits(8) + Padded(x[1..])[..24]) == Xor(c, Padded(x))
  {
    hide Bits;
    var left, right := Xor(AddByte(c, x[0]), ZeroBits(8) + Padded(x[1..])[..24]), Xor(c, Padded(x));
    var first := Xor(c[..8], Bits(x[0], 8));
    forall i | 0 <= i < 32
      ensures left[i] == right[i]
    {
      if i < 8 {
        assert AddByte(c, x[0])[i] == first[i] && Padded(x)[i] == Bits(x[0], 8)[i];
      } else {
        assert AddByte(c, x[0])[i] == c[i] && Padded(x)[i] == Padded(x[1..])[i - 8];
      }
    }
  }

  lemma BurstMoves(c: Word, x: seq<byte>, y: seq<byte>)
    requires |x| == |y| <= 4 && Register(c, x) == Register(c, y)
    ensures x == y
  {
    hide Register, Shifts, Xor, AllBits;
    RegisterAtOnce(c, x);
    RegisterAtOnce(c, y);
    ShiftsInjective(Xor(c, Padded(x)), Xor(c, Padded(y)), 8 * |x|);
    XorInjective(Padded(x), Padded(y), c);
    assert Padded(x)[..8 * |x|] == AllBits(x) && Padded(y)[..8 * |y|] == AllBits(y);
    AllBitsInjective(x, y);
  }

  /** Two byte strings that differ only within four consecutive bytes have different checksums. */
  lemma BurstChanges(a: seq<byte>, x: seq<byte>, y: seq<byte>, b: seq<byte>)
    requires |x| == |y| <= 4 && x != y
    ensures Checksum(a + x + b) != Checksum(a + y + b)
  {
    hide Checksum, Register;
    if Checksum(a + x + b) == Checksum(a + y + b) {
      ChecksumInjective(a + x + b, a + y + b);
      RegisterConcat(ALL_ONES, a + x, b);
      RegisterConcat(ALL_ONES, a + y, b);
      RegisterInjective(Register(ALL_ONES, a + x), Register(ALL_ONES, a + y), b);
      RegisterConcat(ALL_ONES, a, x);
      RegisterConcat(ALL_ONES, a, y);
      BurstMoves(Register(ALL_ONES, a), x, y);
    }
  }
}
