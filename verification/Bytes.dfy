/** Byte strings, their lexicographic order, and fixed-width integers laid out in bytes. */
module Bytes {

  type byte = x: int | 0 <= x < 256

  // ---------- Order ----------

  /** `a` comes before `b` in the order of Go's bytes.Compare. */
  predicate Less(a: seq<byte>, b: seq<byte>) {
    b != [] && (a == [] || a[0] < b[0] || (a[0] == b[0] && Less(a[1..], b[1..])))
  }

  lemma {:induction false} LessTransitive(a: seq<byte>, b: seq<byte>, c: seq<byte>)
    requires Less(a, b) && Less(b, c)
    ensures Less(a, c)
  {
    if a != [] && a[0] == b[0] == c[0] {
      LessTransitive(a[1..], b[1..], c[1..]);
    }
  }

  lemma {:induction false} LessTotal(a: seq<byte>, b: seq<byte>)
    ensures Less(a, b) || a == b || Less(b, a)
  {
    if a != [] && b != [] && a[0] == b[0] {
      LessTotal(a[1..], b[1..]);
      assert a == [a[0]] + a[1..] && b == [b[0]] + b[1..];
    }
  }

  lemma {:induction false} LessAsymmetric(a: seq<byte>, b: seq<byte>)
    requires Less(a, b)
    ensures !Less(b, a) && a != b
  {
    if a != [] && a[0] == b[0] {
      LessAsymmetric(a[1..], b[1..]);
    }
  }

  /** The first `k` bytes are the same, and there `a` ends or has the smaller byte. */
  predicate DecidedAt(a: seq<byte>, b: seq<byte>, k: nat) {
    k <= |a| && k < |b| && a[..k] == b[..k] && (k == |a| || a[k] < b[k])
  }

  /** The lexicographic order: some place decides. */
  ghost predicate Precedes(a: seq<byte>, b: seq<byte>) {
    exists k: nat :: DecidedAt(a, b, k)
  }

  lemma {:induction false} LessDecided(a: seq<byte>, b: seq<byte>) returns (k: nat)
    requires Less(a, b)
    ensures DecidedAt(a, b, k)
  {
    if a == [] || a[0] < b[0] {
      k := 0;
    } else {
      k := LessDecided(a[1..], b[1..]);
      assert a[..k + 1] == [a[0]] + a[1..][..k] && b[..k + 1] == [b[0]] + b[1..][..k];
      k := k + 1;
    }
  }

  lemma {:induction false} DecidedLess(a: seq<byte>, b: seq<byte>, k: nat)
    requires DecidedAt(a, b, k)
    ensures Less(a, b)
  {
    if k > 0 {
      assert a[0] == a[..k][0] == b[..k][0] == b[0];
      assert a[1..][..k - 1] == a[..k][1..] && b[1..][..k - 1] == b[..k][1..];
      DecidedLess(a[1..], b[1..], k - 1);
    }
  }

  /** The comparison of keys is the lexicographic one, a proper prefix coming first. */
  lemma LessIsLexicographic(a: seq<byte>, b: seq<byte>)
    ensures Less(a, b) <==> Precedes(a, b)
  {
    if Less(a, b) {
      var k := LessDecided(a, b);
    } else if k: nat :| DecidedAt(a, b, k) {
      DecidedLess(a, b, k);
    }
  }

  // ---------- Integers ----------

  function Pow2(k: nat): nat {
    if k == 0 then 1 else 2 * Pow2(k - 1)
  }

  function Pow256(width: nat): nat {
    if width == 0 then 1 else 256 * Pow256(width - 1)
  }

  /** The low `width` bytes of `n`, most significant first. */
  function PutBE(n: nat, width: nat): (r: seq<byte>)
    ensures |r| == width
    decreases width
  {
    if width == 0 then [] else PutBE(n / 256, width - 1) + [n % 256]
  }

  function GetBE(s: seq<byte>): nat {
    if s == [] then 0 else 256 * GetBE(s[..|s| - 1]) + s[|s| - 1]
  }

  /** The low `width` bytes of `n`, least significant first. */
  function PutLE(n: nat, width: nat): (r: seq<byte>)
    ensures |r| == width
    decreases width
  {
    if width == 0 then [] else [n % 256] + PutLE(n / 256, width - 1)
  }

  function GetLE(s: seq<byte>): nat {
    if s == [] then 0 else s[0] + 256 * GetLE(s[1..])
  }

  lemma {:induction false} BigEndianRoundTrip(n: nat, width: nat)
    requires n < Pow256(width)
    ensures GetBE(PutBE(n, width)) == n
    decreases width
  {
    if width > 0 {
      BigEndianRoundTrip(n / 256, width - 1);
      assert PutBE(n, width)[..width - 1] == PutBE(n / 256, width - 1);
    }
  }

  /** Four bytes, the most significant first. */
  lemma BigEndianFour(s: seq<byte>)
    requires |s| == 4
    ensures GetBE(s) == 0x100_0000 * (s[0] as int) + 0x1_0000 * (s[1] as int) + 0x100 * (s[2] as int) + s[3]
  {
    GetNext(s[..3]);
    GetNext(s[..2]);
    GetNext(s[..1]);
    assert s[..3][..2] == s[..2] && s[..2][..1] == s[..1] && s[..1][..0] == [];
  }

  lemma GetNext(s: seq<byte>)
    requires s != []
    ensures GetBE(s) == 256 * GetBE(s[..|s| - 1]) + s[|s| - 1]
  {
  }

  /** Eight bytes, the high half first. */
  lemma BigEndianEight(s: seq<byte>)
    requires |s| == 8
    ensures GetBE(s) == TWO_TO_32 * GetBE(s[..4]) + GetBE(s[4..])
  {
    hide GetBE;
    BigEndianFour(s[4..]);
    GetNext(s);
    GetNext(s[..7]);
    GetNext(s[..6]);
    GetNext(s[..5]);
    assert s[..7][..6] == s[..6] && s[..6][..5] == s[..5] && s[..5][..4] == s[..4];
  }

  /** With the least significant byte first, the bytes make the number that they make in reverse the other way. */
  lemma {:induction false} LittleEndianReversed(s: seq<byte>)
    ensures GetLE(s) == GetBE(Reversed(s))
  {
    if s != [] {
      LittleEndianReversed(s[1..]);
      assert Reversed(s)[..|s| - 1] == Reversed(s[1..]);
    }
  }

  function Reversed(s: seq<byte>): (r: seq<byte>)
    ensures |r| == |s| && forall i :: 0 <= i < |s| ==> r[i] == s[|s| - 1 - i]
  {
    if s == [] then [] else Reversed(s[1..]) + [s[0]]
  }

  lemma {:induction false} LittleEndianRoundTrip(n: nat, width: nat)
    requires n < Pow256(width)
    ensures GetLE(PutLE(n, width)) == n
    decreases width
  {
    if width > 0 {
      LittleEndianRoundTrip(n / 256, width - 1);
      assert PutLE(n, width)[1..] == PutLE(n / 256, width - 1);
    }
  }

  lemma {:induction false} BigEndianBound(s: seq<byte>)
    ensures GetBE(s) < Pow256(|s|)
    decreases |s|
  {
    if s != [] {
      BigEndianBound(s[..|s| - 1]);
    }
  }

  const TWO_TO_32 := 0x1_0000_0000

  lemma Width4()
    ensures Pow256(4) == TWO_TO_32
  {
    assert Pow256(2) == 65536;
  }

  const TWO_TO_64 := 0x1_0000_0000_0000_0000

  lemma Width8()
    ensures Pow256(8) == TWO_TO_64
  {
    Width4();
    assert Pow256(6) == 65536 * Pow256(4);
  }
}
