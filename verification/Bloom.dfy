/** The Lumafly Bloom filter with double hashing, and its serialized form (cpp/src/lumafly_bloom.cpp). */
module Bloom {
  import opened Bytes
  import opened OrderedMap

  type uint32 = x: int | 0 <= x < TWO_TO_32

  /** A seeded 32-bit hash; everything below holds for every choice of it. */
  type Hash = (seq<byte>, uint32) -> uint32

  const SEED: uint32 := 0x9747b28c

  // ---------- Bits of a byte ----------

  predicate TestBit(b: nat, k: nat) {
    if k == 0 then b % 2 == 1 else TestBit(b / 2, k - 1)
  }

  /** `b` with bit `k` on. */
  function SetBit(b: nat, k: nat): nat {
    if k == 0 then (if b % 2 == 1 then b else b + 1) else b % 2 + 2 * SetBit(b / 2, k - 1)
  }

  lemma {:induction false} SetBitBound(b: nat, k: nat, width: nat)
    requires b < Pow2(width) && k < width
    ensures SetBit(b, k) < Pow2(width)
  {
    var half := Pow2(width - 1);
    assert Pow2(width) == 2 * half;
    if k > 0 {
      assert b / 2 < half;
      SetBitBound(b / 2, k - 1, width - 1);
      var rest := SetBit(b / 2, k - 1);
      assert SetBit(b, k) == b % 2 + 2 * rest && rest + 1 <= half;
    }
  }

  lemma {:induction false} SetBitExact(b: nat, k: nat, j: nat)
    ensures TestBit(SetBit(b, k), j) <==> j == k || TestBit(b, j)
  {
    if k > 0 && j > 0 {
      SetBitExact(b / 2, k - 1, j - 1);
      assert SetBit(b, k) / 2 == SetBit(b / 2, k - 1);
    }
  }

  lemma {:induction false} ZeroHasNoBits(k: nat)
    ensures !TestBit(0, k)
  {
    if k > 0 {
      ZeroHasNoBits(k - 1);
    }
  }

  function SetInByte(b: byte, k: nat): (r: byte)
    requires k < 8
    ensures r == SetBit(b, k)
  {
    assert SetBit(b, k) < 256 by {
      assert Pow2(3) == 8;
      assert Pow2(8) == 32 * Pow2(3);
      SetBitBound(b, k, 8);
    }
    SetBit(b, k)
  }

  // ---------- The filter as a value ----------

  datatype Filter = Filter(numBits: nat, numHashes: nat, bytes: seq<byte>)

  /** Filters on which every bit the hashes can name exists. */
  predicate Sound(f: Filter) {
    f.numBits > 0 && |f.bytes| == (f.numBits + 7) / 8
  }

  predicate Usable(f: Filter) {
    Sound(f) || f.numHashes == 0
  }

  predicate BitOf(f: Filter, n: nat)
    requires Sound(f) && n < f.numBits
  {
    TestBit(f.bytes[n / 8], n % 8)
  }

  /** The bit that hash number `i` names for `key`. */
  function BitIndex(hash: Hash, key: seq<byte>, i: nat, numBits: nat): (n: nat)
    requires numBits > 0
    ensures n < numBits
  {
    var h1 := hash(key, SEED);
    var h2 := hash(key, h1);
    (h1 + i % TWO_TO_32 * h2) % TWO_TO_32 % numBits
  }

  /** The word double hashing has reached after `i` rounds: the first hash, then one second hash more each time. */
  function Probed(hash: Hash, key: seq<byte>, i: nat): uint32 {
    var first := hash(key, 0x9747b28c);
    if i == 0 then first else (Probed(hash, key, i - 1) + hash(key, first)) % TWO_TO_32
  }

  /** Hash number `i` names the bit that word gives. */
  lemma {:induction false} BitIndexProbed(hash: Hash, key: seq<byte>, i: nat, numBits: nat)
    requires numBits > 0
    ensures BitIndex(hash, key, i, numBits) == Probed(hash, key, i) % numBits
  {
    ProbedSum(hash, key, i);
    TimesWrapped(hash(key, SEED), i, hash(key, hash(key, SEED)));
  }

  lemma TimesWrapped(a: int, i: nat, b: int)
    ensures (a + i % TWO_TO_32 * b) % TWO_TO_32 == (a + i * b) % TWO_TO_32
  {
    var q, r := i / TWO_TO_32, i % TWO_TO_32;
    assert i == q * TWO_TO_32 + r;
    assert i * b == q * b * TWO_TO_32 + r * b;
    AddMultiple(a + r * b, q * b);
  }

  lemma AddMultiple(a: int, q: int)
    ensures (a + q * TWO_TO_32) % TWO_TO_32 == a % TWO_TO_32
  {
  }

  lemma {:induction false} ProbedSum(hash: Hash, key: seq<byte>, i: nat)
    ensures Probed(hash, key, i) == (hash(key, SEED) + i * hash(key, hash(key, SEED))) % TWO_TO_32
  {
    if i > 0 {
      var h1, h2 := hash(key, SEED), hash(key, hash(key, SEED));
      ProbedSum(hash, key, i - 1);
      assert h1 + (i - 1) * h2 + h2 == h1 + i * h2;
      AddWrapped(h1 + (i - 1) * h2, h2);
    }
  }

  lemma AddWrapped(a: int, b: int)
    ensures (a % TWO_TO_32 + b) % TWO_TO_32 == (a + b) % TWO_TO_32
  {
    var q := a / TWO_TO_32;
    assert a == q * TWO_TO_32 + a % TWO_TO_32;
    assert a + b == q * TWO_TO_32 + (a % TWO_TO_32 + b);
  }

  function WithBit(f: Filter, n: nat): (f': Filter)
    requires Sound(f) && n < f.numBits
    ensures Sound(f') && f'.numBits == f.numBits && f'.numHashes == f.numHashes
  {
    f.(bytes := f.bytes[n / 8 := SetInByte(f.bytes[n / 8], n % 8)])
  }

  /** The filter after the first `upTo` hashes of `key` have been set. */
  function Adding(hash: Hash, f: Filter, key: seq<byte>, upTo: nat): (f': Filter)
    requires Sound(f)
    ensures Sound(f') && f'.numBits == f.numBits && f'.numHashes == f.numHashes
  {
    if upTo == 0 then f
    else WithBit(Adding(hash, f, key, upTo - 1), BitIndex(hash, key, upTo - 1, f.numBits))
  }

  function Added(hash: Hash, f: Filter, key: seq<byte>): (f': Filter)
    requires Sound(f)
    ensures Sound(f') && f'.numBits == f.numBits && f'.numHashes == f.numHashes
  {
    Adding(hash, f, key, f.numHashes)
  }

  /** Every bit `key` names is on. A filter without hashes has none to name. */
  predicate MayContain(hash: Hash, f: Filter, key: seq<byte>)
    requires Usable(f)
  {
    forall i :: 0 <= i < f.numHashes ==> BitOf(f, BitIndex(hash, key, i, f.numBits))
  }

  function Zeros(n: nat): (s: seq<byte>)
    ensures |s| == n && forall i :: 0 <= i < n ==> s[i] == 0
  {
    if n == 0 then [] else [0] + Zeros(n - 1)
  }

  function Empty(numBits: nat, numHashes: nat): Filter {
    Filter(numBits, numHashes, Zeros((numBits + 7) / 8))
  }

  /** A filter of the given size to which `keys` have been added in order. */
  function FilterOf(hash: Hash, numBits: nat, numHashes: nat, keys: seq<seq<byte>>): (f: Filter)
    requires numBits > 0
    ensures Sound(f) && Usable(f) && f.numBits == numBits && f.numHashes == numHashes
  {
    if keys == [] then Empty(numBits, numHashes)
    else Added(hash, FilterOf(hash, numBits, numHashes, keys[..|keys| - 1]), keys[|keys| - 1])
  }

  // ---------- Which bits are on ----------

  lemma WithBitExact(f: Filter, n: nat, j: nat)
    requires Sound(f) && n < f.numBits && j < f.numBits
    ensures BitOf(WithBit(f, n), j) <==> j == n || BitOf(f, j)
  {
    hide TestBit, SetBit;
    if j / 8 == n / 8 {
      SetBitExact(f.bytes[n / 8], n % 8, j % 8);
      assert n == n / 8 * 8 + n % 8 && j == j / 8 * 8 + j % 8;
    }
  }

  /** One of the first `upTo` hashes of `key` names bit `j`. */
  ghost predicate Names(hash: Hash, key: seq<byte>, upTo: nat, numBits: nat, j: nat)
    requires numBits > 0
  {
    exists i :: 0 <= i < upTo && BitIndex(hash, key, i, numBits) == j
  }

  /** Some of the keys names bit `j`. */
  ghost predicate Covered(hash: Hash, keys: seq<seq<byte>>, numHashes: nat, numBits: nat, j: nat)
    requires numBits > 0
  {
    exists k :: 0 <= k < |keys| && Names(hash, keys[k], numHashes, numBits, j)
  }

  lemma {:induction false} AddingExact(hash: Hash, f: Filter, key: seq<byte>, upTo: nat, j: nat)
    requires Sound(f) && j < f.numBits
    ensures BitOf(Adding(hash, f, key, upTo), j) <==> BitOf(f, j) || Names(hash, key, upTo, f.numBits, j)
    decreases upTo
  {
    hide BitOf, WithBit, BitIndex, Sound;
    if upTo > 0 {
      AddingExact(hash, f, key, upTo - 1, j);
      var last := upTo - 1;
      var n := BitIndex(hash, key, last, f.numBits);
      WithBitExact(Adding(hash, f, key, last), n, j);
      if j == n {
        assert Names(hash, key, upTo, f.numBits, j);
      }
    }
  }

  lemma EmptyHasNoBits(numBits: nat, numHashes: nat, j: nat)
    requires j < numBits
    ensures !BitOf(Empty(numBits, numHashes), j)
  {
    ZeroHasNoBits(j % 8);
  }

  /** A bit is on exactly when some added key names it. */
  lemma {:induction false} FilterBits(hash: Hash, numBits: nat, numHashes: nat, keys: seq<seq<byte>>, j: nat)
    requires j < numBits
    ensures BitOf(FilterOf(hash, numBits, numHashes, keys), j) <==> Covered(hash, keys, numHashes, numBits, j)
  {
    hide BitOf, Adding, Names, Empty, Sound;
    if keys == [] {
      EmptyHasNoBits(numBits, numHashes, j);
    } else {
      var front, last := keys[..|keys| - 1], |keys| - 1;
      FilterBits(hash, numBits, numHashes, front, j);
      AddingExact(hash, FilterOf(hash, numBits, numHashes, front), keys[last], numHashes, j);
      if Covered(hash, front, numHashes, numBits, j) {
        var k :| 0 <= k < |front| && Names(hash, front[k], numHashes, numBits, j);
        assert keys[k] == front[k];
      }
    }
  }

  /** The filter says yes exactly to the keys whose every bit is named by some added key. */
  lemma MayContainExact(hash: Hash, numBits: nat, numHashes: nat, keys: seq<seq<byte>>, key: seq<byte>)
    requires numBits > 0
    ensures MayContain(hash, FilterOf(hash, numBits, numHashes, keys), key) <==>
            forall i :: 0 <= i < numHashes ==>
              Covered(hash, keys, numHashes, numBits, BitIndex(hash, key, i, numBits))
  {
    hide BitOf, FilterOf, BitIndex, Covered, Sound;
    forall i | 0 <= i < numHashes
      ensures BitOf(FilterOf(hash, numBits, numHashes, keys), BitIndex(hash, key, i, numBits)) <==>
              Covered(hash, keys, numHashes, numBits, BitIndex(hash, key, i, numBits))
    {
      FilterBits(hash, numBits, numHashes, keys, BitIndex(hash, key, i, numBits));
    }
  }

  /** No false negatives: whatever else was added, every added key is contained. */
  lemma NoFalseNegatives(hash: Hash, numBits: nat, numHashes: nat, keys: seq<seq<byte>>, k: nat)
    requires numBits > 0 && k < |keys|
    ensures MayContain(hash, FilterOf(hash, numBits, numHashes, keys), keys[k])
  {
    hide BitOf, FilterOf, BitIndex, Sound;
    forall i | 0 <= i < numHashes
      ensures Covered(hash, keys, numHashes, numBits, BitIndex(hash, keys[k], i, numBits))
    {
      assert Names(hash, keys[k], numHashes, numBits, BitIndex(hash, keys[k], i, numBits));
    }
    MayContainExact(hash, numBits, numHashes, keys, keys[k]);
  }

  lemma {:induction false} SetInZero(k: nat)
    ensures SetBit(0, k) == Pow2(k)
  {
    if k > 0 {
      SetInZero(k - 1);
    }
  }

  /** Where bit `n` lies: alone it is byte n / 8 with the value 2^(n % 8), every other byte zero. */
  lemma OneBit(numBits: nat, numHashes: nat, n: nat)
    requires n < numBits
    ensures var f := WithBit(Empty(numBits, numHashes), n);
            f.bytes[n / 8] == Pow2(n % 8) && forall i :: 0 <= i < |f.bytes| && i != n / 8 ==> f.bytes[i] == 0
  {
    hide SetBit, Pow2, Zeros;
    SetInZero(n % 8);
  }

  // ---------- Serialized form ----------

  const SIZES := 16

  function Serialized(f: Filter): (buf: seq<byte>)
    ensures |buf| == SIZES + |f.bytes|
  {
    PutLE(f.numBits, 8) + PutLE(f.numHashes, 8) + f.bytes
  }

  /** A buffer too short for the sizes, or for the bits they announce, is refused. */
  function Deserialized(buf: seq<byte>): Option<Filter> {
    if |buf| < SIZES then None
    else
      var numBits, numHashes := GetLE(buf[..8]), GetLE(buf[8..16]);
      var numBytes := (numBits + 7) % TWO_TO_64 / 8;
      if |buf| < SIZES + numBytes then None
      else Some(Filter(numBits, numHashes, buf[SIZES..SIZES + numBytes]))
  }

  /** Both sizes and the byte count fit in 64 bits. */
  predicate Serializable(f: Filter) {
    Sound(f) && f.numBits + 7 < TWO_TO_64 && f.numHashes < TWO_TO_64
  }

  /** A filter comes back as it went out, so its answers for all keys do too. */
  lemma FilterRoundTrip(f: Filter, rest: seq<byte>)
    requires Serializable(f)
    ensures Deserialized(Serialized(f) + rest) == Some(f)
  {
    hide PutLE, GetLE;
    var buf := Serialized(f) + rest;
    Width8();
    LittleEndianRoundTrip(f.numBits, 8);
    LittleEndianRoundTrip(f.numHashes, 8);
    assert buf[..8] == PutLE(f.numBits, 8);
    assert buf[8..16] == PutLE(f.numHashes, 8);
    assert buf[SIZES..SIZES + |f.bytes|] == f.bytes;
  }

  /** What lies where in a serialized filter, the least significant byte of a number first. */
  lemma FilterBytes(f: Filter)
    requires Serializable(f)
    ensures var buf := Serialized(f);
            && |buf| == 16 + |f.bytes|
            && GetLE(buf[..8]) == f.numBits && GetLE(buf[8..16]) == f.numHashes && buf[16..] == f.bytes
  {
    hide PutLE, GetLE;
    Width8();
    LittleEndianRoundTrip(f.numBits, 8);
    LittleEndianRoundTrip(f.numHashes, 8);
    assert Serialized(f)[..8] == PutLE(f.numBits, 8) && Serialized(f)[8..16] == PutLE(f.numHashes, 8);
  }

  /** A serialized filter that is cut anywhere is refused. */
  lemma FilterCut(f: Filter, cut: nat)
    requires Serializable(f) && cut < |Serialized(f)|
    ensures Deserialized(Serialized(f)[..cut]) == None
  {
    hide PutLE, GetLE;
    FilterBytes(f);
    if cut >= 16 {
      assert Serialized(f)[..cut][..8] == Serialized(f)[..8];
    }
  }

  // ---------- The filter in memory ----------

  class LumaflyBloom {
    const numBits: nat
    const numHashes: nat
    const bits: array<byte>

    ghost function State(): Filter
      reads bits
    {
      Filter(numBits, numHashes, bits[..])
    }

    /** A clear filter; the sizes asked for are raised to the least the filter accepts. */
    constructor (numBits: nat, numHashes: nat)
      ensures fresh(bits) && Sound(State())
      ensures State() == Empty(if numBits < 64 then 64 else numBits, if numHashes < 1 then 1 else numHashes)
    {
      var m := if numBits < 64 then 64 else numBits;
      this.numBits := m;
      this.numHashes := if numHashes < 1 then 1 else numHashes;
      this.bits := new byte[(m + 7) / 8](_ => 0);
      new;
      assert bits[..] == Zeros((m + 7) / 8);
    }

    constructor Of(f: Filter)
      ensures fresh(bits) && State() == f
    {
      numBits, numHashes := f.numBits, f.numHashes;
      bits := new byte[|f.bytes|](i requires 0 <= i < |f.bytes| => f.bytes[i]);
      new;
      assert bits[..] == f.bytes;
    }

    /** Set every bit the hashes name for `key`. */
    method Add(hash: Hash, key: seq<byte>)
      requires Sound(State())
      modifies bits
      ensures State() == Added(hash, old(State()), key)
    {
      var h1 := hash(key, SEED);
      var h2 := hash(key, h1);
      for i := 0 to numHashes
        invariant State() == Adding(hash, old(State()), key, i)
      {
        var combined := (h1 + i % TWO_TO_32 * h2) % TWO_TO_32;
        var n := combined % numBits;
        assert n == BitIndex(hash, key, i, numBits);
        ghost var before := bits[..];
        bits[n / 8] := SetInByte(bits[n / 8], n % 8);
        assert bits[..] == before[n / 8 := SetInByte(before[n / 8], n % 8)];
      }
    }

    /** Test the bits one by one, stopping at the first that is off. */
    method Contains(hash: Hash, key: seq<byte>) returns (contained: bool)
      requires Usable(State())
      ensures contained == MayContain(hash, State(), key)
    {
      var h1 := hash(key, SEED);
      var h2 := hash(key, h1);
      for i := 0 to numHashes
        invariant forall j :: 0 <= j < i ==> BitOf(State(), BitIndex(hash, key, j, numBits))
      {
        var combined := (h1 + i % TWO_TO_32 * h2) % TWO_TO_32;
        var n := combined % numBits;
        assert n == BitIndex(hash, key, i, numBits);
        if !TestBit(bits[n / 8], n % 8) {
          assert !BitOf(State(), BitIndex(hash, key, i, numBits));
          return false;
        }
      }
      return true;
    }

    method Serialize() returns (buf: seq<byte>)
      ensures buf == Serialized(State())
    {
      buf := PutLE(numBits, 8) + PutLE(numHashes, 8) + bits[..];
    }
  }

  /** Rebuild a filter from its serialized form; null where the buffer is too short. */
  method Deserialize(buf: seq<byte>) returns (bf: LumaflyBloom?)
    ensures bf == null <==> Deserialized(buf) == None
    ensures bf != null ==> fresh(bf) && fresh(bf.bits) && Deserialized(buf) == Some(bf.State())
  {
    hide GetLE;
    if |buf| < SIZES {
      return null;
    }
    var numBits, numHashes := GetLE(buf[..8]), GetLE(buf[8..16]);
    var numBytes := (numBits + 7) % TWO_TO_64 / 8;
    if |buf| < SIZES + numBytes {
      return null;
    }
    bf := new LumaflyBloom.Of(Filter(numBits, numHashes, buf[SIZES..SIZES + numBytes]));
  }
}
