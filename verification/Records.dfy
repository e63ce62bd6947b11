/**
 * The record both the write-ahead log and the SSTables store: a 13-byte header with checksum, lengths and
 * tombstone flag, then key and value (pkg/bench/wal.go:89-116, pkg/storage/sstable.go:114-132).
 */
module Records {
  import opened Bytes
  import opened Crc32

  datatype Record = Record(key: seq<byte>, value: seq<byte>, tombstone: bool)

  const HEADER := 13

  /** The lengths of the record fit the 32-bit fields and sums the program computes them in. */
  predicate Fits(r: Record) {
    HEADER + |r.key| + |r.value| < TWO_TO_32
  }

  /** What the checksum covers. */
  function Payload(r: Record): (p: seq<byte>)
    ensures |p| == 9 + |r.key| + |r.value|
  {
    PutBE(|r.key|, 4) + PutBE(|r.value|, 4) + [if r.tombstone then 1 else 0] + r.key + r.value
  }

  function Size(r: Record): nat {
    HEADER + |r.key| + |r.value|
  }

  function Encode(r: Record): (e: seq<byte>)
    ensures |e| == Size(r)
  {
    Checksum(Payload(r)) + Payload(r)
  }

  /**
   * What reading a record off the front of `data` comes to: the data end too soon, the checksum is wrong, the
   * lengths wrapped around so that cutting the key out of the body panics, or a record of some size.
   */
  datatype Parsed = Torn | BadChecksum | Panics | Parsed(record: Record, size: nat)

  function KeyLen(data: seq<byte>): nat
    requires |data| >= HEADER
  {
    GetBE(data[4..8])
  }

  function ValueLen(data: seq<byte>): nat
    requires |data| >= HEADER
  {
    GetBE(data[8..12])
  }

  /** Added in 32 bits. */
  function BodyLen(data: seq<byte>): nat
    requires |data| >= HEADER
  {
    (KeyLen(data) + ValueLen(data)) % TWO_TO_32
  }

  function Parse(data: seq<byte>): (p: Parsed)
    ensures p.Parsed? ==> HEADER <= p.size <= |data|
  {
    if |data| < HEADER || |data| - HEADER < BodyLen(data) then Torn
    else
      var size := HEADER + BodyLen(data);
      if data[..4] != Checksum(data[4..size]) then BadChecksum
      else if KeyLen(data) > BodyLen(data) then Panics
      else
        var split := HEADER + KeyLen(data);
        Parsed(Record(data[HEADER..split], data[split..size], data[12] == 1), size)
  }

  /** What lies where in a record. */
  lemma RecordBytes(r: Record)
    requires Fits(r)
    ensures var e := Encode(r);
            && |e| == 13 + |r.key| + |r.value|
            && GetBE(e[4..8]) == |r.key| && GetBE(e[8..12]) == |r.value|
            && e[12] == (if r.tombstone then 1 else 0)
            && e[13..13 + |r.key|] == r.key && e[13 + |r.key|..] == r.value
            && e[..4] == Checksum(e[4..])
  {
    hide Checksum, Encode;
    HeaderOf(r, []);
    assert Encode(r) + [] == Encode(r);
  }

  // ---------- Reading back what was written ----------

  lemma HeaderOf(r: Record, rest: seq<byte>)
    requires Fits(r)
    ensures var data := Encode(r) + rest;
            && KeyLen(data) == |r.key| && ValueLen(data) == |r.value| && BodyLen(data) == |r.key| + |r.value|
            && data[12] == (if r.tombstone then 1 else 0)
            && data[..4] == Checksum(Payload(r)) && data[4..|Encode(r)|] == Payload(r)
            && data[HEADER..HEADER + |r.key|] == r.key && data[HEADER + |r.key|..|Encode(r)|] == r.value
  {
    hide PutBE, Checksum;
    var data := Encode(r) + rest;
    assert data[4..8] == PutBE(|r.key|, 4);
    assert data[8..12] == PutBE(|r.value|, 4);
    Width4();
    BigEndianRoundTrip(|r.key|, 4);
    BigEndianRoundTrip(|r.value|, 4);
  }

  /** A record reads back as itself, whatever follows it. */
  lemma ParseEncoded(r: Record, rest: seq<byte>)
    requires Fits(r)
    ensures Parse(Encode(r) + rest) == Parsed(r, |Encode(r)|)
  {
    hide Checksum, Payload, Encode, KeyLen, ValueLen;
    HeaderOf(r, rest);
  }

  /** A record cut short reads as torn. */
  lemma ParseCut(r: Record, cut: nat)
    requires Fits(r) && cut < |Encode(r)|
    ensures Parse(Encode(r)[..cut]) == Torn
  {
    hide Checksum, Payload, Encode;
    HeaderOf(r, []);
    assert Encode(r) + [] == Encode(r);
    if cut >= HEADER {
      assert Encode(r)[..cut][4..8] == Encode(r)[4..8];
      assert Encode(r)[..cut][8..12] == Encode(r)[8..12];
    }
  }

  /** The bytes `bad` differ from those of the record only within the four from `at` on, and not in its lengths. */
  predicate DiffersAt(r: Record, bad: seq<byte>, at: nat)
    requires |bad| == Size(r)
  {
    forall i :: 0 <= i < |bad| && bad[i] != Encode(r)[i] ==> at <= i < at + 4 && !(4 <= i < 12)
  }

  /** The bytes of the record with some change to up to four of them in a row, the eight length bytes untouched. */
  ghost predicate Burst(r: Record, bad: seq<byte>) {
    |bad| == Size(r) && bad != Encode(r) && exists at: nat :: DiffersAt(r, bad, at)
  }

  /** Any one changed byte outside the lengths is such a change. */
  lemma OneByteBurst(r: Record, at: nat, b: byte)
    requires at < Size(r) && !(4 <= at < 12) && b != Encode(r)[at]
    ensures Burst(r, Encode(r)[at := b])
  {
    hide Encode;
    var bad := Encode(r)[at := b];
    assert bad[at] != Encode(r)[at];
    assert DiffersAt(r, bad, at);
  }

  /** Such a change anywhere makes the checksum wrong. */
  lemma ParseDamaged(r: Record, bad: seq<byte>, rest: seq<byte>)
    requires Fits(r) && Burst(r, bad)
    ensures Parse(bad + rest) == BadChecksum
  {
    hide Checksum, Payload, Encode;
    var e, data := Encode(r), bad + rest;
    var at: nat :| DiffersAt(r, bad, at);
    HeaderOf(r, rest);
    assert data[4..8] == (e + rest)[4..8] && data[8..12] == (e + rest)[8..12];
    assert data[4..|e|] == bad[4..] && (e + rest)[4..|e|] == e[4..];
    if bad[4..] == e[4..] {
      assert bad == bad[..4] + bad[4..] && e == e[..4] + e[4..];
      assert data[..4] == bad[..4] && (e + rest)[..4] == e[..4];
    } else {
      assert bad[..4] == e[..4] by {
        var i :| 0 <= i < |e| - 4 && bad[4..][i] != e[4..][i];
        assert bad[i + 4] != e[i + 4];
      }
      assert data[..4] == (e + rest)[..4];
      PayloadDamaged(e[4..], bad[4..], if at < 4 then 0 else at - 4);
    }
  }

  lemma PayloadDamaged(p: seq<byte>, q: seq<byte>, at: nat)
    requires |p| == |q| && p != q
    requires forall i :: 0 <= i < |p| && p[i] != q[i] ==> at <= i < at + 4
    ensures Checksum(p) != Checksum(q)
  {
    hide Checksum;
    var i :| 0 <= i < |p| && p[i] != q[i];
    var end := if at + 4 < |p| then at + 4 else |p|;
    SameOutside(p, q, at, end);
    InThree(p, at, end);
    InThree(q, at, end);
    DifferInside(p, q, at, end, i);
    BurstChanges(p[..at], p[at..end], q[at..end], p[end..]);
  }

  lemma SameOutside(p: seq<byte>, q: seq<byte>, at: nat, end: nat)
    requires |p| == |q| && at <= end <= |p|
    requires forall i :: 0 <= i < |p| && p[i] != q[i] ==> at <= i < end
    ensures p[..at] == q[..at] && p[end..] == q[end..]
  {
  }

  lemma DifferInside(p: seq<byte>, q: seq<byte>, at: nat, end: nat, i: nat)
    requires |p| == |q| && at <= i < end <= |p| && p[i] != q[i]
    ensures p[at..end] != q[at..end]
  {
    assert p[at..end][i - at] != q[at..end][i - at];
  }

  lemma InThree(p: seq<byte>, at: nat, end: nat)
    requires at <= end <= |p|
    ensures p == p[..at] + p[at..end] + p[end..]
  {
  }

  /** Read header and body at position `at` and check them, as recovery, replay and lookup all do. */
  method ReadRecord(data: seq<byte>, at: nat) returns (p: Parsed)
    requires at <= |data|
    ensures p == Parse(data[at..])
    ensures p.Parsed? ==> HEADER <= p.size <= |data| - at
  {
    hide Checksum, GetBE;
    ghost var rest := data[at..];
    if |data| - at < HEADER {
      return Torn;
    }
    var header := data[at..at + HEADER];
    assert header == rest[..HEADER];
    assert header[4..8] == rest[4..8] && header[8..12] == rest[8..12];
    var keyLen, valLen, tombstone := GetBE(header[4..8]), GetBE(header[8..12]), header[12] == 1;
    var bodyLen := (keyLen + valLen) % TWO_TO_32;
    if |data| - at - HEADER < bodyLen {
      return Torn;
    }
    var body := data[at + HEADER..at + HEADER + bodyLen];
    assert body == rest[HEADER..HEADER + bodyLen];
    assert header[..4] == rest[..4] && header[4..] + body == rest[4..HEADER + bodyLen];
    if header[..4] != Checksum(header[4..] + body) {
      return BadChecksum;
    }
    if keyLen > bodyLen {
      return Panics;
    }
    assert body[..keyLen] == rest[HEADER..HEADER + keyLen];
    assert body[keyLen..] == rest[HEADER + keyLen..HEADER + bodyLen];
    p := Parsed(Record(body[..keyLen], body[keyLen..], tombstone), HEADER + bodyLen);
  }
}
