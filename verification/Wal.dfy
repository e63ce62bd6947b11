/** The Bench write-ahead log: appending records to a file and reading them back after a crash (pkg/bench/wal.go). */
module Wal {
  import opened Bytes
  import opened Crc32
  import opened Records

  // ---------- What a file of records means ----------

  datatype End = Clean | CrcMismatch | Panicked

  /** The records read before the scan ended, and how it ended. */
  datatype Scan = Scan(records: seq<Record>, end: End)

  function ScanAll(data: seq<byte>): Scan
    decreases |data|
  {
    hide Parse;
    match Parse(data)
    case Torn => Scan([], Clean)
    case BadChecksum => Scan([], CrcMismatch)
    case Panics => Scan([], Panicked)
    case Parsed(r, size) =>
      var rest := ScanAll(data[size..]);
      Scan([r] + rest.records, rest.end)
  }

  function Encoded(rs: seq<Record>): seq<byte> {
    if rs == [] then [] else Encode(rs[0]) + Encoded(rs[1..])
  }

  predicate AllFit(rs: seq<Record>) {
    forall i :: 0 <= i < |rs| ==> Fits(rs[i])
  }

  lemma NothingEncoded()
    ensures Encoded([]) == []
  {
  }

  /** Scanning from `at`, one record further. */
  lemma ScanNext(data: seq<byte>, at: nat)
    requires at <= |data| && Parse(data[at..]).Parsed?
    ensures var p := Parse(data[at..]);
            && at + p.size <= |data|
            && ScanAll(data[at..]).records == [p.record] + ScanAll(data[at + p.size..]).records
            && ScanAll(data[at..]).end == ScanAll(data[at + p.size..]).end
  {
    hide Parse;
    assert data[at..][Parse(data[at..]).size..] == data[at + Parse(data[at..]).size..];
  }

  lemma Associative(a: seq<byte>, b: seq<byte>, c: seq<byte>)
    ensures a + b + c == a + (b + c)
  {
  }

  lemma {:induction false} EncodedConcat(a: seq<Record>, b: seq<Record>)
    ensures Encoded(a + b) == Encoded(a) + Encoded(b)
  {
    hide Encode;
    if a == [] {
      assert a + b == b;
      assert Encoded(a) + Encoded(b) == Encoded(b);
    } else {
      EncodedConcat(a[1..], b);
      assert (a + b)[0] == a[0] && (a + b)[1..] == a[1..] + b;
      Associative(Encode(a[0]), Encoded(a[1..]), Encoded(b));
    }
  }

  lemma ScanHead(r: Record, tail: seq<byte>)
    requires Fits(r)
    ensures ScanAll(Encode(r) + tail) == Scan([r] + ScanAll(tail).records, ScanAll(tail).end)
  {
    hide Encode, Parse;
    ParseEncoded(r, tail);
    assert (Encode(r) + tail)[|Encode(r)|..] == tail;
  }

  /** Reading on after a run of good records. */
  lemma {:induction false} ScanAfter(rs: seq<Record>, data: seq<byte>)
    requires AllFit(rs)
    ensures ScanAll(Encoded(rs) + data) == Scan(rs + ScanAll(data).records, ScanAll(data).end)
  {
    hide Encode, ScanAll, Fits;
    var rest := ScanAll(data).records;
    if rs == [] {
      assert Encoded(rs) + data == data;
      assert rs + rest == rest;
    } else {
      var head, tail := rs[0], rs[1..];
      Associative(Encode(head), Encoded(tail), data);
      ScanHead(head, Encoded(tail) + data);
      ScanAfter(tail, data);
      assert [head] + (tail + rest) == rs + rest;
    }
  }

  // ---------- Torn tails ----------

  /** How many of the records lie wholly within the first `cut` bytes of their encodings. */
  function WholeBefore(rs: seq<Record>, cut: nat): (k: nat)
    ensures k <= |rs|
  {
    if rs == [] || cut < |Encode(rs[0])| then 0 else 1 + WholeBefore(rs[1..], cut - |Encode(rs[0])|)
  }

  /** `WholeBefore` counts exactly the records whose encodings end at or before the cut. */
  lemma {:induction false} WholeBeforeExact(rs: seq<Record>, cut: nat, n: nat)
    requires n <= |rs|
    ensures |Encoded(rs[..n])| <= cut <==> n <= WholeBefore(rs, cut)
  {
    hide Encode;
    if n > 0 {
      assert rs[..n][1..] == rs[1..][..n - 1];
      if |Encode(rs[0])| <= cut {
        WholeBeforeExact(rs[1..], cut - |Encode(rs[0])|, n - 1);
      }
    }
  }

  lemma {:induction false} TornTailSplit(rs: seq<Record>, cut: nat) returns (tail: seq<byte>)
    requires AllFit(rs) && cut <= |Encoded(rs)|
    ensures var k := WholeBefore(rs, cut);
            && Encoded(rs)[..cut] == Encoded(rs[..k]) + tail
            && (tail == [] || (k < |rs| && |tail| < |Encode(rs[k])| && tail == Encode(rs[k])[..|tail|]))
  {
    hide Encode;
    if rs == [] {
      tail := [];
    } else if cut < |Encode(rs[0])| {
      tail := Encode(rs[0])[..cut];
      assert rs[..0] == [];
    } else {
      var size := |Encode(rs[0])|;
      tail := TornTailSplit(rs[1..], cut - size);
      var k := WholeBefore(rs[1..], cut - size);
      assert rs[..k + 1][1..] == rs[1..][..k];
      assert Encoded(rs)[..cut] == Encode(rs[0]) + Encoded(rs[1..])[..cut - size];
    }
  }

  /**
   * After a crash that left any prefix of the file, recovery ends cleanly and returns exactly the records that
   * were wholly written.
   */
  lemma TornTail(rs: seq<Record>, cut: nat)
    requires AllFit(rs) && cut <= |Encoded(rs)|
    ensures ScanAll(Encoded(rs)[..cut]) == Scan(rs[..WholeBefore(rs, cut)], Clean)
  {
    hide Encode, Parse;
    var k := WholeBefore(rs, cut);
    var tail := TornTailSplit(rs, cut);
    assert ScanAll(tail) == Scan([], Clean) by {
      if tail == [] {
        assert Parse([]) == Torn by { ParseNothing(); }
      } else {
        ParseCut(rs[k], |tail|);
      }
    }
    ScanAfter(rs[..k], tail);
    assert rs[..k] + [] == rs[..k];
  }

  lemma ParseNothing()
    ensures Parse([]) == Torn
  {
  }

  // ---------- Corruption ----------

  /** The file with the bytes of record `k` overwritten by `bad`. */
  function Damaged(rs: seq<Record>, k: nat, bad: seq<byte>): seq<byte>
    requires k < |rs|
  {
    Encoded(rs[..k]) + bad + Encoded(rs[k + 1..])
  }

  /** `Damaged` is the file that was written, changed nowhere but where record `k` lies. */
  lemma DamagedInPlace(rs: seq<Record>, k: nat, bad: seq<byte>)
    requires k < |rs| && |bad| == Size(rs[k])
    ensures var start := |Encoded(rs[..k])|;
            && |Damaged(rs, k, bad)| == |Encoded(rs)| && start + |bad| <= |Encoded(rs)|
            && Encoded(rs)[start..start + |bad|] == Encode(rs[k])
            && Damaged(rs, k, bad) == Encoded(rs)[..start] + bad + Encoded(rs)[start + |bad|..]
  {
    hide Encode;
    assert rs == rs[..k] + rs[k..];
    EncodedConcat(rs[..k], rs[k..]);
    assert rs[k..][1..] == rs[k + 1..];
  }

  /** Any change to up to four bytes in a row outside the length fields is caught, after exactly the records before. */
  lemma CorruptionDetected(rs: seq<Record>, k: nat, bad: seq<byte>)
    requires AllFit(rs) && k < |rs| && Burst(rs[k], bad)
    ensures ScanAll(Damaged(rs, k, bad)) == Scan(rs[..k], CrcMismatch)
  {
    hide Encode, Parse, Burst;
    var rest := Encoded(rs[k + 1..]);
    ParseDamaged(rs[k], bad, rest);
    ScanAfter(rs[..k], bad + rest);
    Associative(Encoded(rs[..k]), bad, rest);
    assert rs[..k] + [] == rs[..k];
  }

  // ---------- Behind good records ----------

  /** The data end before the header does, or before the body the header announces. */
  predicate TooShort(data: seq<byte>) {
    |data| < HEADER || |data| - HEADER < BodyLen(data)
  }

  /** The bytes the header announces do not have the checksum it gives. */
  predicate Mismatched(data: seq<byte>)
    requires !TooShort(data)
  {
    data[..4] != Checksum(data[4..HEADER + BodyLen(data)])
  }

  lemma ParseShort(data: seq<byte>)
    ensures Parse(data) == Torn <==> TooShort(data)
    ensures Parse(data) == BadChecksum <==> !TooShort(data) && Mismatched(data)
  {
    hide Checksum, BodyLen, KeyLen;
  }

  /**
   * Exactly when nothing behind good records is read: without error where it is too short for what its own header
   * announces, with a checksum mismatch where the announced bytes are there and do not match.
   */
  lemma StopsBehind(rs: seq<Record>, tail: seq<byte>)
    requires AllFit(rs)
    ensures ScanAll(Encoded(rs) + tail) == Scan(rs, Clean) <==> TooShort(tail)
    ensures ScanAll(Encoded(rs) + tail) == Scan(rs, CrcMismatch) <==> !TooShort(tail) && Mismatched(tail)
  {
    hide Parse, Checksum, BodyLen, Encoded, AllFit;
    ScanAfter(rs, tail);
    ParseShort(tail);
    var rest := ScanAll(tail).records;
    assert rs + [] == rs;
    assert |rs + rest| == |rs| + |rest|;
  }

  /** Everything from the damaged record on. */
  function DamagedRest(rs: seq<Record>, k: nat, bad: seq<byte>): seq<byte>
    requires k < |rs|
  {
    bad + Encoded(rs[k + 1..])
  }

  /**
   * A record overwritten by any other bytes, its lengths too: it is passed over in silence, and the record and
   * everything after it are lost, exactly when the lengths now there reach past the end of the file; it is reported
   * exactly when they do not and the checksum of the bytes they cover is wrong.
   */
  lemma LengthCorruption(rs: seq<Record>, k: nat, bad: seq<byte>)
    requires AllFit(rs) && k < |rs| && |bad| == Size(rs[k])
    ensures var rest := DamagedRest(rs, k, bad);
            && (ScanAll(Damaged(rs, k, bad)) == Scan(rs[..k], Clean) <==> TooShort(rest))
            && (ScanAll(Damaged(rs, k, bad)) == Scan(rs[..k], CrcMismatch) <==> !TooShort(rest) && Mismatched(rest))
  {
    hide Encode, TooShort, Mismatched, ScanAll;
    StopsBehind(rs[..k], DamagedRest(rs, k, bad));
    Associative(Encoded(rs[..k]), bad, Encoded(rs[k + 1..]));
  }

  /** One raised length byte makes a log of one empty record read as an empty log. */
  lemma SilentlyLost()
    ensures var r := Record([], [], false);
            && ScanAll(Encoded([r])) == Scan([r], Clean)
            && Encode(r)[7] == 0
            && ScanAll(Damaged([r], 0, Encode(r)[7 := 1])) == Scan([], Clean)
  {
    hide Checksum, ScanAll, PutBE, GetBE, Encode;
    var r := Record([], [], false);
    ReadsAll([r]);
    var bad := Encode(r)[7 := 1];
    assert [r][1..] == [] && [r][..0] == [];
    assert DamagedRest([r], 0, bad) == bad;
    RaisedLength();
    LengthCorruption([r], 0, bad);
  }

  lemma RaisedLength()
    ensures var e := Encode(Record([], [], false));
            |e| == HEADER && e[7] == 0 && BodyLen(e[7 := 1]) == 1
  {
    hide Checksum, GetBE;
    var e := Encode(Record([], [], false));
    assert PutBE(0, 4) == PutBE(0, 3) + [0] && PutBE(1, 4) == PutBE(0, 3) + [1];
    assert e[4..8] == PutBE(0, 4) && e[8..12] == PutBE(0, 4);
    assert e[7 := 1][4..8] == PutBE(1, 4) && e[7 := 1][8..12] == PutBE(0, 4);
    Width4();
    BigEndianRoundTrip(1, 4);
    BigEndianRoundTrip(0, 4);
  }

  lemma ReadsAll(rs: seq<Record>)
    requires AllFit(rs)
    ensures ScanAll(Encoded(rs)) == Scan(rs, Clean)
  {
    hide Encoded, AllFit;
    StopsBehind(rs, []);
    assert Encoded(rs) + [] == Encoded(rs);
  }

  // ---------- Reopening ----------

  /**
   * The log is reopened without cutting off a torn tail. Whatever the cut, nothing more is read and no error is
   * reported exactly when tail and appended bytes together are too short for the lengths at their front.
   */
  lemma BehindTornTail(before: seq<Record>, r: Record, cut: nat, after: seq<Record>)
    requires AllFit(before) && cut <= |Encode(r)|
    ensures var tail := Encode(r)[..cut] + Encoded(after);
            ScanAll(Encoded(before) + tail) == Scan(before, Clean) <==> TooShort(tail)
  {
    hide ScanAll, Encode, Encoded, TooShort, Checksum;
    StopsBehind(before, Encode(r)[..cut] + Encoded(after));
  }

  /** Where the cut lies behind the header: that is so exactly as long as what is appended does not fill the hole left. */
  lemma LostAfterTornTail(before: seq<Record>, r: Record, cut: nat, after: seq<Record>)
    requires AllFit(before) && Fits(r) && HEADER <= cut < |Encode(r)|
    ensures ScanAll(Encoded(before) + (Encode(r)[..cut] + Encoded(after))) == Scan(before, Clean) <==>
            cut + |Encoded(after)| < |Encode(r)|
  {
    hide Encode, Encoded, ScanAll, Checksum, AllFit;
    BehindTornTail(before, r, cut, after);
    TornLengths(r, cut, Encoded(after));
  }

  lemma TornLengths(r: Record, cut: nat, more: seq<byte>)
    requires Fits(r) && HEADER <= cut <= |Encode(r)|
    ensures BodyLen(Encode(r)[..cut] + more) == |Encode(r)| - HEADER
  {
    hide Encode, Checksum, Payload;
    var data := Encode(r)[..cut] + more;
    HeaderOf(r, []);
    assert Encode(r) + [] == Encode(r);
    assert data[4..8] == Encode(r)[4..8] && data[8..12] == Encode(r)[8..12];
  }

  /** Cut between two records, the log goes on as if nothing had happened. */
  lemma CutAtBoundary(before: seq<Record>, after: seq<Record>)
    requires AllFit(before) && AllFit(after)
    ensures ScanAll(Encoded(before) + Encoded(after)) == Scan(before + after, Clean)
  {
    hide Encoded, ScanAll, Fits;
    EncodedConcat(before, after);
    ReadsAll(before + after);
  }

  /** A record with a 14-byte value, cut behind its header: the record written next is lost. */
  lemma WriteLost()
    ensures var torn, next := Record([], [0, 0, 0, 0, 0, 0, 0, 0, 0, 0, 0, 0, 0, 0], false), Record([], [], false);
            ScanAll(Encoded([]) + (Encode(torn)[..HEADER] + Encoded([next]))) == Scan([], Clean)
  {
    hide ScanAll, Encode;
    var torn, next := Record([], [0, 0, 0, 0, 0, 0, 0, 0, 0, 0, 0, 0, 0, 0], false), Record([], [], false);
    assert [next][1..] == [];
    assert |Encoded([next])| == HEADER;
    LostAfterTornTail([], torn, HEADER, [next]);
  }

  // ---------- Appending to any file ----------

  /** What is left of the data when no further record can be read. */
  function Unread(data: seq<byte>): (rest: seq<byte>)
    decreases |data|
  {
    hide Parse;
    match Parse(data)
    case Parsed(r, size) => Unread(data[size..])
    case _ => data
  }

  /** What has been read as a record, or refused, stays so whatever is appended. */
  lemma ParseExtends(data: seq<byte>, more: seq<byte>)
    requires Parse(data) != Torn
    ensures Parse(data + more) == Parse(data)
  {
    hide Checksum, GetBE;
    var all := data + more;
    assert all[4..8] == data[4..8] && all[8..12] == data[8..12] && all[..4] == data[..4];
    var size := HEADER + BodyLen(data);
    assert all[4..size] == data[4..size];
    if KeyLen(data) <= BodyLen(data) {
      assert all[HEADER..HEADER + KeyLen(data)] == data[HEADER..HEADER + KeyLen(data)];
      assert all[HEADER + KeyLen(data)..size] == data[HEADER + KeyLen(data)..size];
    }
  }

  lemma ScanStep(data: seq<byte>)
    requires Parse(data).Parsed?
    ensures var p := Parse(data); var rest := data[p.size..];
            ScanAll(data) == Scan([p.record] + ScanAll(rest).records, ScanAll(rest).end) && Unread(data) == Unread(rest)
  {
    hide Parse;
  }

  lemma ScanStopped(data: seq<byte>)
    requires !Parse(data).Parsed?
    ensures ScanAll(data).records == [] && Unread(data) == data
  {
    hide Parse;
  }

  /** Appending to a file of any contents: reading goes on from what was left unread. */
  lemma {:induction false} ScanContinues(data: seq<byte>, more: seq<byte>)
    ensures var rest := ScanAll(Unread(data) + more);
            ScanAll(data + more) == Scan(ScanAll(data).records + rest.records, rest.end)
    decreases |data|
  {
    hide Parse, ScanAll, Unread;
    if Parse(data).Parsed? {
      var p, tail := Parse(data), data[Parse(data).size..];
      ParseExtends(data, more);
      assert (data + more)[p.size..] == tail + more;
      ScanStep(data);
      ScanStep(data + more);
      ScanContinues(tail, more);
      var a, b := ScanAll(tail).records, ScanAll(Unread(tail) + more).records;
      assert [p.record] + (a + b) == [p.record] + a + b;
    } else {
      ScanStopped(data);
      assert [] + ScanAll(data + more).records == ScanAll(data + more).records;
    }
  }

  lemma {:induction false} UnreadStops(data: seq<byte>)
    ensures !Parse(Unread(data)).Parsed? && |Unread(data)| <= |data|
    ensures ScanAll(data).end == ScanAll(Unread(data)).end && ScanAll(Unread(data)).records == []
    decreases |data|
  {
    hide Parse;
    if Parse(data).Parsed? {
      UnreadStops(data[Parse(data).size..]);
    }
  }

  /** Behind a record that is refused nothing is ever read again. */
  lemma StuckForGood(data: seq<byte>, more: seq<byte>)
    requires ScanAll(data).end != Clean
    ensures ScanAll(data + more) == ScanAll(data)
  {
    hide Parse;
    UnreadStops(data);
    ParseExtends(Unread(data), more);
    ScanContinues(data, more);
    assert ScanAll(data).records + [] == ScanAll(data).records;
  }

  // ---------- When reopening is safe ----------

  lemma {:induction false} GetBound(s: seq<byte>)
    ensures GetBE(s) < Pow256(|s|)
  {
    if s != [] {
      GetBound(s[..|s| - 1]);
    }
  }

  /** A record that is read has the lengths its header announces. */
  lemma ParsedLengths(data: seq<byte>)
    requires Parse(data).Parsed?
    ensures |data| >= HEADER
    ensures |Parse(data).record.key| == KeyLen(data) && |Parse(data).record.value| == ValueLen(data)
  {
    hide Checksum, GetBE;
    Width4();
    GetBound(data[4..8]);
    GetBound(data[8..12]);
  }

  /** A record that does not survive being appended to a file that ends with `rest`. */
  function Probe(rest: seq<byte>): Record {
    if |rest| < 8 then Record([], [0], false)
    else if GetBE(rest[4..8]) == 0 then Record([0], [], false)
    else Record([], [], false)
  }

  /** Behind at most seven bytes, the value length of the probe is read off some of its bytes, the last of them zero. */
  lemma ShiftedLength(rest: seq<byte>)
    requires 0 < |rest| < 8
    ensures ValueLen(rest + Encode(Record([], [0], false))) != 1
  {
    hide Encode, GetBE;
    var e := Encode(Record([], [0], false));
    ProbeHeader();
    var field := (rest + e)[8..12];
    assert field[3] == e[11 - |rest|] == e[4..11][7 - |rest|];
    LastZero(field);
  }

  lemma ProbeHeader()
    ensures |Encode(Record([], [0], false))| == 14 && Encode(Record([], [0], false))[4..11] == [0, 0, 0, 0, 0, 0, 0]
  {
    hide Checksum;
    var e := Encode(Record([], [0], false));
    assert PutBE(0, 4) == [0, 0, 0, 0] && PutBE(1, 4) == [0, 0, 0, 1];
    assert e[4..11] == PutBE(0, 4) + PutBE(1, 4)[..3];
  }

  lemma LastZero(s: seq<byte>)
    requires |s| == 4 && s[3] == 0
    ensures GetBE(s) != 1
  {
    assert GetBE(s) == 256 * GetBE(s[..3]);
  }

  lemma ProbeNotRead(rest: seq<byte>)
    requires rest != []
    ensures var p := Parse(rest + Encode(Probe(rest)));
            p.Parsed? ==> p.record != Probe(rest)
  {
    hide Parse, Encode, GetBE;
    var data := rest + Encode(Probe(rest));
    if Parse(data).Parsed? {
      ParsedLengths(data);
      if |rest| < 8 {
        ShiftedLength(rest);
      } else {
        assert data[4..8] == rest[4..8];
      }
    }
  }

  /** Appended to a file that was not read to its end, the probe is not recovered. */
  lemma ProbeLost(data: seq<byte>)
    requires Unread(data) != []
    ensures var w := Probe(Unread(data));
            Fits(w) && ScanAll(data + Encode(w)).records != ScanAll(data).records + [w]
  {
    hide Parse, Encode, ScanAll, Unread;
    var rest := Unread(data);
    var w := Probe(rest);
    var all := rest + Encode(w);
    ScanContinues(data, Encode(w));
    ProbeNotRead(rest);
    var before := ScanAll(data).records;
    if Parse(all).Parsed? {
      ScanStep(all);
      assert (before + ScanAll(all).records)[|before|] != w;
    } else {
      ScanStopped(all);
      assert |before + []| != |before + [w]|;
    }
  }

  /**
   * Whatever is written to a reopened file is recovered exactly when the file was read to its last byte. Any rest,
   * torn or refused, makes some record disappear.
   */
  lemma ReopenedExactly(data: seq<byte>)
    ensures (forall w | Fits(w) :: ScanAll(data + Encode(w)).records == ScanAll(data).records + [w])
            <==> Unread(data) == []
  {
    hide Parse, Encode, ScanAll, Unread, Probe;
    if Unread(data) == [] {
      forall w | Fits(w)
        ensures ScanAll(data + Encode(w)).records == ScanAll(data).records + [w]
      {
        ReopenedWhole(data, [w]);
        OneEncoded(w);
      }
    } else {
      ProbeLost(data);
    }
  }

  lemma OneEncoded(w: Record)
    ensures Encoded([w]) == Encode(w)
  {
    hide Encode;
    assert [w][1..] == [];
    assert Encode(w) + [] == Encode(w);
  }

  lemma ReopenedWhole(data: seq<byte>, ws: seq<Record>)
    requires Unread(data) == [] && AllFit(ws)
    ensures ScanAll(data + Encoded(ws)) == Scan(ScanAll(data).records + ws, Clean)
  {
    hide Encoded, ScanAll, Unread, Fits;
    ScanContinues(data, Encoded(ws));
    ReadsAll(ws);
    assert [] + Encoded(ws) == Encoded(ws);
  }

  /**
   * The hole can be filled exactly: a log cut behind the header of a record with one value byte takes that byte from
   * the record appended next. The torn record comes back whole and the appended one is gone.
   */
  lemma StolenByte()
    ensures var w := Record([], [], false); var r := Record([], [Encode(w)[0]], false);
            var base := Encode(r)[..HEADER];
            ScanAll(base) == Scan([], Clean) && ScanAll(base + Encode(w)) == Scan([r], Clean)
  {
    hide Encode, ScanAll, Checksum;
    var w := Record([], [], false);
    var r := Record([], [Encode(w)[0]], false);
    var base, tail := Encode(r)[..HEADER], Encode(w)[1..];
    HeaderOf(r, []);
    assert Encode(r) + [] == Encode(r);
    assert Encode(r)[HEADER..] == r.value;
    assert base + Encode(w) == Encode(r) + tail;
    OneEncoded(r);
    StopsBehind([r], tail);
    TornLengths(r, HEADER, []);
    assert base + [] == base && Encoded([]) + base == base;
    StopsBehind([], base);
  }

  // ---------- What recovery reports ----------

  datatype Recovery = Recovered(records: seq<Record>) | LogClosed | Corrupted | RecoveryPanicked

  /** A torn tail ends recovery without error; a wrong checksum throws away what was read before it. */
  function RecoveryOf(s: Scan): Recovery {
    match s.end
    case Clean => Recovered(s.records)
    case CrcMismatch => Corrupted
    case Panicked => RecoveryPanicked
  }

  /** What recovery returns of a log that was cut anywhere, or in which a record has changed. */
  lemma RecoveryReports(data: seq<byte>)
    ensures forall rs, cut: nat :: AllFit(rs) && cut <= |Encoded(rs)| && data == Encoded(rs)[..cut] ==>
              RecoveryOf(ScanAll(data)) == Recovered(rs[..WholeBefore(rs, cut)])
    ensures forall rs, k: nat, bad :: AllFit(rs) && k < |rs| && Burst(rs[k], bad) && data == Damaged(rs, k, bad) ==>
              RecoveryOf(ScanAll(data)) == Corrupted
  {
    hide AllFit, Encoded, ScanAll, WholeBefore, Burst, Damaged;
    forall rs, cut: nat | AllFit(rs) && cut <= |Encoded(rs)| && data == Encoded(rs)[..cut]
      ensures RecoveryOf(ScanAll(data)) == Recovered(rs[..WholeBefore(rs, cut)])
    {
      TornTail(rs, cut);
    }
    forall rs, k: nat, bad | AllFit(rs) && k < |rs| && Burst(rs[k], bad) && data == Damaged(rs, k, bad)
      ensures RecoveryOf(ScanAll(data)) == Corrupted
    {
      CorruptionDetected(rs, k, bad);
    }
  }

  // ---------- The log itself ----------

  /** Overwrite `buf` from `at` on with `s`, behind what lies at `start..at` already. */
  method CopyBehind(buf: array<byte>, ghost start: nat, at: nat, s: seq<byte>)
    requires start <= at && at + |s| <= buf.Length
    modifies buf
    ensures buf[start..at + |s|] == old(buf[start..at]) + s
    ensures buf[at + |s|..] == old(buf[at + |s|..])
  {
    for i := 0 to |s|
      invariant buf[start..at] == old(buf[start..at]) && buf[at..at + i] == s[..i]
      invariant buf[at + i..] == old(buf[at + i..])
    {
      buf[at + i] := s[i];
    }
    assert buf[start..at + |s|] == buf[start..at] + buf[at..at + |s|];
  }

  /** Fill a buffer with lengths, flag, key and value, then with the checksum over them. */
  method EncodeRecord(key: seq<byte>, value: seq<byte>, tombstone: bool) returns (buf: array<byte>)
    requires Fits(Record(key, value, tombstone))
    ensures fresh(buf) && buf[..] == Encode(Record(key, value, tombstone))
  {
    hide PutBE, Checksum, Encode;
    ghost var r := Record(key, value, tombstone);
    buf := new byte[HEADER + |key| + |value|];
    CopyBehind(buf, 4, 4, PutBE(|key|, 4));
    assert buf[4..8] == PutBE(|key|, 4);
    CopyBehind(buf, 4, 8, PutBE(|value|, 4));
    CopyBehind(buf, 4, 12, [if tombstone then 1 else 0]);
    CopyBehind(buf, 4, 13, key);
    CopyBehind(buf, 4, 13 + |key|, value);
    var payload := buf[4..];
    assert payload == buf[4..13 + |key| + |value|] == Payload(r);
    CopyBehind(buf, 0, 0, Checksum(payload));
    assert buf[0..4] == Checksum(payload) && buf[4..] == payload;
    assert buf[..] == buf[0..4] + buf[4..];
    EncodedAs(r);
  }

  lemma EncodedAs(r: Record)
    ensures Encode(r) == Checksum(Payload(r)) + Payload(r)
  {
  }

  class WAL {
    var file: seq<byte>
    var size: nat
    var closed: bool

    ghost predicate Valid()
      reads this
    {
      size == |file|
    }

    /** Open the log over what the file already holds. */
    constructor (contents: seq<byte>)
      ensures Valid() && file == contents && !closed
    {
      file, size, closed := contents, |contents|, false;
    }

    /** Append one record; `n` is the number of bytes written. A closed log refuses. */
    method Append(key: seq<byte>, value: seq<byte>, tombstone: bool) returns (n: nat, ok: bool)
      requires Valid() && Fits(Record(key, value, tombstone))
      modifies this
      ensures Valid() && closed == old(closed) && ok == !closed
      ensures file == old(file) + if ok then Encode(Record(key, value, tombstone)) else []
      ensures n == |file| - |old(file)|
    {
      hide Encode, Fits;
      if closed {
        return 0, false;
      }
      var buf := EncodeRecord(key, value, tombstone);
      var encoded := buf[..];
      file := file + encoded;
      n := |encoded|;
      size := size + n;
      ok := true;
    }

    /** Refuse everything from now on; what was written stays. */
    method Close()
      requires Valid()
      modifies this`closed
      ensures Valid() && closed
    {
      closed := true;
    }

    /**
     * Read the file from start to end, checking every checksum. A log cut anywhere gives the records wholly before
     * the cut; a change to up to four bytes in a row outside the lengths of a record gives an error and no records.
     */
    method Recover() returns (r: Recovery)
      requires Valid()
      ensures r == if closed then LogClosed else RecoveryOf(ScanAll(file))
      ensures forall rs, cut: nat :: !closed && AllFit(rs) && cut <= |Encoded(rs)| && file == Encoded(rs)[..cut] ==>
                r == Recovered(rs[..WholeBefore(rs, cut)])
      ensures forall rs, k: nat, bad ::
                (!closed && AllFit(rs) && k < |rs| && Burst(rs[k], bad) && file == Damaged(rs, k, bad)) ==> r == Corrupted
    {
      hide Parse, AllFit, Encoded, WholeBefore, Burst, Damaged;
      if closed {
        return LogClosed;
      }
      RecoveryReports(file);
      var data := file;
      var records: seq<Record> := [];
      var at := 0;
      while true
        invariant 0 <= at <= |data|
        invariant ScanAll(data).records == records + ScanAll(data[at..]).records
        invariant ScanAll(data).end == ScanAll(data[at..]).end
        decreases |data| - at
      {
        var p := ReadRecord(data, at);
        match p {
          case Torn =>
            break;
          case BadChecksum =>
            return Corrupted;
          case Panics =>
            return RecoveryPanicked;
          case Parsed(record, size) =>
            ScanNext(data, at);
            records := records + [record];
            at := at + size;
        }
      }
      r := Recovered(records);
    }
  }

  /** Replaying segment files one after the other, stopping at the first that does not end cleanly. */
  function ScanSegments(files: seq<seq<byte>>): Scan {
    if files == [] then Scan([], Clean)
    else
      var first := ScanAll(files[0]);
      if first.end != Clean then first
      else
        var rest := ScanSegments(files[1..]);
        Scan(first.records + rest.records, rest.end)
  }

  function AllRecords(segments: seq<seq<Record>>): seq<Record> {
    if segments == [] then [] else segments[0] + AllRecords(segments[1..])
  }

  /** The files written for the given segments. */
  function SegmentFiles(segments: seq<seq<Record>>): seq<seq<byte>> {
    if segments == [] then [] else [Encoded(segments[0])] + SegmentFiles(segments[1..])
  }

  /**
   * Replaying whole segments and behind them files of any contents: the records of the segments, in order, and then
   * whatever the other files give.
   */
  lemma {:induction false} WholeSegments(segments: seq<seq<Record>>, files: seq<seq<byte>>)
    requires forall i :: 0 <= i < |segments| ==> AllFit(segments[i])
    ensures var rest := ScanSegments(files);
            ScanSegments(SegmentFiles(segments) + files) == Scan(AllRecords(segments) + rest.records, rest.end)
  {
    hide ScanAll, Encoded, AllFit;
    var rest := ScanSegments(files).records;
    if segments == [] {
      assert SegmentFiles(segments) + files == files;
      assert [] + rest == rest;
    } else {
      var all := SegmentFiles(segments) + files;
      assert AllFit(segments[0]);
      ReadsAll(segments[0]);
      WholeSegments(segments[1..], files);
      assert all[0] == Encoded(segments[0]) && all[1..] == SegmentFiles(segments[1..]) + files;
      assert segments[0] + (AllRecords(segments[1..]) + rest) == AllRecords(segments) + rest;
    }
  }

  /** A segment with a changed record ends the replay: its records before that one still count, no later file does. */
  lemma DamagedSegment(segments: seq<seq<Record>>, rs: seq<Record>, k: nat, bad: seq<byte>, later: seq<seq<byte>>)
    requires AllFit(rs) && k < |rs| && Burst(rs[k], bad) && forall i :: 0 <= i < |segments| ==> AllFit(segments[i])
    ensures ScanSegments(SegmentFiles(segments) + ([Damaged(rs, k, bad)] + later)) ==
            Scan(AllRecords(segments) + rs[..k], CrcMismatch)
  {
    hide ScanAll, Encoded, AllFit, Burst, Damaged, SegmentFiles, AllRecords;
    CorruptionDetected(rs, k, bad);
    WholeSegments(segments, [Damaged(rs, k, bad)] + later);
  }

  /** Replay one segment after what has been applied before. */
  method ReplaySegment(file: seq<byte>, before: seq<Record>) returns (applied: seq<Record>, end: End)
    ensures applied == before + ScanAll(file).records && end == ScanAll(file).end
  {
    hide Parse;
    applied, end := before, Clean;
    var at := 0;
    while true
      invariant 0 <= at <= |file|
      invariant before + ScanAll(file).records == applied + ScanAll(file[at..]).records
      invariant ScanAll(file).end == ScanAll(file[at..]).end
      decreases |file| - at
    {
      var p := ReadRecord(file, at);
      match p {
        case Torn =>
          break;
        case BadChecksum =>
          end := CrcMismatch;
          return;
        case Panics =>
          end := Panicked;
          return;
        case Parsed(record, size) =>
          ScanNext(file, at);
          assert applied + ([record] + ScanAll(file[at + size..]).records) ==
                 applied + [record] + ScanAll(file[at + size..]).records;
          applied := applied + [record];
          at := at + size;
      }
    }
  }

  lemma NoSegments()
    ensures ScanSegments([]) == Scan([], Clean)
  {
  }

  /** Replaying from segment `i` on. */
  lemma SegmentsFrom(files: seq<seq<byte>>, i: nat)
    requires i < |files|
    ensures var first, rest := ScanAll(files[i]), ScanSegments(files[i + 1..]);
            ScanSegments(files[i..]) ==
              if first.end != Clean then first else Scan(first.records + rest.records, rest.end)
  {
    hide ScanAll;
    assert files[i..][0] == files[i] && files[i..][1..] == files[i + 1..];
  }

  /**
   * Replay every segment in order. `applied` is what the callback has been called with; unlike `Recover`, replaying
   * keeps the records before a wrong checksum.
   */
  method ReplayWAL(files: seq<seq<byte>>) returns (applied: seq<Record>, count: nat, end: End)
    ensures Scan(applied, end) == ScanSegments(files) && count == |applied|
  {
    hide ScanAll, ScanSegments;
    applied, count, end := [], 0, Clean;
    assert files[0..] == files;
    assert [] + ScanSegments(files).records == ScanSegments(files).records;
    for i := 0 to |files|
      invariant count == |applied| && end == Clean
      invariant ScanSegments(files).records == applied + ScanSegments(files[i..]).records
      invariant ScanSegments(files).end == ScanSegments(files[i..]).end
    {
      ghost var before := applied;
      applied, end := ReplaySegment(files[i], applied);
      count := |applied|;
      SegmentsFrom(files, i);
      if end != Clean {
        return;
      }
      assert before + (ScanAll(files[i]).records + ScanSegments(files[i + 1..]).records) ==
             applied + ScanSegments(files[i + 1..]).records;
    }
    NoSegments();
    assert files[|files|..] == [] && applied + [] == applied;
  }
}
