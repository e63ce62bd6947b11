/** What a lookup makes of a record that has changed on disk (pkg/storage/sstable.go:337-383). */
module SSTableDamage {
  import opened Bytes
  import opened Records
  import opened OrderedMap
  import opened Wal
  import opened Bloom
  import opened SSTableFormat
  import opened SSTableLookup

  /** Scanning ordered records with anything behind them: the scan gets there exactly when all their keys are smaller. */
  lemma {:induction false} ScanBehind(es: seq<Record>, tail: seq<byte>, key: seq<byte>)
    requires Ascending(es) && AllFit(es)
    ensures ScanFor(Encoded(es) + tail, key) ==
            if es == [] || Less(es[|es| - 1].key, key) then ScanFor(tail, key) else Answer(Find(es, key))
  {
    hide Encode, Parse, Less;
    if es == [] {
      assert Encoded(es) + tail == tail;
    } else {
      var more := Encoded(es[1..]) + tail;
      Associative(Encode(es[0]), Encoded(es[1..]), tail);
      ParseEncoded(es[0], more);
      assert (Encode(es[0]) + more)[|Encode(es[0])|..] == more;
      InOrder(es, 0, |es| - 1);
      LessTotal(es[0].key, key);
      if es[0].key == key {
      } else if Less(key, es[0].key) {
        SmallerThanAll(es, key);
        LessAsymmetric(key, es[0].key);
        NotBelow(es, |es| - 1, key);
      } else {
        ScanBehind(es[1..], tail, key);
      }
    }
  }

  lemma NotBelow(es: seq<Record>, j: nat, key: seq<byte>)
    requires Ascending(es) && j < |es| && Less(key, es[0].key)
    ensures !Less(es[j].key, key)
  {
    hide Less;
    InOrder(es, 0, j);
    if Less(es[j].key, key) {
      LessTransitive(es[j].key, key, es[0].key);
    }
  }

  /** The file with the bytes of record `k` overwritten by `bad`. */
  function DamagedFile(es: seq<Record>, interval: nat, filter: Filter, k: nat, bad: seq<byte>): seq<byte>
    requires interval > 0 && k < |es|
  {
    Layout(Damaged(es, k, bad), IndexBytes(IndexOf(es, |es|, interval)), Serialized(filter))
  }

  /** That is the built file, changed nowhere but where record `k` lies. */
  lemma DamagedFileInPlace(es: seq<Record>, interval: nat, filter: Filter, k: nat, bad: seq<byte>)
    requires interval > 0 && k < |es| && |bad| == Size(es[k])
    ensures var file, start := TableFile(es, interval, filter), |Encoded(es[..k])|;
            && |Damaged(es, k, bad)| == |Encoded(es)|
            && start + |bad| <= |file| && file[start..start + |bad|] == Encode(es[k])
            && DamagedFile(es, interval, filter, k, bad) == file[..start] + bad + file[start + |bad|..]
  {
    hide Encode, Encoded, Damaged, IndexOf, IndexBytes, Serialized, FooterBytes;
    DamagedInPlace(es, k, bad);
  }

  /** The damage is not noticed on opening: index and filter are as before. */
  lemma OpenDamaged(es: seq<Record>, interval: nat, filter: Filter, k: nat, bad: seq<byte>)
    requires interval > 0 && AllFit(es) && Serializable(filter) && k < |es| && |bad| == Size(es[k])
    requires |TableFile(es, interval, filter)| < TWO_TO_63
    ensures OpenFile(DamagedFile(es, interval, filter, k, bad)) ==
            Opened(BuiltTable(es, interval, filter).(file := DamagedFile(es, interval, filter, k, bad)))
  {
    hide Encode, Encoded, Damaged, IndexOf, IndexBytes, ParseIndex, Serialized, Deserialized, FooterBytes, FooterOf,
         ReadExact, AllFit, IndexFits, Sound;
    var index := IndexOf(es, |es|, interval);
    DamagedFileInPlace(es, interval, filter, k, bad);
    LayoutParts(Damaged(es, k, bad), IndexBytes(index), Serialized(filter));
    IndexOfFits(es, interval);
    IndexRoundTrip(index);
    FilterRoundTrip(filter, []);
    assert Serialized(filter) + [] == Serialized(filter);
  }

  /** The lookup of `key` reads record `k`: it is in the key's bracket and every record before it there is smaller. */
  predicate Reads(hash: Hash, es: seq<Record>, interval: nat, filter: Filter, k: nat, key: seq<byte>)
    requires interval > 0 && Sound(filter) && k < |es|
  {
    var (m, n) := Bracket(es, interval, key);
    MayContain(hash, filter, key) && m <= k < n && (k == m || Less(es[k - 1].key, key))
  }

  /** What the lookup has before it when it comes to the overwritten record: the rest of the bracket. */
  function BracketRest(es: seq<Record>, interval: nat, k: nat, bad: seq<byte>, key: seq<byte>): seq<byte>
    requires interval > 0 && k < |es|
  {
    var (m, n) := Bracket(es, interval, key);
    bad + if k < n <= |es| then Encoded(es[k + 1..n]) else []
  }

  /** The answer of a scan that starts with these bytes, as far as their own header decides it. */
  function AnswerOf(data: seq<byte>, key: seq<byte>): Lookup {
    if TooShort(data) then Absent else if Mismatched(data) then WrongChecksum else ScanFor(data, key)
  }

  lemma AnswerOfScan(data: seq<byte>, key: seq<byte>)
    ensures ScanFor(data, key) == AnswerOf(data, key)
  {
    hide Parse, TooShort, Mismatched;
    ParseShort(data);
  }

  /**
   * One record overwritten by any bytes, its lengths too: a lookup that does not read the record answers as if
   * nothing had happened. One that does answers Absent, without an error, when the lengths now there reach past
   * the end of the bracket, and reports corruption when they do not and the bytes they cover do not match.
   */
  lemma LookupOverwritten(hash: Hash, es: seq<Record>, interval: nat, numBits: nat, numHashes: nat,
                          k: nat, bad: seq<byte>, key: seq<byte>)
    requires Ascending(es) && AllFit(es) && interval > 0 && numBits > 0 && |Encoded(es)| < TWO_TO_63
    requires k < |es| && |bad| == Size(es[k])
    ensures var filter := FilterOf(hash, numBits, numHashes, Keys(es));
            var t := BuiltTable(es, interval, filter).(file := DamagedFile(es, interval, filter, k, bad));
            LookupIn(hash, t, key) ==
              if Reads(hash, es, interval, filter, k, key) then AnswerOf(BracketRest(es, interval, k, bad, key), key)
              else Answer(Find(es, key))
  {
    hide Encode, Encoded, Damaged, FilterOf, DamagedFile, BuiltTable, MayContain, LookupIn, Bracket, Find, Sound, Size,
         Ascending, AllFit, Less, Answer, ScanFor, AnswerOf;
    var filter := FilterOf(hash, numBits, numHashes, Keys(es));
    LookupRefinesFind(hash, es, interval, numBits, numHashes, key);
    if !MayContain(hash, filter, key) {
      LookupSameFilter(hash, es, interval, filter, k, bad, key);
    } else {
      var (m, n) := Bracket(es, interval, key);
      BracketBounds(es, interval, key);
      LookupInBracket(hash, es, interval, filter, key);
      DamagedBracket(hash, es, interval, filter, k, bad, key);
      if m <= k < n {
        ScanOverwritten(es, m, n, k, bad, key);
        AnswerOfScan(BracketRest(es, interval, k, bad, key), key);
      }
    }
  }

  lemma SliceParts(es: seq<Record>, m: nat, n: nat, k: nat)
    requires m <= k < n <= |es|
    ensures es[m..n][..k - m] == es[m..k] && es[m..n][k - m + 1..] == es[k + 1..n]
  {
  }

  lemma ScanOverwritten(es: seq<Record>, m: nat, n: nat, k: nat, bad: seq<byte>, key: seq<byte>)
    requires Ascending(es) && AllFit(es) && m <= k < n <= |es| && (m > 0 ==> !Less(key, es[m].key))
    ensures ScanFor(Damaged(es[m..n], k - m, bad), key) ==
            if k == m || Less(es[k - 1].key, key) then ScanFor(bad + Encoded(es[k + 1..n]), key)
            else Answer(Find(es, key))
  {
    hide Encoded, Find, Ascending, AllFit, Less, Answer, ScanFor;
    var rest := Encoded(es[k + 1..n]);
    SliceParts(es, m, n, k);
    Associative(Encoded(es[m..k]), bad, rest);
    SliceAscending(es, m, k);
    SliceFits(es, m, k);
    ScanBehind(es[m..k], bad + rest, key);
    if k != m && !Less(es[k - 1].key, key) {
      LessTotal(es[k - 1].key, key);
      InOrder(es, k - 1, k);
      if key != es[k - 1].key {
        LessTransitive(key, es[k - 1].key, es[k].key);
      }
      FindWithin(es, m, k, key);
    }
  }

  /**
   * A change to up to four bytes in a row outside the length fields of one record: a lookup that reads the record
   * reports corruption, and every other lookup answers as if nothing had happened. No lookup returns a wrong record.
   */
  lemma LookupDamaged(hash: Hash, es: seq<Record>, interval: nat, numBits: nat, numHashes: nat,
                      k: nat, bad: seq<byte>, key: seq<byte>)
    requires Ascending(es) && AllFit(es) && interval > 0 && numBits > 0 && |Encoded(es)| < TWO_TO_63
    requires k < |es| && Burst(es[k], bad)
    ensures var filter := FilterOf(hash, numBits, numHashes, Keys(es));
            var t := BuiltTable(es, interval, filter).(file := DamagedFile(es, interval, filter, k, bad));
            LookupIn(hash, t, key) ==
              if Reads(hash, es, interval, filter, k, key) then WrongChecksum else Answer(Find(es, key))
  {
    hide Encoded, DiffersAt, FilterOf, DamagedFile, BuiltTable, LookupIn, Bracket, Find, Ascending, Answer, Parse, Encode;
    LookupOverwritten(hash, es, interval, numBits, numHashes, k, bad, key);
    var (m, n) := Bracket(es, interval, key);
    ParseDamaged(es[k], bad, if k < n <= |es| then Encoded(es[k + 1..n]) else []);
    AnswerOfScan(BracketRest(es, interval, k, bad, key), key);
  }

  lemma LookupSameFilter(hash: Hash, es: seq<Record>, interval: nat, filter: Filter, k: nat, bad: seq<byte>,
                         key: seq<byte>)
    requires interval > 0 && Sound(filter) && k < |es| && |bad| == Size(es[k]) && !MayContain(hash, filter, key)
    ensures LookupIn(hash, BuiltTable(es, interval, filter).(file := DamagedFile(es, interval, filter, k, bad)), key)
            == LookupIn(hash, BuiltTable(es, interval, filter), key)
  {
    hide MayContain, Sound, IndexOf, TableFile, DamagedFile, Encode, Encoded;
  }

  /** The bytes of records `m..n`: damaged where they hold the damaged record, as written elsewhere. */
  function SliceOf(es: seq<Record>, k: nat, bad: seq<byte>, m: nat, n: nat): seq<byte>
    requires k < |es| && m <= n <= |es|
  {
    if m <= k < n then Damaged(es[m..n], k - m, bad) else Encoded(es[m..n])
  }

  /** Cutting a stretch out of overwritten data: the same stretch of the data, overwritten if it holds the place. */
  lemma OverwrittenSlice(data: seq<byte>, start: nat, bad: seq<byte>, at: nat, end: nat)
    requires at <= end <= |data| && start + |bad| <= |data|
    ensures var over, cut := data[..start] + bad + data[start + |bad|..], data[at..end];
            && (end <= start || start + |bad| <= at ==> over[at..end] == cut)
            && (at <= start && start + |bad| <= end ==>
                  over[at..end] == cut[..start - at] + bad + cut[start - at + |bad|..])
  {
  }

  lemma DamagedSlice(es: seq<Record>, k: nat, bad: seq<byte>, m: nat, n: nat)
    requires k < |es| && |bad| == Size(es[k]) && m <= n <= |es|
    ensures |Encoded(es[..m])| <= |Encoded(es[..n])| <= |Damaged(es, k, bad)|
    ensures Damaged(es, k, bad)[|Encoded(es[..m])|..|Encoded(es[..n])|] == SliceOf(es, k, bad, m, n)
  {
    hide Encode, Encoded, Damaged, Size;
    var start, at, end := |Encoded(es[..k])|, |Encoded(es[..m])|, |Encoded(es[..n])|;
    DamagedInPlace(es, k, bad);
    EncodedSlice(es, m, n);
    PrefixOrder(es, k, m);
    PrefixOrder(es, k, n);
    OverwrittenSlice(Encoded(es), start, bad, at, end);
    if m <= k < n {
      DamagedInPlace(es[m..n], k - m, bad);
      assert es[m..n][..k - m] == es[m..k];
      assert es[..m] + es[m..k] == es[..k];
      EncodedConcat(es[..m], es[m..k]);
    }
  }

  lemma PrefixOrder(es: seq<Record>, k: nat, m: nat)
    requires k < |es| && m <= |es|
    ensures m <= k ==> |Encoded(es[..m])| <= |Encoded(es[..k])|
    ensures k < m ==> |Encoded(es[..k])| + |Encode(es[k])| <= |Encoded(es[..m])|
  {
    hide Encode;
    if m <= k {
      EncodedSlice(es, m, k);
    } else {
      EncodedSlice(es, k + 1, m);
      assert es[..k + 1] == es[..k] + [es[k]];
      EncodedConcat(es[..k], [es[k]]);
    }
  }

  lemma DamagedBracket(hash: Hash, es: seq<Record>, interval: nat, filter: Filter, k: nat, bad: seq<byte>,
                       key: seq<byte>)
    requires Ascending(es) && interval > 0 && |Encoded(es)| < TWO_TO_63 && k < |es| && |bad| == Size(es[k])
    requires Sound(filter) && MayContain(hash, filter, key)
    ensures var (m, n) := Bracket(es, interval, key);
            var t := BuiltTable(es, interval, filter).(file := DamagedFile(es, interval, filter, k, bad));
            && m <= n <= |es|
            && LookupIn(hash, t, key) == ScanFor(SliceOf(es, k, bad, m, n), key)
  {
    hide MayContain, Sound, IndexOf, Encode, Encoded, Search, ScanFor, ScanBracket, TableFile, IndexBytes, Serialized;
    hide ReadPadded, Bracket, Damaged, FooterBytes, Layout;
    var (m, n) := Bracket(es, interval, key);
    var t := BuiltTable(es, interval, filter);
    var t' := t.(file := DamagedFile(es, interval, filter, k, bad));
    BracketBytes(es, interval, filter, key);
    IndexNotEmpty(es, interval);
    var idx := Search(t.index, key, 0, |t.index|);
    var start, end := StartOf(t, idx), EndOf(t, idx);
    ScanBracketInFile(t', key, start, end);
    DamagedSlice(es, k, bad, m, n);
    DamagedFileInPlace(es, interval, filter, k, bad);
    LayoutStarts(Damaged(es, k, bad), IndexBytes(IndexOf(es, |es|, interval)), Serialized(filter), start, end);
  }

  lemma LayoutStarts(data: seq<byte>, index: seq<byte>, filter: seq<byte>, at: nat, end: nat)
    requires at <= end <= |data|
    ensures ReadPadded(Layout(data, index, filter), at, end - at) == data[at..end]
  {
    hide FooterBytes;
  }
}
