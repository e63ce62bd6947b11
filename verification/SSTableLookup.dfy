/** Looking a key up in an SSTable, and why that agrees with looking it up in the records written. */
module SSTableLookup {
  import opened Bytes
  import opened Records
  import opened OrderedMap
  import opened Wal
  import opened Bloom
  import opened SSTableFormat

  /** `Undefined` is a filter whose sizes make the lookup divide by zero or read outside its bits. */
  datatype Lookup =
    | Found(value: seq<byte>, tombstone: bool)
    | Absent
    | WrongChecksum
    | ReadFailed
    | LookupPanics
    | Undefined

  /** The position of the first index entry with a key above `key`, by bisection of `lo..hi`. */
  function Search(index: seq<IndexEntry>, key: seq<byte>, lo: nat, hi: nat): (i: nat)
    requires lo <= hi <= |index|
    ensures lo <= i <= hi
    decreases hi - lo
  {
    if lo == hi then lo
    else
      var mid := (lo + hi) / 2;
      if Less(key, index[mid].key) then Search(index, key, lo, mid) else Search(index, key, mid + 1, hi)
  }

  /** `n` bytes from `at` as they come back when reaching the end of the file is no error: zeros fill up. */
  function ReadPadded(file: seq<byte>, at: nat, n: nat): (s: seq<byte>)
    ensures |s| == n
  {
    if at >= |file| then Zeros(n)
    else if at + n <= |file| then file[at..at + n]
    else file[at..] + Zeros(at + n - |file|)
  }

  /** Read record after record until the key, a larger key, a wrong checksum or the end. */
  function ScanFor(data: seq<byte>, key: seq<byte>): Lookup
    decreases |data|
  {
    hide Parse;
    match Parse(data)
    case Torn => Absent
    case BadChecksum => WrongChecksum
    case Panics => LookupPanics
    case Parsed(r, size) =>
      if r.key == key then Found(r.value, r.tombstone)
      else if Less(key, r.key) then Absent
      else ScanFor(data[size..], key)
  }

  function StartOf(t: Table, idx: nat): nat
    requires idx <= |t.index|
  {
    if idx > 0 then t.index[idx - 1].offset else 0
  }

  function EndOf(t: Table, idx: nat): nat
    requires idx <= |t.index|
  {
    if idx < |t.index| then t.index[idx].offset else t.footer.indexOffset
  }

  /** Scan the stretch of the data block between two index entries; its length is computed in 64 bits. */
  function ScanBracket(t: Table, key: seq<byte>, start: nat, end: nat): Lookup {
    var n := (end - start) % TWO_TO_64;
    if n >= TWO_TO_63 then LookupPanics
    else if start >= TWO_TO_63 then ReadFailed
    else ScanFor(ReadPadded(t.file, start, n), key)
  }

  function LookupIn(hash: Hash, t: Table, key: seq<byte>): Lookup {
    if !Usable(t.filter) then Undefined
    else if !MayContain(hash, t.filter, key) || t.index == [] then Absent
    else
      var idx := Search(t.index, key, 0, |t.index|);
      ScanBracket(t, key, StartOf(t, idx), EndOf(t, idx))
  }

  function Answer(r: Option<Record>): Lookup {
    match r
    case None => Absent
    case Some(r) => Found(r.value, r.tombstone)
  }

  // ---------- Scanning good records ----------

  lemma SmallerThanAll(es: seq<Record>, key: seq<byte>)
    requires Ascending(es) && es != [] && Less(key, es[0].key)
    ensures Find(es, key) == None
  {
    hide Less;
    forall i | 0 <= i < |es|
      ensures es[i].key != key
    {
      LessAsymmetric(key, es[0].key);
      if i > 0 {
        LessTransitive(key, es[0].key, es[i].key);
        LessAsymmetric(key, es[i].key);
      }
    }
    FindAbsent(es, key);
  }

  /** The early stop loses nothing: scanning ordered records finds what linear lookup finds. */
  lemma {:induction false} ScanFinds(es: seq<Record>, key: seq<byte>)
    requires Ascending(es) && AllFit(es)
    ensures ScanFor(Encoded(es), key) == Answer(Find(es, key))
  {
    hide Encode, Parse, Less;
    if es == [] {
      ParseNothing();
    } else {
      var tail := Encoded(es[1..]);
      ParseEncoded(es[0], tail);
      assert (Encode(es[0]) + tail)[|Encode(es[0])|..] == tail;
      if es[0].key != key && Less(key, es[0].key) {
        SmallerThanAll(es, key);
      } else if es[0].key != key {
        ScanFinds(es[1..], key);
      }
    }
  }

  // ---------- Choosing the bracket ----------

  predicate KeysAscend(index: seq<IndexEntry>) {
    forall i, j :: 0 <= i < j < |index| ==> Less(index[i].key, index[j].key)
  }

  /** Bisection finds the boundary between the keys up to `key` and those above it. */
  lemma {:induction false} SearchBoundary(index: seq<IndexEntry>, key: seq<byte>, lo: nat, hi: nat)
    requires KeysAscend(index) && lo <= hi <= |index|
    requires forall i :: 0 <= i < lo ==> !Less(key, index[i].key)
    requires forall i :: hi <= i < |index| ==> Less(key, index[i].key)
    ensures forall i :: 0 <= i < Search(index, key, lo, hi) ==> !Less(key, index[i].key)
    ensures forall i :: Search(index, key, lo, hi) <= i < |index| ==> Less(key, index[i].key)
    decreases hi - lo
  {
    hide Less;
    if lo < hi {
      var mid := (lo + hi) / 2;
      if Less(key, index[mid].key) {
        forall i | mid <= i < |index|
          ensures Less(key, index[i].key)
        {
          if i > mid {
            LessTransitive(key, index[mid].key, index[i].key);
          }
        }
        SearchBoundary(index, key, lo, mid);
      } else {
        forall i | 0 <= i <= mid
          ensures !Less(key, index[i].key)
        {
          if i < mid && Less(key, index[i].key) {
            LessTransitive(key, index[i].key, index[mid].key);
          }
        }
        SearchBoundary(index, key, mid + 1, hi);
      }
    }
  }

  lemma InOrder(es: seq<Record>, i: nat, j: nat)
    requires Ascending(es) && i <= j < |es|
    ensures !Less(es[j].key, es[i].key)
    ensures i < j ==> Less(es[i].key, es[j].key)
  {
    hide Less;
    if i < j {
      LessAsymmetric(es[i].key, es[j].key);
    } else if Less(es[j].key, es[i].key) {
      LessAsymmetric(es[j].key, es[i].key);
    }
  }

  lemma LiesWithin(es: seq<Record>, m: nat, n: nat, i: nat)
    requires Ascending(es) && m <= n <= |es| && i < |es|
    requires m > 0 ==> m < |es| && !Less(es[i].key, es[m].key)
    requires n < |es| ==> Less(es[i].key, es[n].key)
    ensures m <= i < n
  {
    hide Less, Ascending;
    if i < m {
      InOrder(es, i, m);
    } else if n <= i {
      InOrder(es, n, i);
    }
  }

  /** A key that is at least the first and below the record after a stretch can only lie within the stretch. */
  lemma FindWithin(es: seq<Record>, m: nat, n: nat, key: seq<byte>)
    requires Ascending(es) && m <= n <= |es|
    requires m > 0 ==> m < |es| && !Less(key, es[m].key)
    requires n < |es| ==> Less(key, es[n].key)
    ensures Find(es, key) == Find(es[m..n], key)
  {
    hide Less, Ascending, Find;
    var seg := es[m..n];
    SliceAscending(es, m, n);
    if Find(es, key).Some? {
      var i :| 0 <= i < |es| && es[i] == Find(es, key).value;
      LiesWithin(es, m, n, i);
      FindAt(seg, i - m);
    } else {
      forall i | 0 <= i < |seg|
        ensures seg[i].key != key
      {
        FindAt(es, m + i);
      }
      FindAbsent(seg, key);
    }
  }

  lemma SliceAscending(es: seq<Record>, m: nat, n: nat)
    requires Ascending(es) && m <= n <= |es|
    ensures Ascending(es[m..n])
  {
  }

  // ---------- A built table ----------

  function Keys(es: seq<Record>): (ks: seq<seq<byte>>)
    ensures |ks| == |es| && forall i :: 0 <= i < |es| ==> ks[i] == es[i].key
  {
    if es == [] then [] else Keys(es[..|es| - 1]) + [es[|es| - 1].key]
  }

  /** The table that building a file from `es` and opening it again gives. */
  function BuiltTable(es: seq<Record>, interval: nat, filter: Filter): Table
    requires interval > 0
  {
    var index := IndexOf(es, |es|, interval);
    Table(TableFile(es, interval, filter),
          FooterFor(|Encoded(es)|, |IndexBytes(index)|, |Serialized(filter)|), index, filter)
  }

  /** The number of the record a bracket starts, respectively ends, at. */
  function MarkOr(marks: seq<nat>, idx: int, default: nat): nat {
    if 0 <= idx < |marks| then marks[idx] else default
  }

  /** The records between the index entries around `key`. */
  function Bracket(es: seq<Record>, interval: nat, key: seq<byte>): (b: (nat, nat))
    requires interval > 0
  {
    var index, marks := IndexOf(es, |es|, interval), Marks(|es|, interval);
    var idx := Search(index, key, 0, |index|);
    (MarkOr(marks, idx - 1, 0), MarkOr(marks, idx, |es|))
  }

  lemma IndexAscends(es: seq<Record>, interval: nat)
    requires Ascending(es) && interval > 0
    ensures KeysAscend(IndexOf(es, |es|, interval))
  {
    hide IndexOf, Marks, Encoded, Less;
    IndexAtMarks(es, |es|, interval);
    MarksExact(|es|, interval);
  }

  lemma BracketBounds(es: seq<Record>, interval: nat, key: seq<byte>)
    requires Ascending(es) && interval > 0 && es != []
    ensures var (m, n) := Bracket(es, interval, key);
            && m <= n <= |es|
            && (m > 0 ==> m < |es| && !Less(key, es[m].key))
            && (n < |es| ==> Less(key, es[n].key))
  {
    hide IndexOf, Marks, Encoded, Less, Search;
    var index, marks := IndexOf(es, |es|, interval), Marks(|es|, interval);
    IndexAtMarks(es, |es|, interval);
    MarksExact(|es|, interval);
    IndexAscends(es, interval);
    SearchBoundary(index, key, 0, |index|);
    var idx := Search(index, key, 0, |index|);
    if idx > 0 {
      assert !Less(key, index[idx - 1].key);
    }
    if idx < |index| {
      assert Less(key, index[idx].key);
    }
  }

  lemma EncodedSlice(es: seq<Record>, m: nat, n: nat)
    requires m <= n <= |es|
    ensures |Encoded(es[..m])| <= |Encoded(es[..n])| <= |Encoded(es)|
    ensures Encoded(es)[|Encoded(es[..m])|..|Encoded(es[..n])|] == Encoded(es[m..n])
  {
    hide Encoded;
    EncodedConcat(es[..m], es[m..n]);
    assert es[..m] + es[m..n] == es[..n];
    EncodedConcat(es[..n], es[n..]);
    assert es[..n] + es[n..] == es;
  }

  /** The bytes a lookup reads are the encodings of the records in the bracket. */
  lemma BracketBytes(es: seq<Record>, interval: nat, filter: Filter, key: seq<byte>)
    requires Ascending(es) && interval > 0 && es != []
    ensures var (m, n) := Bracket(es, interval, key);
            var t := BuiltTable(es, interval, filter);
            var idx := Search(t.index, key, 0, |t.index|);
            && m <= n <= |es|
            && StartOf(t, idx) == |Encoded(es[..m])|
            && EndOf(t, idx) == |Encoded(es[..n])|
            && StartOf(t, idx) <= EndOf(t, idx) <= |Encoded(es)|
  {
    hide IndexOf, Marks, Encoded, Less, Search, IndexBytes, Serialized, FooterBytes;
    var (m, n) := Bracket(es, interval, key);
    BracketBounds(es, interval, key);
    IndexAtMarks(es, |es|, interval);
    MarksExact(|es|, interval);
    EncodedSlice(es, m, n);
    assert es[..|es|] == es;
    assert es[..0] == [];
    NothingEncoded();
  }

  lemma FileStartsWithData(es: seq<Record>, interval: nat, filter: Filter, at: nat, end: nat)
    requires interval > 0 && at <= end <= |Encoded(es)|
    ensures ReadPadded(TableFile(es, interval, filter), at, end - at) == Encoded(es)[at..end]
  {
    hide IndexOf, Encoded, IndexBytes, Serialized, FooterBytes;
  }

  /**
   * Refinement: for every ordered list of records, every interval and every key, building a table, opening it and
   * looking the key up through filter, index, bracket and early stop gives what a linear lookup gives.
   */
  lemma LookupRefinesFind(hash: Hash, es: seq<Record>, interval: nat, numBits: nat, numHashes: nat, key: seq<byte>)
    requires Ascending(es) && AllFit(es) && interval > 0 && numBits > 0
    requires |Encoded(es)| < TWO_TO_63
    ensures LookupIn(hash, BuiltTable(es, interval, FilterOf(hash, numBits, numHashes, Keys(es))), key) ==
            Answer(Find(es, key))
  {
    hide *;
    var filter := FilterOf(hash, numBits, numHashes, Keys(es));
    if !MayContain(hash, filter, key) {
      FilteredOut(hash, es, numBits, numHashes, key);
      LookupFiltered(hash, es, interval, filter, key);
    } else if es == [] {
      LookupInNothing(hash, interval, filter, key);
    } else {
      var (m, n) := Bracket(es, interval, key);
      BracketBounds(es, interval, key);
      LookupInBracket(hash, es, interval, filter, key);
      SliceAscending(es, m, n);
      SliceFits(es, m, n);
      ScanFinds(es[m..n], key);
      FindWithin(es, m, n, key);
    }
  }

  lemma SliceFits(es: seq<Record>, m: nat, n: nat)
    requires AllFit(es) && m <= n <= |es|
    ensures AllFit(es[m..n])
  {
  }

  lemma FilteredOut(hash: Hash, es: seq<Record>, numBits: nat, numHashes: nat, key: seq<byte>)
    requires numBits > 0 && !MayContain(hash, FilterOf(hash, numBits, numHashes, Keys(es)), key)
    ensures Find(es, key) == None
  {
    hide MayContain, FilterOf, Keys;
    forall i | 0 <= i < |es|
      ensures es[i].key != key
    {
      NoFalseNegatives(hash, numBits, numHashes, Keys(es), i);
    }
    FindAbsent(es, key);
  }

  lemma LookupFiltered(hash: Hash, es: seq<Record>, interval: nat, filter: Filter, key: seq<byte>)
    requires interval > 0 && Sound(filter) && !MayContain(hash, filter, key)
    ensures LookupIn(hash, BuiltTable(es, interval, filter), key) == Answer(None)
  {
    hide MayContain, Sound, IndexOf, TableFile;
  }

  lemma LookupInNothing(hash: Hash, interval: nat, filter: Filter, key: seq<byte>)
    requires interval > 0 && Sound(filter)
    ensures LookupIn(hash, BuiltTable([], interval, filter), key) == Answer(Find([], key))
  {
  }

  lemma ScanBracketInFile(t: Table, key: seq<byte>, start: nat, end: nat)
    requires start <= end < TWO_TO_63
    ensures ScanBracket(t, key, start, end) == ScanFor(ReadPadded(t.file, start, end - start), key)
  {
    hide ScanFor, ReadPadded;
  }

  /** A lookup the filter lets through scans exactly its bracket. */
  lemma LookupInBracket(hash: Hash, es: seq<Record>, interval: nat, filter: Filter, key: seq<byte>)
    requires Ascending(es) && interval > 0 && es != [] && |Encoded(es)| < TWO_TO_63
    requires Sound(filter) && MayContain(hash, filter, key)
    ensures var (m, n) := Bracket(es, interval, key);
            m <= n <= |es| && LookupIn(hash, BuiltTable(es, interval, filter), key) == ScanFor(Encoded(es[m..n]), key)
  {
    hide MayContain, Sound, IndexOf, Encoded, Search, ScanFor, ScanBracket, TableFile, IndexBytes, Serialized;
    hide ReadPadded, Bracket;
    var (m, n) := Bracket(es, interval, key);
    var t := BuiltTable(es, interval, filter);
    BracketBytes(es, interval, filter, key);
    IndexNotEmpty(es, interval);
    var idx := Search(t.index, key, 0, |t.index|);
    var start, end := StartOf(t, idx), EndOf(t, idx);
    ScanBracketInFile(t, key, start, end);
    FileStartsWithData(es, interval, filter, start, end);
    EncodedSlice(es, m, n);
  }

  lemma IndexNotEmpty(es: seq<Record>, interval: nat)
    requires interval > 0 && es != []
    ensures IndexOf(es, |es|, interval) != []
  {
    IndexAtMarks(es, |es|, interval);
    MarksExact(|es|, interval);
  }

  /** The same through the file: what was built opens, and the opened table answers like the records written. */
  lemma BuildOpenLookup(hash: Hash, es: seq<Record>, interval: nat, numBits: nat, numHashes: nat, key: seq<byte>)
    requires Ascending(es) && AllFit(es) && interval > 0 && numBits > 0
    requires Serializable(FilterOf(hash, numBits, numHashes, Keys(es)))
    requires |TableFile(es, interval, FilterOf(hash, numBits, numHashes, Keys(es)))| < TWO_TO_63
    ensures var opening := OpenFile(TableFile(es, interval, FilterOf(hash, numBits, numHashes, Keys(es))));
            opening.Opened? && LookupIn(hash, opening.table, key) == Answer(Find(es, key))
  {
    hide OpenFile, LookupIn, FilterOf, Encoded, IndexBytes, Serialized, FooterBytes, Ascending, AllFit, Find, Serializable;
    OpenBuilt(es, interval, FilterOf(hash, numBits, numHashes, Keys(es)));
    LookupRefinesFind(hash, es, interval, numBits, numHashes, key);
  }
}
