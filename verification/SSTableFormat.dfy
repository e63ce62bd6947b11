/** The layout of an SSTable file: data block, sparse index, filter, footer (pkg/storage/sstable.go). */
module SSTableFormat {
  import opened Bytes
  import opened Records
  import opened OrderedMap
  import opened Wal
  import opened Bloom

  const FOOTER_SIZE := 32
  const TWO_TO_63 := 0x8000_0000_0000_0000

  datatype IndexEntry = IndexEntry(key: seq<byte>, offset: nat)

  datatype Footer = Footer(indexOffset: nat, indexLen: nat, filterOffset: nat, filterLen: nat)

  // ---------- The sparse index ----------

  /** The index over the first `n` records: every `interval`-th one with its offset in the data block. */
  function IndexOf(es: seq<Record>, n: nat, interval: nat): seq<IndexEntry>
    requires n <= |es| && interval > 0
  {
    if n == 0 then []
    else
      var front := IndexOf(es, n - 1, interval);
      if (n - 1) % interval == 0 then front + [EntryFor(es, n - 1)] else front
  }

  function EntryFor(es: seq<Record>, m: nat): IndexEntry
    requires m < |es|
  {
    IndexEntry(es[m].key, |Encoded(es[..m])|)
  }

  /** The positions below `n` that are indexed. */
  function Marks(n: nat, interval: nat): seq<nat>
    requires interval > 0
  {
    if n == 0 then []
    else if (n - 1) % interval == 0 then Marks(n - 1, interval) + [n - 1]
    else Marks(n - 1, interval)
  }

  lemma {:induction false} MarksExact(n: nat, interval: nat)
    requires interval > 0
    ensures forall i, j :: 0 <= i < j < |Marks(n, interval)| ==> Marks(n, interval)[i] < Marks(n, interval)[j]
    ensures forall i :: 0 <= i < |Marks(n, interval)| ==>
              Marks(n, interval)[i] < n && Marks(n, interval)[i] % interval == 0
    ensures forall m :: 0 <= m < n && m % interval == 0 ==> m in Marks(n, interval)
    ensures n > 0 ==> |Marks(n, interval)| > 0 && Marks(n, interval)[0] == 0
  {
    if n > 0 {
      MarksExact(n - 1, interval);
    }
  }

  /** The index holds exactly the records at the marks. */
  lemma {:induction false} IndexAtMarks(es: seq<Record>, n: nat, interval: nat)
    requires n <= |es| && interval > 0
    ensures |IndexOf(es, n, interval)| == |Marks(n, interval)|
    ensures forall i :: 0 <= i < |Marks(n, interval)| ==>
              Marks(n, interval)[i] < n && IndexOf(es, n, interval)[i] == EntryFor(es, Marks(n, interval)[i])
  {
    hide EntryFor;
    if n > 0 {
      IndexAtMarks(es, n - 1, interval);
    }
  }

  function IndexBytes(index: seq<IndexEntry>): seq<byte> {
    if index == [] then []
    else PutBE(|index[0].key|, 4) + index[0].key + PutBE(index[0].offset, 8) + IndexBytes(index[1..])
  }

  /** One entry after the other; fewer than four bytes left over are ignored. */
  function ParseIndex(data: seq<byte>): Option<seq<IndexEntry>>
    decreases |data|
  {
    if |data| < 4 then Some([])
    else
      var keyLen := GetBE(data[..4]);
      if |data| < 12 + keyLen then None
      else
        var rest := ParseIndex(data[12 + keyLen..]);
        if rest == None then None
        else Some([IndexEntry(data[4..4 + keyLen], GetBE(data[4 + keyLen..12 + keyLen]))] + rest.value)
  }

  predicate IndexFits(index: seq<IndexEntry>) {
    forall i :: 0 <= i < |index| ==> |index[i].key| < TWO_TO_32 && index[i].offset < TWO_TO_64
  }

  lemma {:induction false} IndexRoundTrip(index: seq<IndexEntry>)
    requires IndexFits(index)
    ensures ParseIndex(IndexBytes(index)) == Some(index)
  {
    hide PutBE, GetBE;
    if index != [] {
      var e, data := index[0], IndexBytes(index);
      Width4();
      Width8();
      BigEndianRoundTrip(|e.key|, 4);
      BigEndianRoundTrip(e.offset, 8);
      assert data[..4] == PutBE(|e.key|, 4);
      assert data[4..4 + |e.key|] == e.key;
      assert data[4 + |e.key|..12 + |e.key|] == PutBE(e.offset, 8);
      assert data[12 + |e.key|..] == IndexBytes(index[1..]);
      IndexRoundTrip(index[1..]);
      assert [e] + index[1..] == index;
    }
  }

  /** How many entries lie wholly within the first `cut` bytes of their index. */
  function EntriesBefore(index: seq<IndexEntry>, cut: nat): (k: nat)
    ensures k <= |index|
  {
    if index == [] || cut < 12 + |index[0].key| then 0 else 1 + EntriesBefore(index[1..], cut - 12 - |index[0].key|)
  }

  /** An index that is cut anywhere: up to three bytes behind whole entries are ignored, four or more are refused. */
  lemma {:induction false} IndexCut(index: seq<IndexEntry>, cut: nat)
    requires IndexFits(index) && cut <= |IndexBytes(index)|
    ensures var k := EntriesBefore(index, cut); var whole := |IndexBytes(index[..k])|;
            && whole <= cut
            && ParseIndex(IndexBytes(index)[..cut]) == if cut - whole < 4 then Some(index[..k]) else None
  {
    hide PutBE, GetBE;
    if index == [] {
      assert IndexBytes(index)[..cut] == [];
    } else {
      var e, data := index[0], IndexBytes(index)[..cut];
      var size := 12 + |e.key|;
      FirstEntryBytes(index);
      if cut < size {
        assert index[..0] == [];
        if cut >= 4 {
          assert data[..4] == IndexBytes(index)[0..4];
        }
      } else {
        var rest := IndexBytes(index[1..]);
        var k := EntriesBefore(index[1..], cut - size);
        IndexCut(index[1..], cut - size);
        assert IndexBytes(index)[size..] == rest;
        assert data[size..] == rest[..cut - size];
        assert data[..4] == IndexBytes(index)[0..4] && data[4..4 + |e.key|] == e.key;
        assert data[4 + |e.key|..size] == IndexBytes(index)[4 + |e.key|..size];
        assert index[..k + 1][1..] == index[1..][..k];
        assert [e] + index[1..][..k] == index[..k + 1];
      }
    }
  }

  // ---------- The footer ----------

  function FooterBytes(f: Footer): (s: seq<byte>)
    ensures |s| == FOOTER_SIZE
  {
    PutBE(f.indexOffset, 8) + PutBE(f.indexLen, 8) + PutBE(f.filterOffset, 8) + PutBE(f.filterLen, 8)
  }

  function FooterOf(s: seq<byte>): Footer
    requires |s| == FOOTER_SIZE
  {
    Footer(GetBE(s[..8]), GetBE(s[8..16]), GetBE(s[16..24]), GetBE(s[24..]))
  }

  lemma FooterRoundTrip(f: Footer)
    requires f.indexOffset < TWO_TO_64 && f.indexLen < TWO_TO_64 && f.filterOffset < TWO_TO_64 && f.filterLen < TWO_TO_64
    ensures FooterOf(FooterBytes(f)) == f
  {
    hide PutBE, GetBE;
    var s := FooterBytes(f);
    Width8();
    BigEndianRoundTrip(f.indexOffset, 8);
    BigEndianRoundTrip(f.indexLen, 8);
    BigEndianRoundTrip(f.filterOffset, 8);
    BigEndianRoundTrip(f.filterLen, 8);
    assert s[..8] == PutBE(f.indexOffset, 8) && s[8..16] == PutBE(f.indexLen, 8);
    assert s[16..24] == PutBE(f.filterOffset, 8) && s[24..] == PutBE(f.filterLen, 8);
  }

  // ---------- The whole file ----------

  function FooterFor(data: nat, index: nat, filter: nat): Footer {
    Footer(data, index, data + index, filter)
  }

  /** The file that data block, index and filter make up. */
  function Layout(data: seq<byte>, index: seq<byte>, filter: seq<byte>): (file: seq<byte>)
    ensures |file| == |data| + |index| + |filter| + FOOTER_SIZE
  {
    data + index + filter + FooterBytes(FooterFor(|data|, |index|, |filter|))
  }

  function TableFile(es: seq<Record>, interval: nat, filter: Filter): seq<byte>
    requires interval > 0
  {
    Layout(Encoded(es), IndexBytes(IndexOf(es, |es|, interval)), Serialized(filter))
  }

  /** What a reader keeps of a file. */
  datatype Table = Table(file: seq<byte>, footer: Footer, index: seq<IndexEntry>, filter: Filter)

  datatype OpenError = CorruptedLayout | ReadError | BadFilter | OpenPanics

  datatype Opening = Opened(table: Table) | Failed(error: OpenError)

  /** `n` bytes from `at`; a range that does not lie within the file is an error. */
  function ReadExact(file: seq<byte>, at: nat, n: nat): Option<seq<byte>> {
    if at >= TWO_TO_63 then None
    else if n == 0 then Some([])
    else if at + n <= |file| then Some(file[at..at + n])
    else None
  }

  function OpenFile(file: seq<byte>): Opening {
    if |file| < FOOTER_SIZE then Failed(CorruptedLayout)
    else
      var footer := FooterOf(file[|file| - FOOTER_SIZE..]);
      if footer.indexLen >= TWO_TO_63 then Failed(OpenPanics)
      else
        var indexBytes := ReadExact(file, footer.indexOffset, footer.indexLen);
        if indexBytes == None then Failed(ReadError)
        else
          var index := ParseIndex(indexBytes.value);
          if index == None then Failed(CorruptedLayout)
          else OpenFilter(file, footer, index.value)
  }

  /** An empty filter block has no first byte to point at. */
  function OpenFilter(file: seq<byte>, footer: Footer, index: seq<IndexEntry>): Opening {
    if footer.filterLen >= TWO_TO_63 then Failed(OpenPanics)
    else
      var filterBytes := ReadExact(file, footer.filterOffset, footer.filterLen);
      if filterBytes == None then Failed(ReadError)
      else if filterBytes.value == [] then Failed(OpenPanics)
      else
        var filter := Deserialized(filterBytes.value);
        if filter == None then Failed(BadFilter) else Opened(Table(file, footer, index, filter.value))
  }

  /** The bytes from `at` on lie within the file; an empty range need only start where a file can. */
  predicate Within(file: seq<byte>, at: nat, n: nat) {
    at < TWO_TO_63 && (n == 0 || at + n <= |file|)
  }

  /** What opening makes of any file: which of its parts stops it first, or what it reads. */
  lemma OpenReports(file: seq<byte>)
    ensures |file| < 32 ==> OpenFile(file) == Failed(CorruptedLayout)
    ensures |file| >= 32 ==>
      var end := |file| - 32;
      var at, n := GetBE(file[end..end + 8]), GetBE(file[end + 8..end + 16]);
      var at', n' := GetBE(file[end + 16..end + 24]), GetBE(file[end + 24..]);
      if n >= TWO_TO_63 then OpenFile(file) == Failed(OpenPanics)
      else if !Within(file, at, n) then OpenFile(file) == Failed(ReadError)
      else
        var index := ParseIndex(if n == 0 then [] else file[at..at + n]);
        if index == None then OpenFile(file) == Failed(CorruptedLayout)
        else if n' >= TWO_TO_63 then OpenFile(file) == Failed(OpenPanics)
        else if !Within(file, at', n') then OpenFile(file) == Failed(ReadError)
        else if n' == 0 then OpenFile(file) == Failed(OpenPanics)
        else
          var filter := Deserialized(file[at'..at' + n']);
          OpenFile(file) == if filter == None then Failed(BadFilter)
                            else Opened(Table(file, Footer(at, n, at', n'), index.value, filter.value))
  {
    hide GetBE, ParseIndex, Deserialized;
    if |file| >= 32 {
      var end, footer := |file| - 32, file[|file| - 32..];
      assert footer[..8] == file[end..end + 8] && footer[8..16] == file[end + 8..end + 16];
      assert footer[16..24] == file[end + 16..end + 24] && footer[24..] == file[end + 24..];
    }
  }

  lemma LayoutParts(data: seq<byte>, index: seq<byte>, filter: seq<byte>)
    requires |Layout(data, index, filter)| < TWO_TO_63
    ensures var file := Layout(data, index, filter);
            && FooterOf(file[|file| - FOOTER_SIZE..]) == FooterFor(|data|, |index|, |filter|)
            && ReadExact(file, |data|, |index|) == Some(index)
            && ReadExact(file, |data| + |index|, |filter|) == Some(filter)
  {
    hide FooterBytes, FooterOf;
    var file := Layout(data, index, filter);
    var footer := FooterFor(|data|, |index|, |filter|);
    assert file[|file| - FOOTER_SIZE..] == FooterBytes(footer);
    FooterRoundTrip(footer);
    assert file[|data|..|data| + |index|] == index;
    assert file[|data| + |index|..|data| + |index| + |filter|] == filter;
  }

  /**
   * What lies where in a table file: the records, the index, the filter, and in the last 32 bytes where index and
   * filter start and how long they are.
   */
  lemma FileBytes(es: seq<Record>, interval: nat, filter: Filter)
    requires interval > 0 && |TableFile(es, interval, filter)| < TWO_TO_63
    ensures var file := TableFile(es, interval, filter);
            var data, index := |Encoded(es)|, |IndexBytes(IndexOf(es, |es|, interval))|;
            var end := |file| - 32;
            && end == data + index + |Serialized(filter)|
            && file[..data] == Encoded(es)
            && file[data..data + index] == IndexBytes(IndexOf(es, |es|, interval))
            && file[data + index..end] == Serialized(filter)
            && GetBE(file[end..end + 8]) == data && GetBE(file[end + 8..end + 16]) == index
            && GetBE(file[end + 16..end + 24]) == data + index && GetBE(file[end + 24..]) == |Serialized(filter)|
  {
    hide Encoded, IndexOf, IndexBytes, Serialized, GetBE, FooterBytes;
    var file := TableFile(es, interval, filter);
    LayoutParts(Encoded(es), IndexBytes(IndexOf(es, |es|, interval)), Serialized(filter));
    var end, footer := |file| - 32, file[|file| - 32..];
    assert footer[..8] == file[end..end + 8] && footer[8..16] == file[end + 8..end + 16];
    assert footer[16..24] == file[end + 16..end + 24] && footer[24..] == file[end + 24..];
  }

  /** What lies where in an index: behind the entries before it, key length, key and offset of an entry. */
  lemma {:induction false} IndexEntryBytes(index: seq<IndexEntry>, i: nat)
    requires IndexFits(index) && i < |index|
    ensures var buf, at, e := IndexBytes(index), |IndexBytes(index[..i])|, index[i];
            && at + 12 + |e.key| <= |buf|
            && GetBE(buf[at..at + 4]) == |e.key| && buf[at + 4..at + 4 + |e.key|] == e.key
            && GetBE(buf[at + 4 + |e.key|..at + 12 + |e.key|]) == e.offset
  {
    hide PutBE, GetBE;
    if i == 0 {
      assert index[..0] == [];
      FirstEntryBytes(index);
    } else {
      var first := 12 + |index[0].key|;
      IndexEntryBytes(index[1..], i - 1);
      assert index[..i][1..] == index[1..][..i - 1];
      var buf, rest, at, n := IndexBytes(index), IndexBytes(index[1..]), |IndexBytes(index[1..][..i - 1])|, |index[i].key|;
      assert |IndexBytes(index[..i])| == first + at;
      assert buf[first..] == rest;
      Shifted(buf, rest, first, at, at + 4);
      Shifted(buf, rest, first, at + 4, at + 4 + n);
      Shifted(buf, rest, first, at + 4 + n, at + 12 + n);
    }
  }

  lemma FirstEntryBytes(index: seq<IndexEntry>)
    requires IndexFits(index) && index != []
    ensures var buf, e := IndexBytes(index), index[0];
            && 12 + |e.key| <= |buf|
            && GetBE(buf[0..4]) == |e.key| && buf[4..4 + |e.key|] == e.key
            && GetBE(buf[4 + |e.key|..12 + |e.key|]) == e.offset
  {
    hide PutBE, GetBE;
    var e, buf := index[0], IndexBytes(index);
    Width4();
    Width8();
    BigEndianRoundTrip(|e.key|, 4);
    BigEndianRoundTrip(e.offset, 8);
    assert buf[0..4] == PutBE(|e.key|, 4) && buf[4 + |e.key|..12 + |e.key|] == PutBE(e.offset, 8);
  }

  lemma Shifted(buf: seq<byte>, rest: seq<byte>, first: nat, i: nat, j: nat)
    requires first <= |buf| && buf[first..] == rest && i <= j <= |rest|
    ensures buf[first + i..first + j] == rest[i..j]
  {
    assert buf[first..][i..j] == buf[first + i..first + j];
  }

  lemma IndexOfFits(es: seq<Record>, interval: nat)
    requires interval > 0 && AllFit(es) && |Encoded(es)| < TWO_TO_64
    ensures IndexFits(IndexOf(es, |es|, interval))
  {
    hide Encode, Encoded, IndexOf, Marks;
    IndexAtMarks(es, |es|, interval);
    var marks := Marks(|es|, interval);
    forall i | 0 <= i < |marks|
      ensures |EntryFor(es, marks[i]).key| < TWO_TO_32 && EntryFor(es, marks[i]).offset < TWO_TO_64
    {
      assert Fits(es[marks[i]]);
      EncodedConcat(es[..marks[i]], es[marks[i]..]);
      assert es == es[..marks[i]] + es[marks[i]..];
    }
  }

  /** Opening a built file gives back its index and filter. */
  lemma OpenBuilt(es: seq<Record>, interval: nat, filter: Filter)
    requires interval > 0 && AllFit(es) && Serializable(filter)
    requires |TableFile(es, interval, filter)| < TWO_TO_63
    ensures var file := TableFile(es, interval, filter);
            var index := IndexOf(es, |es|, interval);
            var footer := FooterFor(|Encoded(es)|, |IndexBytes(index)|, |Serialized(filter)|);
            OpenFile(file) == Opened(Table(file, footer, index, filter))
  {
    hide Encoded, IndexOf, IndexBytes, ParseIndex, Serialized, Deserialized, FooterOf, ReadExact, AllFit, IndexFits;
    var index := IndexOf(es, |es|, interval);
    LayoutParts(Encoded(es), IndexBytes(index), Serialized(filter));
    IndexOfFits(es, interval);
    IndexRoundTrip(index);
    FilterRoundTrip(filter, []);
    assert Serialized(filter) + [] == Serialized(filter);
  }
}
