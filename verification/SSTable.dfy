/** Building, opening and reading SSTable files (pkg/storage/sstable.go). */
module SSTables {
  import opened Bytes
  import opened Records
  import opened OrderedMap
  import opened Wal
  import opened Bloom
  import opened MemTables
  import opened SSTableFormat
  import opened SSTableLookup

  const DEFAULT_INDEX_INTERVAL := 8

  class SSTableReader {
    const file: seq<byte>
    const footer: Footer
    const index: seq<IndexEntry>
    /** Freed and cleared on closing. */
    var bloom: LumaflyBloom?

    constructor (file: seq<byte>, footer: Footer, index: seq<IndexEntry>, bloom: LumaflyBloom)
      ensures this.file == file && this.footer == footer && this.index == index && this.bloom == bloom
    {
      this.file, this.footer, this.index, this.bloom := file, footer, index, bloom;
    }

    ghost function AsTable(): Table
      requires bloom != null
      reads this, bloom.bits
    {
      Table(file, footer, index, bloom.State())
    }

    /** Bisect the index for the first entry above `key`. */
    method SearchIndex(key: seq<byte>) returns (idx: nat)
      ensures idx == Search(index, key, 0, |index|) && idx <= |index|
    {
      var lo, hi := 0, |index|;
      while lo < hi
        invariant 0 <= lo <= hi <= |index| && Search(index, key, lo, hi) == Search(index, key, 0, |index|)
      {
        var mid := (lo + hi) / 2;
        if Less(key, index[mid].key) {
          hi := mid;
        } else {
          lo := mid + 1;
        }
      }
      idx := lo;
    }

    /** Ask the filter, find the bracket, read it and scan it. After closing, every key is absent. */
    method Get(hash: Hash, key: seq<byte>) returns (r: Lookup)
      ensures bloom == null ==> r == Absent
      ensures bloom != null ==> r == LookupIn(hash, AsTable(), key)
    {
      hide Search, ScanFor, MayContain, ReadPadded;
      if bloom == null {
        return Absent;
      }
      if bloom.numHashes > 0 && (bloom.numBits == 0 || bloom.bits.Length != (bloom.numBits + 7) / 8) {
        return Undefined;
      }
      var contained := bloom.Contains(hash, key);
      if !contained || |index| == 0 {
        return Absent;
      }
      var idx := SearchIndex(key);
      var startOffset := 0;
      var endOffset := footer.indexOffset;
      if idx > 0 {
        startOffset := index[idx - 1].offset;
      }
      if idx < |index| {
        endOffset := index[idx].offset;
      }
      var scanLen := (endOffset - startOffset) % TWO_TO_64;
      if scanLen >= TWO_TO_63 {
        return LookupPanics;
      }
      if startOffset >= TWO_TO_63 {
        return ReadFailed;
      }
      r := ScanData(ReadPadded(file, startOffset, scanLen), key);
    }

    /** Free the filter and let go of the file. */
    method Close()
      modifies this
      ensures bloom == null
    {
      bloom := null;
    }
  }

  /** Scan records one by one, checking each checksum, until the key is found or passed. */
  method ScanData(data: seq<byte>, key: seq<byte>) returns (r: Lookup)
    ensures r == ScanFor(data, key)
  {
    hide Parse, Less;
    var at := 0;
    while at < |data|
      invariant 0 <= at <= |data| && ScanFor(data[at..], key) == ScanFor(data, key)
    {
      var p := ReadRecord(data, at);
      match p {
        case Torn =>
          return Absent;
        case BadChecksum =>
          return WrongChecksum;
        case Panics =>
          return LookupPanics;
        case Parsed(record, size) =>
          if record.key == key {
            return Found(record.value, record.tombstone);
          }
          if Less(key, record.key) {
            return Absent;
          }
          assert data[at..][size..] == data[at + size..];
          at := at + size;
      }
    }
    assert data[at..] == [];
    ParseNothing();
    return Absent;
  }

  // ---------- Opening ----------

  ghost function Prepend(front: seq<IndexEntry>, back: Option<seq<IndexEntry>>): Option<seq<IndexEntry>> {
    if back == None then None else Some(front + back.value)
  }

  lemma PrependNothing(back: Option<seq<IndexEntry>>)
    ensures Prepend([], back) == back
  {
    if back.Some? {
      assert [] + back.value == back.value;
    }
  }

  lemma PrependNext(front: seq<IndexEntry>, e: IndexEntry, back: Option<seq<IndexEntry>>)
    ensures Prepend(front + [e], back) == Prepend(front, Prepend([e], back))
  {
    if back.Some? {
      assert front + [e] + back.value == front + ([e] + back.value);
    }
  }

  lemma SliceOfRest(data: seq<byte>, at: nat, i: nat, j: nat)
    requires i <= j && at + j <= |data|
    ensures data[at..][i..j] == data[at + i..at + j]
  {
  }

  /** Read index entries off the index block. */
  method ReadIndex(data: seq<byte>) returns (index: Option<seq<IndexEntry>>)
    ensures index == ParseIndex(data)
  {
    hide GetBE;
    var entries: seq<IndexEntry> := [];
    var at := 0;
    assert data[0..] == data;
    PrependNothing(ParseIndex(data));
    while at < |data|
      invariant 0 <= at <= |data|
      invariant ParseIndex(data) == Prepend(entries, ParseIndex(data[at..]))
    {
      if |data| - at < 4 {
        break;
      }
      var keyLen := GetBE(data[at..at + 4]);
      SliceOfRest(data, at, 0, 4);
      if |data| - at - 4 < keyLen {
        return None;
      }
      var key := data[at + 4..at + 4 + keyLen];
      SliceOfRest(data, at, 4, 4 + keyLen);
      if |data| - at - 4 - keyLen < 8 {
        return None;
      }
      var offset := GetBE(data[at + 4 + keyLen..at + 12 + keyLen]);
      SliceOfRest(data, at, 4 + keyLen, 12 + keyLen);
      assert data[at..][12 + keyLen..] == data[at + 12 + keyLen..];
      PrependNext(entries, IndexEntry(key, offset), ParseIndex(data[at + 12 + keyLen..]));
      entries := entries + [IndexEntry(key, offset)];
      at := at + 12 + keyLen;
    }
    assert entries + [] == entries;
    index := Some(entries);
  }

  method OpenSSTable(file: seq<byte>) returns (reader: SSTableReader?, error: Option<OpenError>)
    ensures match OpenFile(file)
            case Failed(e) => reader == null && error == Some(e)
            case Opened(t) =>
              error == None && reader != null && fresh(reader) && reader.bloom != null && fresh(reader.bloom.bits)
              && reader.AsTable() == t
  {
    hide FooterOf, ParseIndex, Deserialized, ReadExact;
    if |file| < FOOTER_SIZE {
      return null, Some(CorruptedLayout);
    }
    var footer := FooterOf(file[|file| - FOOTER_SIZE..]);
    if footer.indexLen >= TWO_TO_63 {
      return null, Some(OpenPanics);
    }
    var indexBytes := ReadExact(file, footer.indexOffset, footer.indexLen);
    if indexBytes == None {
      return null, Some(ReadError);
    }
    var index := ReadIndex(indexBytes.value);
    if index == None {
      return null, Some(CorruptedLayout);
    }
    if footer.filterLen >= TWO_TO_63 {
      return null, Some(OpenPanics);
    }
    var filterBytes := ReadExact(file, footer.filterOffset, footer.filterLen);
    if filterBytes == None {
      return null, Some(ReadError);
    }
    if |filterBytes.value| == 0 {
      return null, Some(OpenPanics);
    }
    var bloom := Deserialize(filterBytes.value);
    if bloom == null {
      return null, Some(BadFilter);
    }
    reader := new SSTableReader(file, footer, index.value, bloom);
    error := None;
  }

  // ---------- Building ----------

  /** The filter a table over `es` carries. */
  function FilterFor(hash: Hash, numBits: nat, numHashes: nat, es: seq<Record>): (f: Filter)
    ensures Sound(f)
  {
    FilterOf(hash, if numBits < 64 then 64 else numBits, if numHashes < 1 then 1 else numHashes, Keys(es))
  }

  /** One more record on the data block, the index and the filter. */
  lemma OneMore(hash: Hash, numBits: nat, numHashes: nat, es: seq<Record>, n: nat)
    requires n < |es|
    ensures Encoded(es[..n + 1]) == Encoded(es[..n]) + Encode(es[n])
    ensures FilterFor(hash, numBits, numHashes, es[..n + 1]) ==
            Added(hash, FilterFor(hash, numBits, numHashes, es[..n]), es[n].key)
  {
    hide Encode, Adding;
    EncodedConcat(es[..n], [es[n]]);
    assert es[..n + 1] == es[..n] + [es[n]];
    assert es[..n + 1][..n] == es[..n];
    var keys := Keys(es[..n + 1]);
    assert keys[..|keys| - 1] == Keys(es[..n]);
  }

  /** Setting bits of a filter leaves a table as it is. */
  method AddKey(it: Iterator, hash: Hash, bloom: LumaflyBloom, key: seq<byte>)
    requires it.Valid() && Sound(bloom.State())
    modifies bloom.bits
    ensures it.Valid() && it.table.Entries() == old(it.table.Entries())
    ensures bloom.State() == Added(hash, old(bloom.State()), key)
  {
    hide Added, Linked, Total, Ascending;
    bloom.Add(hash, key);
    StaysLinked(it.table.nodes);
  }

  /** Take the next record, add its key to the filter and format it. */
  method WriteRecord(it: Iterator, hash: Hash, bloom: LumaflyBloom) returns (key: seq<byte>, record: seq<byte>)
    requires it.Valid() && Sound(bloom.State()) && it.at < |it.table.Entries()| && Fits(it.table.Entries()[it.at])
    modifies it, bloom.bits
    ensures it.Valid() && it.table.Entries() == old(it.table.Entries()) && it.at == old(it.at) + 1
    ensures key == it.table.Entries()[old(it.at)].key && record == Encode(it.table.Entries()[old(it.at)])
    ensures bloom.State() == Added(hash, old(bloom.State()), key)
  {
    hide Encode, Added, Sound, LumaflyBloom.State, MemTable.Shaped, MemTable.Entries, Linked, Total, Ascending;
    var node := it.Next();
    AddKey(it, hash, bloom, node.key);
    key := node.key;
    label Formatting:
    var buf := EncodeRecord(node.key, node.value, node.tombstone);
    StaysLinked@Formatting(it.table.nodes);
    record := buf[..];
  }

  /** Drain the iterator into the data block, indexing every `interval`-th record and filling the filter. */
  method WriteData(it: Iterator, hash: Hash, bloom: LumaflyBloom, interval: nat, ghost numBits: nat, ghost numHashes: nat)
    returns (data: seq<byte>, index: seq<IndexEntry>)
    requires it.Valid() && it.at == 0 && AllFit(it.table.Entries()) && interval > 0
    requires bloom.State() == FilterFor(hash, numBits, numHashes, [])
    modifies it, bloom.bits
    ensures it.Valid() && it.table.Entries() == old(it.table.Entries())
    ensures var es := it.table.Entries();
            && data == Encoded(es) && index == IndexOf(es, |es|, interval)
            && bloom.State() == FilterFor(hash, numBits, numHashes, es)
  {
    hide Iterator.Valid, Encode, Encoded, FilterFor, Added, Sound, LumaflyBloom.State, MemTable.Entries;
    ghost var es := it.table.Entries();
    data, index := [], [];
    var keyCount := 0;
    var currentOffset := 0;
    var more := it.HasNext();
    assert es[..0] == [];
    NothingEncoded();
    while more
      invariant it.Valid() && it.table.Entries() == es
      invariant it.at == keyCount <= |es| && more == (keyCount < |es|)
      invariant data == Encoded(es[..keyCount]) && currentOffset == |data|
      invariant index == IndexOf(es, keyCount, interval)
      invariant bloom.State() == FilterFor(hash, numBits, numHashes, es[..keyCount])
      decreases |es| - keyCount
    {
      OneMore(hash, numBits, numHashes, es, keyCount);
      var key, record := WriteRecord(it, hash, bloom);
      if keyCount % interval == 0 {
        index := index + [IndexEntry(key, currentOffset)];
      }
      data := data + record;
      currentOffset := currentOffset + |record|;
      keyCount := keyCount + 1;
      more := it.HasNext();
    }
    assert es[..keyCount] == es;
  }

  lemma {:induction false} IndexBytesNext(index: seq<IndexEntry>, e: IndexEntry)
    ensures IndexBytes(index + [e]) == IndexBytes(index) + PutBE(|e.key|, 4) + e.key + PutBE(e.offset, 8)
  {
    hide PutBE, IndexBytes;
    var added := PutBE(|e.key|, 4) + e.key + PutBE(e.offset, 8);
    IndexBytesFirst(index + [e]);
    if index == [] {
      assert (index + [e])[1..] == [];
      NothingIndexed();
      assert [] + PutBE(|e.key|, 4) + e.key + PutBE(e.offset, 8) == added + [];
    } else {
      IndexBytesFirst(index);
      IndexBytesNext(index[1..], e);
      assert (index + [e])[1..] == index[1..] + [e];
    }
  }

  lemma IndexBytesFirst(index: seq<IndexEntry>)
    requires index != []
    ensures IndexBytes(index) ==
            PutBE(|index[0].key|, 4) + index[0].key + PutBE(index[0].offset, 8) + IndexBytes(index[1..])
  {
  }

  method WriteIndex(index: seq<IndexEntry>) returns (buf: seq<byte>)
    ensures buf == IndexBytes(index)
  {
    hide PutBE, IndexBytes;
    buf := [];
    assert index[..0] == [];
    NothingIndexed();
    for i := 0 to |index|
      invariant buf == IndexBytes(index[..i])
    {
      IndexBytesNext(index[..i], index[i]);
      assert index[..i + 1] == index[..i] + [index[i]];
      buf := buf + PutBE(|index[i].key|, 4) + index[i].key + PutBE(index[i].offset, 8);
    }
    assert index[..|index|] == index;
  }

  lemma NothingIndexed()
    ensures IndexBytes([]) == []
  {
  }

  /** Write data block, index, filter and footer, then open the file for reading. */
  method BuildSSTable(it: Iterator, hash: Hash, numBits: nat, numHashes: nat, sparseInterval: int)
    returns (file: seq<byte>, reader: SSTableReader?, error: Option<OpenError>)
    requires it.Valid() && it.at == 0 && AllFit(it.table.Entries())
    modifies it
    ensures it.Valid() && it.table.Entries() == old(it.table.Entries())
    ensures var es := it.table.Entries();
            file == TableFile(es, if sparseInterval <= 0 then 8 else sparseInterval,
                              FilterFor(hash, numBits, numHashes, es))
    ensures match OpenFile(file)
            case Failed(e) => reader == null && error == Some(e)
            case Opened(t) =>
              error == None && reader != null && fresh(reader) && reader.bloom != null && fresh(reader.bloom.bits)
              && reader.AsTable() == t
  {
    hide Encoded, IndexOf, IndexBytes, Serialized, FooterBytes, FilterOf, OpenFile, Linked, MemTable.Entries, MemTable.Shaped;
    var interval: nat := if sparseInterval <= 0 then DEFAULT_INDEX_INTERVAL else sparseInterval;
    label Start:
    var bloom := new LumaflyBloom(numBits, numHashes);
    StaysLinked@Start(it.table.nodes);
    NothingFiltered(hash, numBits, numHashes);
    var data, index := WriteData(it, hash, bloom, interval, numBits, numHashes);
    label Written:
    var indexBuf := WriteIndex(index);
    var filterBuf := bloom.Serialize();
    file := data + indexBuf + filterBuf + FooterBytes(FooterFor(|data|, |indexBuf|, |filterBuf|));
    reader, error := OpenSSTable(file);
    StaysLinked@Written(it.table.nodes);
  }

  lemma NothingFiltered(hash: Hash, numBits: nat, numHashes: nat)
    ensures FilterFor(hash, numBits, numHashes, []) ==
            Empty(if numBits < 64 then 64 else numBits, if numHashes < 1 then 1 else numHashes)
  {
  }
}
