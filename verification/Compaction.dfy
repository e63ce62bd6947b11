/** The Abyss compactor: merging level-0 tables into one level-1 table (pkg/storage/compaction.go). */
module Compaction {
  import opened Bytes
  import opened Records
  import opened OrderedMap
  import opened Wal
  import opened Bloom
  import opened MemTables
  import opened SSTableFormat
  import opened SSTableLookup
  import opened SSTables
  import opened CompactionMeaning
  import opened CompactionExact

  // ---------- The map of newest entries ----------

  /** The map holds the last write to every key. */
  ghost predicate Represents(entries: map<seq<byte>, Record>, ops: seq<Record>) {
    forall key {:trigger LastWrite(ops, key)} {:trigger key in entries} ::
      LastWrite(ops, key) == if key in entries then Some(entries[key]) else None
  }

  lemma RepresentsNext(entries: map<seq<byte>, Record>, ops: seq<Record>, r: Record)
    requires Represents(entries, ops)
    ensures Represents(entries[r.key := r], ops + [r])
  {
    assert (ops + [r])[..|ops|] == ops;
  }

  /** The lookup takes the process down. */
  predicate Crashes(r: Lookup) {
    r.LookupPanics? || r.Undefined?
  }

  predicate CrashFree(hash: Hash, t: Table, n: nat)
    requires n <= |t.index|
  {
    forall i :: 0 <= i < n ==> !Crashes(LookupIn(hash, t, t.index[i].key))
  }

  /** What a reader shows: its table, or nothing after closing. */
  ghost predicate Shows(reader: SSTableReader, t: Option<Table>)
    reads reader, if reader.bloom == null then {} else {reader.bloom.bits}
  {
    if reader.bloom == null then t == None else t == Some(reader.AsTable())
  }

  /** Look every indexed key of a reader up and enter what is found. */
  method TakeFrom(hash: Hash, reader: SSTableReader, ghost t: Option<Table>,
                  entries: map<seq<byte>, Record>, ghost ops: seq<Record>)
    returns (entries': map<seq<byte>, Record>, crashed: bool)
    requires Shows(reader, t) && Represents(entries, ops)
    ensures crashed <==> t.Some? && !CrashFree(hash, t.value, |t.value.index|)
    ensures !crashed ==> Represents(entries', ops + Contribution(hash, t))
  {
    hide LookupIn, LastWrite, Represents;
    entries', crashed := entries, false;
    ghost var taken: seq<Record> := [];
    assert ops + [] == ops;
    var index := reader.index;
    for i := 0 to |index|
      invariant Shows(reader, t) && Represents(entries', ops + taken)
      invariant t.Some? ==> taken == Collect(hash, t.value, index[..i]) && CrashFree(hash, t.value, i)
      invariant t.None? ==> taken == []
    {
      var key := index[i].key;
      var r := reader.Get(hash, key);
      if Crashes(r) {
        return entries', true;
      }
      assert t.Some? ==> index[..i + 1][..i] == index[..i];
      if r.Found? {
        var record := Record(key, r.value, r.tombstone);
        RepresentsNext(entries', ops + taken, record);
        assert ops + taken + [record] == ops + (taken + [record]);
        entries' := entries'[key := record];
        taken := taken + [record];
      }
    }
    assert index[..|index|] == index;
  }

  // ---------- Sorted keys ----------

  predicate Sorted(ks: seq<seq<byte>>) {
    forall i, j :: 0 <= i < j < |ks| ==> Less(ks[i], ks[j])
  }

  function InsertKey(ks: seq<seq<byte>>, k: seq<byte>): seq<seq<byte>> {
    if ks == [] || Less(k, ks[0]) then [k] + ks else [ks[0]] + InsertKey(ks[1..], k)
  }

  lemma {:induction false} InsertKeySorted(ks: seq<seq<byte>>, k: seq<byte>)
    requires Sorted(ks) && k !in ks
    ensures Sorted(InsertKey(ks, k)) && forall x :: x in InsertKey(ks, k) <==> x == k || x in ks
  {
    hide Less;
    if ks == [] {
    } else if Less(k, ks[0]) {
      forall j | 0 < j < |ks|
        ensures Less(k, ks[j])
      {
        LessTransitive(k, ks[0], ks[j]);
      }
    } else {
      InsertKeySorted(ks[1..], k);
      LessTotal(k, ks[0]);
      var rest := InsertKey(ks[1..], k);
      assert ks == [ks[0]] + ks[1..];
      forall j | 0 <= j < |rest|
        ensures Less(ks[0], rest[j])
      {
        assert rest[j] in rest;
      }
    }
  }

  /** The keys of the map in ascending order. */
  method SortedKeys(entries: map<seq<byte>, Record>) returns (keys: seq<seq<byte>>)
    ensures Sorted(keys) && forall k :: k in keys <==> k in entries
    ensures forall i, j :: 0 <= i < j < |keys| ==> Precedes(keys[i], keys[j])
  {
    hide Sorted, InsertKey, Less, Precedes;
    NothingSorted();
    keys := [];
    var rest := entries.Keys;
    while rest != {}
      invariant Sorted(keys) && rest <= entries.Keys
      invariant forall k :: k in keys <==> k in entries && k !in rest
      decreases |rest|
    {
      var k :| k in rest;
      InsertKeySorted(keys, k);
      keys := InsertKey(keys, k);
      rest := rest - {k};
    }
    SortedIsLexicographic(keys);
  }

  lemma SortedIsLexicographic(ks: seq<seq<byte>>)
    ensures Sorted(ks) <==> forall i, j :: 0 <= i < j < |ks| ==> Precedes(ks[i], ks[j])
  {
    hide Less, Precedes;
    forall i, j | 0 <= i < j < |ks|
      ensures Less(ks[i], ks[j]) <==> Precedes(ks[i], ks[j])
    {
      LessIsLexicographic(ks[i], ks[j]);
    }
  }

  lemma NothingSorted()
    ensures Sorted([])
  {
  }

  // ---------- The new table ----------

  /** What the table holds once the first keys have been entered. */
  ghost predicate Filled(es: seq<Record>, entries: map<seq<byte>, Record>, keys: seq<seq<byte>>) {
    forall key :: Find(es, key) ==
      if key in keys && key in entries && !entries[key].tombstone then Some(entries[key]) else None
  }

  lemma FilledNext(es: seq<Record>, entries: map<seq<byte>, Record>, keys: seq<seq<byte>>, k: seq<byte>)
    requires Filled(es, entries, keys) && Ascending(es) && k in entries && entries[k].key == k
    ensures entries[k].tombstone ==> Filled(es, entries, keys + [k])
    ensures !entries[k].tombstone ==> Filled(Upsert(es, entries[k]), entries, keys + [k])
  {
    hide Find, Upsert, Ascending;
    if !entries[k].tombstone {
      forall key
        ensures Find(Upsert(es, entries[k]), key) ==
                if key in keys + [k] && key in entries && !entries[key].tombstone then Some(entries[key]) else None
      {
        FindUpsert(es, entries[k], key);
      }
    }
  }

  /** With all keys entered, the table holds the live newest records. */
  lemma FilledAll(es: seq<Record>, entries: map<seq<byte>, Record>, keys: seq<seq<byte>>, ops: seq<Record>)
    requires Filled(es, entries, keys) && Ascending(es) && Represents(entries, ops)
    requires forall k :: k in keys <==> k in entries
    ensures es == Live(Play(ops))
  {
    hide Find, Ascending, Live, Play, LastWrite;
    PlayAscending(ops);
    LiveAscending(Play(ops));
    forall key
      ensures Find(es, key) == Find(Live(Play(ops)), key)
    {
      FindLive(Play(ops), key);
      FindPlay(ops, key);
    }
    AscendingUnique(es, Live(Play(ops)));
  }

  ghost predicate KeyedByKey(entries: map<seq<byte>, Record>) {
    forall k :: k in entries ==> entries[k].key == k
  }

  lemma {:induction false} LastWriteKey(ops: seq<Record>, key: seq<byte>)
    ensures LastWrite(ops, key).Some? ==> LastWrite(ops, key).value.key == key
  {
    if ops != [] {
      LastWriteKey(ops[..|ops| - 1], key);
    }
  }

  lemma EntriesKeyed(entries: map<seq<byte>, Record>, ops: seq<Record>)
    requires Represents(entries, ops)
    ensures KeyedByKey(entries)
  {
    hide LastWrite;
    forall k | k in entries
      ensures entries[k].key == k
    {
      LastWriteKey(ops, k);
    }
  }

  lemma FilledNothing(es: seq<Record>, entries: map<seq<byte>, Record>, keys: seq<seq<byte>>)
    requires Filled(es, entries, keys) && Ascending(es)
    requires forall k :: k in keys && k in entries ==> entries[k].tombstone
    ensures es == []
  {
    hide Ascending;
    NothingAscending();
    forall key
      ensures Find(es, key) == Find([], key)
    {
    }
    AscendingUnique(es, []);
  }

  lemma FilledSome(es: seq<Record>, entries: map<seq<byte>, Record>, keys: seq<seq<byte>>, k: seq<byte>)
    requires Filled(es, entries, keys) && k in keys && k in entries && !entries[k].tombstone
    ensures es != []
  {
    assert Find(es, k) == Some(entries[k]);
  }

  /** Enter the live entries into a new memory table, key by key. */
  method FillTable(entries: map<seq<byte>, Record>, keys: seq<seq<byte>>, coins: nat -> seq<bool>)
    returns (mem: MemTable, retained: nat)
    requires KeyedByKey(entries) && forall k :: k in keys ==> k in entries
    ensures AllFresh(mem) && mem.Valid() && Filled(mem.Entries(), entries, keys)
    ensures retained == 0 ==> forall k :: k in keys ==> entries[k].tombstone
    ensures retained > 0 ==> exists k :: k in keys && !entries[k].tombstone
  {
    hide Find, Upsert, Total, Ascending, Linked, MemTable.Shaped, MemTable.Entries, Filled;
    mem := new MemTable(DEFAULT_MAX_LEVEL, DEFAULT_FLUSH_THRESHOLD);
    retained := 0;
    FilledAtFirst(entries);
    assert keys[..0] == [];
    for i := 0 to |keys|
      invariant AllFresh(mem) && mem.Valid() && Filled(mem.Entries(), entries, keys[..i])
      invariant retained == 0 ==> forall k :: k in keys[..i] ==> entries[k].tombstone
      invariant retained > 0 ==> exists k :: k in keys && !entries[k].tombstone
    {
      var k := keys[i];
      assert k in keys;
      FilledNext(mem.Entries(), entries, keys[..i], k);
      assert keys[..i + 1] == keys[..i] + [k];
      var entry := entries[k];
      if entry.tombstone {
        continue;
      }
      assert forall j | 0 <= j < |mem.nodes| :: mem.nodes[j] in mem.nodes;
      var _ := mem.Put(entry.key, entry.value, coins(i));
      retained := retained + 1;
    }
    assert keys[..|keys|] == keys;
  }

  lemma FilledAtFirst(entries: map<seq<byte>, Record>)
    ensures Filled([], entries, [])
  {
  }

  /** The memory table the new file is built from: the merged entries, or the sentinel when none is live. */
  method MergeIntoTable(entries: map<seq<byte>, Record>, coins: nat -> seq<bool>, ghost ops: seq<Record>)
    returns (mem: MemTable)
    requires Represents(entries, ops)
    ensures AllFresh(mem) && mem.Valid() && mem.Entries() == Merged(ops)
  {
    hide Find, Total, Ascending, Linked, MemTable.Shaped, MemTable.Entries, Filled, Represents, Live, Play, Sorted;
    EntriesKeyed(entries, ops);
    var keys := SortedKeys(entries);
    var retained;
    mem, retained := FillTable(entries, keys, coins);
    FilledAll(mem.Entries(), entries, keys, ops);
    if retained == 0 {
      FilledNothing(mem.Entries(), entries, keys);
      assert forall j | 0 <= j < |mem.nodes| :: mem.nodes[j] in mem.nodes;
      var _ := mem.Put(SENTINEL_KEY, SENTINEL_VALUE, coins(|keys|));
    } else {
      var k :| k in keys && !entries[k].tombstone;
      FilledSome(mem.Entries(), entries, keys, k);
    }
  }

  lemma UpsertMembers(rs: seq<Record>, r: Record, x: Record)
    requires x in Upsert(rs, r)
    ensures x == r || x in rs
  {
    hide Position;
  }

  lemma {:induction false} PlayMembers(ops: seq<Record>)
    ensures forall r :: r in Play(ops) ==> r in ops
  {
    hide Upsert;
    if ops != [] {
      var front, last := ops[..|ops| - 1], ops[|ops| - 1];
      PlayMembers(front);
      forall r | r in Play(ops)
        ensures r in ops
      {
        UpsertMembers(Play(front), last, r);
      }
    }
  }

  lemma MergedFits(ops: seq<Record>)
    requires AllFit(ops)
    ensures AllFit(Merged(ops))
  {
    hide Play;
    PlayMembers(ops);
    var live := Live(Play(ops));
    forall i | 0 <= i < |live|
      ensures Fits(live[i])
    {
      assert live[i] in ops;
    }
  }

  datatype Outcome = NoTables | Crashed | BuildFailed(error: OpenError) | Compacted

  /** Read the readers one after the other; a later entry replaces an earlier one. */
  method TakeAll(hash: Hash, readers: seq<SSTableReader>, ghost tables: seq<Option<Table>>)
    returns (entries: map<seq<byte>, Record>, crashed: bool)
    requires |tables| == |readers| && forall i :: 0 <= i < |readers| ==> Shows(readers[i], tables[i])
    ensures crashed <==>
            exists i :: 0 <= i < |tables| && tables[i].Some? && !CrashFree(hash, tables[i].value, |tables[i].value.index|)
    ensures !crashed ==> Represents(entries, CollectAll(hash, tables))
  {
    hide LookupIn, LastWrite, Represents, Contribution, CrashFree;
    entries, crashed := map[], false;
    NothingRepresented();
    assert tables[..0] == [];
    for i := 0 to |readers|
      invariant forall j :: 0 <= j < |readers| ==> Shows(readers[j], tables[j])
      invariant Represents(entries, CollectAll(hash, tables[..i]))
      invariant forall j :: 0 <= j < i && tables[j].Some? ==> CrashFree(hash, tables[j].value, |tables[j].value.index|)
    {
      entries, crashed := TakeFrom(hash, readers[i], tables[i], entries, CollectAll(hash, tables[..i]));
      if crashed {
        return;
      }
      assert tables[..i + 1][..i] == tables[..i];
    }
    assert tables[..|tables|] == tables;
  }

  lemma NothingRepresented()
    ensures Represents(map[], [])
  {
  }

  /** Build and open the file of the merged entries. */
  method BuildMerged(hash: Hash, entries: map<seq<byte>, Record>, ghost ops: seq<Record>,
                     coins: nat -> seq<bool>, numBits: nat, numHashes: nat, sparseInterval: int)
    returns (file: seq<byte>, l1: SSTableReader?, error: Option<OpenError>)
    requires Represents(entries, ops) && AllFit(ops)
    ensures var es := Merged(ops);
            file == TableFile(es, if sparseInterval <= 0 then 8 else sparseInterval,
                              FilterFor(hash, numBits, numHashes, es))
    ensures match OpenFile(file)
            case Failed(e) => l1 == null && error == Some(e)
            case Opened(t) =>
              error == None && l1 != null && fresh(l1) && l1.bloom != null && fresh(l1.bloom.bits) && l1.AsTable() == t
  {
    hide Represents, TableFile, FilterFor, OpenFile, AllFit, Merged, Linked, MemTable.Shaped, MemTable.Entries;
    var mem := MergeIntoTable(entries, coins, ops);
    MergedFits(ops);
    var it := new Iterator(mem);
    file, l1, error := BuildSSTable(it, hash, numBits, numHashes, sparseInterval);
  }

  method CloseAll(readers: seq<SSTableReader>)
    modifies readers
    ensures forall i :: 0 <= i < |readers| ==> readers[i].bloom == null
  {
    for i := 0 to |readers|
      invariant forall j :: 0 <= j < i ==> readers[j].bloom == null
    {
      readers[i].Close();
    }
  }

  /** Merge the level-0 tables into a new file, open it, and close the old readers. */
  method CompactL0ToL1(hash: Hash, readers: seq<SSTableReader>, ghost tables: seq<Option<Table>>,
                       coins: nat -> seq<bool>, numBits: nat, numHashes: nat, sparseInterval: int)
    returns (outcome: Outcome, file: seq<byte>, l1: SSTableReader?)
    requires |tables| == |readers| && forall i :: 0 <= i < |readers| ==> Shows(readers[i], tables[i])
    requires AllFit(CollectAll(hash, tables))
    modifies readers
    ensures outcome.NoTables? <==> readers == []
    ensures outcome.Crashed? <==>
            exists i :: 0 <= i < |tables| && tables[i].Some? && !CrashFree(hash, tables[i].value, |tables[i].value.index|)
    ensures outcome.Compacted? || outcome.BuildFailed? ==>
            var es := Merged(CollectAll(hash, tables));
            file == TableFile(es, if sparseInterval <= 0 then 8 else sparseInterval,
                              FilterFor(hash, numBits, numHashes, es))
    ensures outcome.Compacted? ==>
            l1 != null && fresh(l1) && l1.bloom != null && OpenFile(file) == Opened(l1.AsTable())
    ensures outcome.Compacted? ==> forall i :: 0 <= i < |readers| ==> readers[i].bloom == null
    ensures outcome.BuildFailed? ==> OpenFile(file) == Failed(outcome.error)
    ensures !outcome.Compacted? ==> l1 == null && forall i :: 0 <= i < |readers| ==> unchanged(readers[i])
  {
    hide CollectAll, Represents, CrashFree, TableFile, FilterFor, OpenFile, AllFit, Merged;
    file, l1 := [], null;
    if |readers| == 0 {
      return NoTables, file, l1;
    }
    var entries, crashed := TakeAll(hash, readers, tables);
    if crashed {
      return Crashed, file, l1;
    }
    var error;
    file, l1, error := BuildMerged(hash, entries, CollectAll(hash, tables), coins, numBits, numHashes, sparseInterval);
    if l1 == null {
      return BuildFailed(error.value), file, l1;
    }
    CloseAll(readers);
    outcome := Compacted;
  }

  // ---------- Compacting tables that were built ----------

  /** Tables in good order never take the compactor down. */
  lemma GoodCrashFree(hash: Hash, s: Source)
    requires Good(s)
    ensures CrashFree(hash, SourceTable(hash, s), |SourceTable(hash, s).index|)
  {
    hide LookupIn, SourceTable, Good, Find;
    var t := SourceTable(hash, s);
    forall i | 0 <= i < |t.index|
      ensures !Crashes(LookupIn(hash, t, t.index[i].key))
    {
      SourceLookup(hash, s, t.index[i].key);
    }
  }

  lemma {:induction false} IndexedFits(rs: seq<Record>, n: nat, interval: nat)
    requires AllFit(rs) && n <= |rs|
    ensures AllFit(Indexed(rs, n, interval))
  {
    hide Fits;
    if n > 0 {
      IndexedFits(rs, n - 1, interval);
    }
  }

  lemma {:induction false} TakenFits(ss: seq<Source>)
    requires AllGood(ss)
    ensures AllFit(Taken(ss))
  {
    hide Fits, Ascending, Encoded, Indexed;
    if ss != [] {
      var last := ss[|ss| - 1];
      TakenFits(ss[..|ss| - 1]);
      IndexedFits(last.records, |last.records|, last.interval);
    }
  }

  /** Looking a key up in the compacted file, whatever was taken from the tables. */
  lemma MergedLookup(hash: Hash, ops: seq<Record>, interval: nat, numBits: nat, numHashes: nat, key: seq<byte>)
    requires AllFit(ops) && interval > 0
    requires Serializable(FilterFor(hash, numBits, numHashes, Merged(ops)))
    requires |TableFile(Merged(ops), interval, FilterFor(hash, numBits, numHashes, Merged(ops)))| < TWO_TO_63
    ensures var opening := OpenFile(TableFile(Merged(ops), interval, FilterFor(hash, numBits, numHashes, Merged(ops))));
            opening.Opened? && LookupIn(hash, opening.table, key) == Answer(Find(Merged(ops), key))
  {
    hide OpenFile, LookupIn, FilterOf, TableFile, Serializable, Merged, Find;
    MergedFits(ops);
    MergedAscending(ops);
    BuildOpenLookup(hash, Merged(ops), interval, if numBits < 64 then 64 else numBits,
      if numHashes < 1 then 1 else numHashes, key);
  }

  /**
   * Looking a key up in the compacted file, for level-0 tables in good order: the answer is the later-table-wins
   * overlay of the indexed records, without tombstones.
   */
  lemma CompactedLookup(hash: Hash, ss: seq<Source>, interval: nat, numBits: nat, numHashes: nat, key: seq<byte>)
    requires AllGood(ss) && interval > 0
    requires Serializable(FilterFor(hash, numBits, numHashes, Merged(Taken(ss))))
    requires |TableFile(Merged(Taken(ss)), interval, FilterFor(hash, numBits, numHashes, Merged(Taken(ss))))| < TWO_TO_63
    ensures var es := Merged(CollectAll(hash, SourceTables(hash, ss)));
            var opening := OpenFile(TableFile(es, interval, FilterFor(hash, numBits, numHashes, es)));
            opening.Opened? && LookupIn(hash, opening.table, key) == Answer(Find(Merged(Taken(ss)), key))
  {
    hide OpenFile, LookupIn, FilterFor, TableFile, Serializable, Merged, CollectAll, SourceTables, Taken, Find, AllGood;
    CollectTaken(hash, ss);
    TakenFits(ss);
    MergedLookup(hash, Taken(ss), interval, numBits, numHashes, key);
  }
}
