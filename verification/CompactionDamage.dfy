/** What compaction makes of a table with a damaged record: lookups that fail are passed over (pkg/storage/compaction.go:66-69). */
module CompactionDamage {
  import opened Bytes
  import opened Records
  import opened OrderedMap
  import opened Wal
  import opened Bloom
  import opened SSTableFormat
  import opened SSTableLookup
  import opened SSTableDamage
  import opened CompactionMeaning
  import opened CompactionExact
  import opened SSTables
  import opened Compaction

  function SourceFilter(hash: Hash, s: Source): (f: Filter)
    requires s.numBits > 0
    ensures Sound(f)
  {
    FilterOf(hash, s.numBits, s.numHashes, Keys(s.records))
  }

  /** The table of `s` with the bytes of record `k` overwritten by `bad`. */
  function DamagedTable(hash: Hash, s: Source, k: nat, bad: seq<byte>): Table
    requires s.interval > 0 && s.numBits > 0 && k < |s.records| && |bad| == Size(s.records[k])
  {
    BuiltTable(s.records, s.interval, SourceFilter(hash, s)).(
      file := DamagedFile(s.records, s.interval, SourceFilter(hash, s), k, bad))
  }

  /** Every `interval`-th of the first `n` records but number `k`. */
  function IndexedBut(rs: seq<Record>, n: nat, interval: nat, k: nat): seq<Record>
    requires n <= |rs|
  {
    if n == 0 then []
    else if interval > 0 && (n - 1) % interval == 0 && n - 1 != k then IndexedBut(rs, n - 1, interval, k) + [rs[n - 1]]
    else IndexedBut(rs, n - 1, interval, k)
  }

  /** The bracket of an indexed key starts at the key's own record. */
  lemma BracketOfMark(es: seq<Record>, interval: nat, i: nat)
    requires Ascending(es) && interval > 0 && i < |Marks(|es|, interval)|
    ensures Marks(|es|, interval)[i] < |es|
    ensures Bracket(es, interval, es[Marks(|es|, interval)[i]].key).0 == Marks(|es|, interval)[i]
  {
    hide IndexOf, Marks, Encoded, Less, Search;
    var index, marks := IndexOf(es, |es|, interval), Marks(|es|, interval);
    IndexAtMarks(es, |es|, interval);
    var key := es[marks[i]].key;
    IndexAscends(es, interval);
    SearchBoundary(index, key, 0, |index|);
    assert index[i].key == key;
    LessIrreflexive(key);
    assert i + 1 < |index| ==> Less(index[i].key, index[i + 1].key);
  }

  /** A lookup of an indexed key reads no record but its own. */
  lemma ReadsOnlyItself(hash: Hash, s: Source, m: nat, k: nat)
    requires Good(s) && m < |s.records| && IsIndexed(s, m) && k < |s.records|
    ensures Reads(hash, s.records, s.interval, SourceFilter(hash, s), k, s.records[m].key) <==> k == m
  {
    hide Encoded, Less, AllFit, MayContain, FilterOf, Marks, Bracket;
    var es, key := s.records, s.records[m].key;
    var marks := Marks(|es|, s.interval);
    MarksExact(|es|, s.interval);
    assert m in marks;
    var i :| 0 <= i < |marks| && marks[i] == m;
    BracketOfMark(es, s.interval, i);
    BracketBounds(es, s.interval, key);
    NoFalseNegatives(hash, s.numBits, s.numHashes, Keys(es), m);
    var (start, end) := Bracket(es, s.interval, key);
    if end <= m {
      InOrder(es, end, m);
    }
    if m < k {
      InOrder(es, m, k - 1);
    }
  }

  /**
   * Record `k` is overwritten by bytes that do not pass for a record at its place: their lengths reach past the end of
   * its bracket, or the bytes they cover do not match their checksum.
   */
  predicate Spoilt(s: Source, k: nat, bad: seq<byte>)
    requires s.interval > 0 && k < |s.records|
  {
    && |bad| == Size(s.records[k])
    && var rest := BracketRest(s.records, s.interval, k, bad, s.records[k].key);
       TooShort(rest) || Mismatched(rest)
  }

  function SpoiltAnswer(s: Source, k: nat, bad: seq<byte>): Lookup
    requires s.interval > 0 && k < |s.records|
  {
    if TooShort(BracketRest(s.records, s.interval, k, bad, s.records[k].key)) then Absent else WrongChecksum
  }

  /** Every change to up to four bytes in a row outside the length fields spoils the record. */
  lemma BurstSpoils(s: Source, k: nat, bad: seq<byte>)
    requires Good(s) && k < |s.records| && Burst(s.records[k], bad)
    ensures Spoilt(s, k, bad)
  {
    hide Encoded, DiffersAt, Bracket, Ascending, Parse, Encode, TooShort, Mismatched;
    var es, key := s.records, s.records[k].key;
    var (m, n) := Bracket(es, s.interval, key);
    ParseDamaged(es[k], bad, if k < n <= |es| then Encoded(es[k + 1..n]) else []);
    ParseShort(BracketRest(es, s.interval, k, bad, key));
  }

  lemma DamagedLookup(hash: Hash, s: Source, k: nat, bad: seq<byte>, m: nat)
    requires Good(s) && k < |s.records| && Spoilt(s, k, bad)
    requires m < |s.records| && IsIndexed(s, m)
    ensures LookupIn(hash, DamagedTable(hash, s, k, bad), s.records[m].key) ==
            if m == k then SpoiltAnswer(s, k, bad) else Found(s.records[m].value, s.records[m].tombstone)
  {
    hide Encode, Encoded, AllFit, Ascending, FilterOf, LookupIn, BuiltTable, DamagedFile, Reads, Find, BracketRest;
    LookupOverwritten(hash, s.records, s.interval, s.numBits, s.numHashes, k, bad, s.records[m].key);
    ReadsOnlyItself(hash, s, m, k);
    FindAt(s.records, m);
  }

  /**
   * From a table with a spoilt record the compactor takes every indexed record but that one, without an error: the
   * damage costs exactly that record if it is indexed, and nothing otherwise.
   */
  lemma {:induction false} CollectDamaged(hash: Hash, s: Source, k: nat, bad: seq<byte>, n: nat)
    requires Good(s) && k < |s.records| && Spoilt(s, k, bad)
    requires n <= |s.records|
    ensures Collect(hash, DamagedTable(hash, s, k, bad), IndexOf(s.records, n, s.interval)) ==
            IndexedBut(s.records, n, s.interval, k)
  {
    hide Encode, Encoded, DamagedTable, LookupIn, Ascending, AllFit, Spoilt;
    if n > 0 {
      CollectDamaged(hash, s, k, bad, n - 1);
      if (n - 1) % s.interval == 0 {
        var front := IndexOf(s.records, n - 1, s.interval);
        assert IndexOf(s.records, n, s.interval)[..|front|] == front;
        DamagedLookup(hash, s, k, bad, n - 1);
      }
    }
  }

  // ---------- The compaction as a whole ----------

  lemma GoodInterval(s: Source)
    requires Good(s)
    ensures s.interval > 0 && s.numBits > 0
  {
  }

  lemma GoodParts(ss: seq<Source>, j: nat)
    requires AllGood(ss) && j < |ss|
    ensures AllGood(ss[..j]) && Good(ss[j]) && AllGood(ss[j + 1..])
  {
    hide Good;
  }

  /** The tables of `ss`, table `j` with the bytes of record `k` overwritten by `bad`. */
  function DamagedTables(hash: Hash, ss: seq<Source>, j: nat, k: nat, bad: seq<byte>): seq<Option<Table>>
    requires AllGood(ss) && j < |ss| && k < |ss[j].records| && |bad| == Size(ss[j].records[k])
  {
    hide Good, AllGood, Size;
    GoodParts(ss, j);
    GoodInterval(ss[j]);
    SourceTables(hash, ss[..j]) + [Some(DamagedTable(hash, ss[j], k, bad))] + SourceTables(hash, ss[j + 1..])
  }

  /** The indexed records of all tables but record `k` of table `j`. */
  function TakenBut(ss: seq<Source>, j: nat, k: nat): seq<Record>
    requires j < |ss|
  {
    Taken(ss[..j]) + IndexedBut(ss[j].records, |ss[j].records|, ss[j].interval, k) + Taken(ss[j + 1..])
  }

  lemma {:induction false} CollectAllConcat(hash: Hash, a: seq<Option<Table>>, b: seq<Option<Table>>)
    ensures CollectAll(hash, a + b) == CollectAll(hash, a) + CollectAll(hash, b)
  {
    hide Contribution;
    if b == [] {
      assert a + b == a;
    } else {
      CollectAllConcat(hash, a, b[..|b| - 1]);
      assert (a + b)[..|a + b| - 1] == a + b[..|b| - 1];
    }
  }

  lemma {:induction false} TakenConcat(a: seq<Source>, b: seq<Source>)
    ensures Taken(a + b) == Taken(a) + Taken(b)
  {
    hide Indexed;
    if b == [] {
      assert a + b == a;
    } else {
      TakenConcat(a, b[..|b| - 1]);
      assert (a + b)[..|a + b| - 1] == a + b[..|b| - 1];
    }
  }

  /** What the compactor takes from all tables, one of them damaged. */
  lemma CollectAllDamaged(hash: Hash, ss: seq<Source>, j: nat, k: nat, bad: seq<byte>)
    requires AllGood(ss) && j < |ss| && k < |ss[j].records|
    requires Spoilt(ss[j], k, bad)
    ensures CollectAll(hash, DamagedTables(hash, ss, j, k, bad)) == TakenBut(ss, j, k)
  {
    hide CollectAll, SourceTables, DamagedTable, Taken, IndexedBut, Encode, Good, Collect, IndexOf;
    GoodInterval(ss[j]);
    var s, t := ss[j], Some(DamagedTable(hash, ss[j], k, bad));
    var before, after := SourceTables(hash, ss[..j]), SourceTables(hash, ss[j + 1..]);
    CollectAllConcat(hash, before + [t], after);
    CollectAllConcat(hash, before, [t]);
    CollectOne(hash, t);
    CollectTaken(hash, ss[..j]);
    CollectTaken(hash, ss[j + 1..]);
    DamagedIndex(hash, s, k, bad);
    CollectDamaged(hash, s, k, bad, |s.records|);
  }

  lemma CollectOne(hash: Hash, t: Option<Table>)
    ensures CollectAll(hash, [t]) == Contribution(hash, t)
  {
    hide Contribution;
    assert [t][..0] == [];
    assert CollectAll(hash, []) == [];
  }

  lemma DamagedIndex(hash: Hash, s: Source, k: nat, bad: seq<byte>)
    requires s.interval > 0 && s.numBits > 0 && k < |s.records| && |bad| == Size(s.records[k])
    ensures DamagedTable(hash, s, k, bad).index == IndexOf(s.records, |s.records|, s.interval)
  {
    hide IndexOf, FilterOf, TableFile, DamagedFile, Encoded;
  }

  /** The damage does not stop the compactor: it fails no lookup in a way that takes the process down. */
  lemma DamagedCrashFree(hash: Hash, s: Source, k: nat, bad: seq<byte>)
    requires Good(s) && k < |s.records| && Spoilt(s, k, bad)
    ensures var t := DamagedTable(hash, s, k, bad);
            CrashFree(hash, t, |t.index|)
  {
    hide LookupIn, DamagedTable, Good, Encode, IndexOf, Marks, TooShort, Mismatched, BracketRest;
    GoodInterval(s);
    var t := DamagedTable(hash, s, k, bad);
    DamagedIndex(hash, s, k, bad);
    IndexAtMarks(s.records, |s.records|, s.interval);
    MarksExact(|s.records|, s.interval);
    forall i | 0 <= i < |t.index|
      ensures !Crashes(LookupIn(hash, t, t.index[i].key))
    {
      DamagedLookup(hash, s, k, bad, Marks(|s.records|, s.interval)[i]);
    }
  }

  /** Every key but that of the damaged record is taken as before, and that one not at all. */
  lemma {:induction false} LastIndexedBut(rs: seq<Record>, n: nat, interval: nat, k: nat, key: seq<byte>)
    requires Ascending(rs) && n <= |rs| && k < |rs|
    ensures LastWrite(IndexedBut(rs, n, interval, k), key) ==
            if key == rs[k].key then None else LastWrite(Indexed(rs, n, interval), key)
  {
    hide Less, Ascending, LastWrite;
    if n > 0 {
      LastIndexedBut(rs, n - 1, interval, k, key);
      LastWriteNext(IndexedBut(rs, n - 1, interval, k), rs[n - 1], key);
      LastWriteNext(Indexed(rs, n - 1, interval), rs[n - 1], key);
      if n - 1 != k {
        KeysDiffer(rs, n - 1, k);
      }
    } else {
      NothingWritten(key);
    }
  }

  lemma LastWriteNext(ops: seq<Record>, r: Record, key: seq<byte>)
    ensures LastWrite(ops + [r], key) == if r.key == key then Some(r) else LastWrite(ops, key)
  {
    assert (ops + [r])[..|ops|] == ops;
  }

  lemma NothingWritten(key: seq<byte>)
    ensures LastWrite([], key) == None
  {
  }

  lemma KeysDiffer(rs: seq<Record>, i: nat, j: nat)
    requires Ascending(rs) && i < |rs| && j < |rs| && i != j
    ensures rs[i].key != rs[j].key
  {
    hide Less;
    LessIrreflexive(rs[i].key);
    InOrder(rs, if i < j then i else j, if i < j then j else i);
  }

  /**
   * What clients then see: the key of an indexed damaged record that no later table has indexed reads as its last
   * indexed version in the older tables, or not at all; every other key reads as without the damage.
   */
  lemma DamageSeen(ss: seq<Source>, j: nat, k: nat, key: seq<byte>)
    requires AllGood(ss) && j < |ss| && k < |ss[j].records|
    ensures LastWrite(TakenBut(ss, j, k), key) ==
            if key == ss[j].records[k].key && IsIndexed(ss[j], k) && LastWrite(Taken(ss[j + 1..]), key) == None
            then LastWrite(Taken(ss[..j]), key)
            else LastWrite(Taken(ss), key)
  {
    hide Taken, LastWrite, Encoded, AllFit, Less, IndexedBut, Indexed, Ascending;
    var s := ss[j];
    var all := Indexed(s.records, |s.records|, s.interval);
    var but := IndexedBut(s.records, |s.records|, s.interval, k);
    var before, after := Taken(ss[..j]), Taken(ss[j + 1..]);
    LastWriteConcat(before + but, after, key);
    LastWriteConcat(before, but, key);
    LastIndexedBut(s.records, |s.records|, s.interval, k, key);
    SplitTaken(ss, j);
    LastWriteConcat(before + all, after, key);
    LastWriteConcat(before, all, key);
    if key == s.records[k].key && !IsIndexed(s, k) {
      forall p | 0 <= p < |s.records| && s.records[p].key == key
        ensures p % s.interval != 0
      {
        if p != k {
          KeysDiffer(s.records, p, k);
        }
      }
      IndexedLacks(s.records, |s.records|, s.interval, key);
    }
  }

  lemma SplitTaken(ss: seq<Source>, j: nat)
    requires j < |ss|
    ensures Taken(ss) == Taken(ss[..j]) + Indexed(ss[j].records, |ss[j].records|, ss[j].interval) + Taken(ss[j + 1..])
  {
    hide Indexed;
    TakenConcat(ss[..j] + [ss[j]], ss[j + 1..]);
    TakenConcat(ss[..j], [ss[j]]);
    assert ss == ss[..j] + [ss[j]] + ss[j + 1..];
    assert [ss[j]][..0] == [];
    assert Taken([]) == [];
  }

  lemma {:induction false} IndexedButFits(rs: seq<Record>, n: nat, interval: nat, k: nat)
    requires AllFit(rs) && n <= |rs|
    ensures AllFit(IndexedBut(rs, n, interval, k))
  {
    hide Fits;
    if n > 0 {
      IndexedButFits(rs, n - 1, interval, k);
    }
  }

  lemma TakenButFits(ss: seq<Source>, j: nat, k: nat)
    requires AllGood(ss) && j < |ss|
    ensures AllFit(TakenBut(ss, j, k))
  {
    hide Fits, Ascending, Encoded, IndexedBut, Taken;
    TakenFits(ss[..j]);
    TakenFits(ss[j + 1..]);
    IndexedButFits(ss[j].records, |ss[j].records|, ss[j].interval, k);
  }

  /**
   * Compacting tables of which one is damaged: no lookup crashes, what is taken fits a new table, and a lookup in
   * the new file answers from the records taken, the damaged one missing.
   */
  lemma CompactedDamaged(hash: Hash, ss: seq<Source>, j: nat, k: nat, bad: seq<byte>,
                         interval: nat, numBits: nat, numHashes: nat, key: seq<byte>)
    requires AllGood(ss) && j < |ss| && k < |ss[j].records| && interval > 0
    requires Spoilt(ss[j], k, bad)
    requires var es := Merged(TakenBut(ss, j, k)); var filter := FilterFor(hash, numBits, numHashes, es);
             Serializable(filter) && |TableFile(es, interval, filter)| < TWO_TO_63
    ensures var tables := DamagedTables(hash, ss, j, k, bad);
            && (forall i | 0 <= i < |tables| :: tables[i].Some? && CrashFree(hash, tables[i].value, |tables[i].value.index|))
            && AllFit(CollectAll(hash, tables))
            && var es := Merged(CollectAll(hash, tables));
               var opening := OpenFile(TableFile(es, interval, FilterFor(hash, numBits, numHashes, es)));
               opening.Opened? && LookupIn(hash, opening.table, key) == Answer(Find(Merged(TakenBut(ss, j, k)), key))
  {
    hide OpenFile, LookupIn, FilterFor, TableFile, Serializable, Merged, CollectAll, DamagedTables, TakenBut, Find, Good,
         Encode, CrashFree, AllFit, Spoilt;
    CollectAllDamaged(hash, ss, j, k, bad);
    TakenButFits(ss, j, k);
    MergedLookup(hash, TakenBut(ss, j, k), interval, numBits, numHashes, key);
    DamagedTablesCrashFree(hash, ss, j, k, bad);
  }

  lemma DamagedTablesCrashFree(hash: Hash, ss: seq<Source>, j: nat, k: nat, bad: seq<byte>)
    requires AllGood(ss) && j < |ss| && k < |ss[j].records| && Good(ss[j]) && Spoilt(ss[j], k, bad)
    ensures forall i | 0 <= i < |DamagedTables(hash, ss, j, k, bad)| ::
              var t := DamagedTables(hash, ss, j, k, bad)[i];
              t.Some? && CrashFree(hash, t.value, |t.value.index|)
  {
    hide SourceTables, Good, Encode, DamagedTable, CrashFree, AllFit, Spoilt;
    AllCrashFree(hash, ss[..j]);
    AllCrashFree(hash, ss[j + 1..]);
    DamagedCrashFree(hash, ss[j], k, bad);
  }

  lemma {:induction false} AllCrashFree(hash: Hash, ss: seq<Source>)
    requires AllGood(ss)
    ensures forall i | 0 <= i < |ss| ::
              SourceTables(hash, ss)[i].Some?
              && CrashFree(hash, SourceTables(hash, ss)[i].value, |SourceTables(hash, ss)[i].value.index|)
  {
    hide Good, SourceTable, CrashFree;
    if ss != [] {
      AllCrashFree(hash, ss[..|ss| - 1]);
      GoodCrashFree(hash, ss[|ss| - 1]);
    }
  }

  /**
   * The compactor run on such tables: it reports success, closes the readers it read, and leaves a file in which
   * the damaged record, if it was indexed, is missing.
   */
  method CompactDamaged(hash: Hash, readers: seq<SSTableReader>, coins: nat -> seq<bool>, numBits: nat, numHashes: nat,
                        interval: nat, ghost ss: seq<Source>, ghost j: nat, ghost k: nat, ghost bad: seq<byte>)
    returns (outcome: Outcome, file: seq<byte>, l1: SSTableReader?)
    requires AllGood(ss) && |readers| == |ss| && j < |ss| && k < |ss[j].records| && interval > 0
    requires Spoilt(ss[j], k, bad)
    requires forall i :: 0 <= i < |readers| ==> Shows(readers[i], DamagedTables(hash, ss, j, k, bad)[i])
    requires var es := Merged(TakenBut(ss, j, k)); var filter := FilterFor(hash, numBits, numHashes, es);
             Serializable(filter) && |TableFile(es, interval, filter)| < TWO_TO_63
    modifies readers
    ensures outcome == Compacted && l1 != null && l1.bloom != null
    ensures forall i :: 0 <= i < |readers| ==> readers[i].bloom == null
    ensures forall key :: LookupIn(hash, l1.AsTable(), key) == Answer(Find(Merged(TakenBut(ss, j, k)), key))
  {
    hide OpenFile, LookupIn, FilterFor, TableFile, Serializable, Merged, CollectAll, TakenBut, Find, Good, Encode,
         CrashFree, AllFit, DamagedTables, Shows;
    ghost var tables := DamagedTables(hash, ss, j, k, bad);
    TablesCount(hash, ss, j, k, bad);
    forall key
      ensures var opening := OpenFile(TableFile(Merged(CollectAll(hash, tables)), interval,
                                                FilterFor(hash, numBits, numHashes, Merged(CollectAll(hash, tables)))));
              opening.Opened? && LookupIn(hash, opening.table, key) == Answer(Find(Merged(TakenBut(ss, j, k)), key))
    {
      CompactedDamaged(hash, ss, j, k, bad, interval, numBits, numHashes, key);
    }
    CompactedDamaged(hash, ss, j, k, bad, interval, numBits, numHashes, []);
    outcome, file, l1 := CompactL0ToL1(hash, readers, tables, coins, numBits, numHashes, interval);
  }

  lemma TablesCount(hash: Hash, ss: seq<Source>, j: nat, k: nat, bad: seq<byte>)
    requires AllGood(ss) && j < |ss| && k < |ss[j].records| && |bad| == Size(ss[j].records[k])
    ensures |DamagedTables(hash, ss, j, k, bad)| == |ss|
  {
    hide Good, DamagedTable;
  }
}
