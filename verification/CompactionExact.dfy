/** Exactly when compaction keeps what clients see (pkg/storage/compaction.go:58-111, pkg/storage/sstable.go:105-112). */
module CompactionExact {
  import opened Bytes
  import opened Records
  import opened OrderedMap
  import opened Wal
  import opened Bloom
  import opened SSTableFormat
  import opened SSTableLookup
  import opened CompactionMeaning

  /** A table as it was built. Tables are listed oldest first. */
  datatype Source = Source(records: seq<Record>, interval: nat, numBits: nat, numHashes: nat)

  predicate Good(s: Source) {
    && Ascending(s.records) && AllFit(s.records) && s.interval > 0 && s.numBits > 0
    && |Encoded(s.records)| < TWO_TO_63
  }

  predicate AllGood(ss: seq<Source>) {
    forall j :: 0 <= j < |ss| ==> Good(ss[j])
  }

  function SourceTable(hash: Hash, s: Source): Table
    requires Good(s)
  {
    BuiltTable(s.records, s.interval, FilterOf(hash, s.numBits, s.numHashes, Keys(s.records)))
  }

  function SourceTables(hash: Hash, ss: seq<Source>): (tables: seq<Option<Table>>)
    requires AllGood(ss)
    ensures |tables| == |ss|
  {
    if ss == [] then []
    else SourceTables(hash, ss[..|ss| - 1]) + [Some(SourceTable(hash, ss[|ss| - 1]))]
  }

  /** Every `interval`-th of the first `n` records. */
  function Indexed(rs: seq<Record>, n: nat, interval: nat): seq<Record>
    requires n <= |rs|
  {
    if n == 0 then []
    else if interval > 0 && (n - 1) % interval == 0 then Indexed(rs, n - 1, interval) + [rs[n - 1]]
    else Indexed(rs, n - 1, interval)
  }

  /** All records of all tables, oldest table first. */
  function Written(ss: seq<Source>): seq<Record> {
    if ss == [] then [] else Written(ss[..|ss| - 1]) + ss[|ss| - 1].records
  }

  /** The indexed records of all tables, oldest table first. */
  function Taken(ss: seq<Source>): seq<Record> {
    if ss == [] then []
    else
      var last := ss[|ss| - 1];
      Taken(ss[..|ss| - 1]) + Indexed(last.records, |last.records|, last.interval)
  }

  // ---------- What the compactor takes ----------

  lemma {:induction false} CollectIndexed(hash: Hash, s: Source, n: nat)
    requires Good(s) && n <= |s.records|
    ensures Collect(hash, SourceTable(hash, s), IndexOf(s.records, n, s.interval)) == Indexed(s.records, n, s.interval)
  {
    hide SourceTable, LookupIn, Encoded, Find, Ascending, AllFit;
    if n > 0 {
      CollectIndexed(hash, s, n - 1);
      if (n - 1) % s.interval == 0 {
        var front, r := IndexOf(s.records, n - 1, s.interval), s.records[n - 1];
        assert IndexOf(s.records, n, s.interval)[..|front|] == front;
        SourceLookup(hash, s, r.key);
        FindAt(s.records, n - 1);
      }
    }
  }

  lemma SourceLookup(hash: Hash, s: Source, key: seq<byte>)
    requires Good(s)
    ensures LookupIn(hash, SourceTable(hash, s), key) == Answer(Find(s.records, key))
  {
    hide LookupIn, BuiltTable, FilterOf, Find, Ascending, AllFit, Encoded;
    LookupRefinesFind(hash, s.records, s.interval, s.numBits, s.numHashes, key);
  }

  /** From tables in good order the compactor takes exactly the indexed records. */
  lemma {:induction false} CollectTaken(hash: Hash, ss: seq<Source>)
    requires AllGood(ss)
    ensures CollectAll(hash, SourceTables(hash, ss)) == Taken(ss)
  {
    hide SourceTable, Collect, Indexed, Good, IndexOf;
    if ss != [] {
      var front, last := ss[..|ss| - 1], ss[|ss| - 1];
      CollectTaken(hash, front);
      TableIndex(hash, last);
      CollectIndexed(hash, last, |last.records|);
      assert SourceTables(hash, ss)[..|ss| - 1] == SourceTables(hash, front);
    }
  }

  lemma TableIndex(hash: Hash, s: Source)
    requires Good(s)
    ensures SourceTable(hash, s).index == IndexOf(s.records, |s.records|, s.interval)
  {
    hide IndexOf, FilterOf, TableFile, Encoded;
  }

  // ---------- Which records are indexed ----------

  lemma {:induction false} IndexedHas(rs: seq<Record>, n: nat, interval: nat, p: nat)
    requires Ascending(rs) && n <= |rs| && interval > 0 && p < n && p % interval == 0
    ensures LastWrite(Indexed(rs, n, interval), rs[p].key) == Some(rs[p])
  {
    hide Less;
    if p < n - 1 {
      IndexedHas(rs, n - 1, interval, p);
      LessAsymmetric(rs[p].key, rs[n - 1].key);
      assert (Indexed(rs, n - 1, interval) + [rs[n - 1]])[..|Indexed(rs, n - 1, interval)|] ==
             Indexed(rs, n - 1, interval);
    }
  }

  lemma {:induction false} IndexedLacks(rs: seq<Record>, n: nat, interval: nat, key: seq<byte>)
    requires n <= |rs| && interval > 0
    requires forall p :: 0 <= p < n && rs[p].key == key ==> p % interval != 0
    ensures LastWrite(Indexed(rs, n, interval), key) == None
  {
    if n > 0 {
      IndexedLacks(rs, n - 1, interval, key);
      assert (Indexed(rs, n - 1, interval) + [rs[n - 1]])[..|Indexed(rs, n - 1, interval)|] ==
             Indexed(rs, n - 1, interval);
    }
  }

  /** With interval 1 everything is indexed. */
  lemma {:induction false} IndexedAll(rs: seq<Record>, n: nat)
    requires n <= |rs|
    ensures Indexed(rs, n, 1) == rs[..n]
  {
    if n > 0 {
      IndexedAll(rs, n - 1);
      assert rs[..n] == rs[..n - 1] + [rs[n - 1]];
    }
  }

  predicate Lacks(rs: seq<Record>, key: seq<byte>) {
    forall p :: 0 <= p < |rs| ==> rs[p].key != key
  }

  predicate IsIndexed(s: Source, p: nat) {
    s.interval > 0 && p % s.interval == 0
  }

  // ---------- The newest record of a key ----------

  /** No later table holds the key of record `p` of table `j`. */
  ghost predicate Newest(ss: seq<Source>, j: nat, p: nat)
    requires j < |ss| && p < |ss[j].records|
  {
    forall j', p' :: j < j' < |ss| && 0 <= p' < |ss[j'].records| ==> ss[j'].records[p'].key != ss[j].records[p].key
  }

  /** What the tables hold on `key`, if anything: the record `(j, p)` that a newest-wins merge keeps. */
  ghost predicate Decides(ss: seq<Source>, key: seq<byte>, j: nat, p: nat) {
    && j < |ss| && p < |ss[j].records| && ss[j].records[p].key == key && Newest(ss, j, p)
    && LastWrite(Written(ss), key) == Some(ss[j].records[p])
    && LastWrite(Taken(ss), key) ==
         if IsIndexed(ss[j], p) then Some(ss[j].records[p]) else LastWrite(Taken(ss[..j]), key)
  }

  lemma LastTableHas(ss: seq<Source>, key: seq<byte>, p: nat)
    requires AllGood(ss) && ss != [] && p < |ss[|ss| - 1].records| && ss[|ss| - 1].records[p].key == key
    ensures Decides(ss, key, |ss| - 1, p)
  {
    hide Encoded, Less, AllFit;
    var front, last := ss[..|ss| - 1], ss[|ss| - 1];
    LastWriteConcat(Written(front), last.records, key);
    FindAt(last.records, p);
    LastWriteFind(last.records, key);
    LastWriteConcat(Taken(front), Indexed(last.records, |last.records|, last.interval), key);
    if p % last.interval == 0 {
      IndexedHas(last.records, |last.records|, last.interval, p);
    } else {
      forall p' | 0 <= p' < |last.records| && last.records[p'].key == key
        ensures p' == p
      {
        InOrder(last.records, if p < p' then p else p', if p < p' then p' else p);
        LessIrreflexive(key);
      }
      IndexedLacks(last.records, |last.records|, last.interval, key);
    }
  }

  lemma LessIrreflexive(key: seq<byte>)
    ensures !Less(key, key)
  {
    if Less(key, key) {
      LessAsymmetric(key, key);
    }
  }

  lemma LastTableLacks(ss: seq<Source>, key: seq<byte>)
    requires AllGood(ss) && ss != []
    requires Lacks(ss[|ss| - 1].records, key)
    ensures LastWrite(Written(ss), key) == LastWrite(Written(ss[..|ss| - 1]), key)
    ensures LastWrite(Taken(ss), key) == LastWrite(Taken(ss[..|ss| - 1]), key)
  {
    hide Encoded, Less, AllFit;
    var front, last := ss[..|ss| - 1], ss[|ss| - 1];
    LastWriteConcat(Written(front), last.records, key);
    FindAbsent(last.records, key);
    LastWriteFind(last.records, key);
    LastWriteConcat(Taken(front), Indexed(last.records, |last.records|, last.interval), key);
    IndexedLacks(last.records, |last.records|, last.interval, key);
  }

  lemma {:induction false} DecidesLater(ss: seq<Source>, key: seq<byte>, j: nat, p: nat)
    requires AllGood(ss) && ss != [] && Decides(ss[..|ss| - 1], key, j, p)
    requires Lacks(ss[|ss| - 1].records, key)
    ensures Decides(ss, key, j, p)
  {
    hide LastWrite, Written, Taken, Good;
    LastTableLacks(ss, key);
    assert ss[..|ss| - 1][..j] == ss[..j];
  }

  /** Every key either is in no table or has a deciding record. */
  lemma {:induction false} KeyCases(ss: seq<Source>, key: seq<byte>) returns (held: bool, j: nat, p: nat)
    requires AllGood(ss)
    ensures held ==> Decides(ss, key, j, p)
    ensures !held ==> LastWrite(Written(ss), key) == None && LastWrite(Taken(ss), key) == None
  {
    hide Decides, Good;
    held, j, p := false, 0, 0;
    if ss != [] {
      var rs := ss[|ss| - 1].records;
      if q :| 0 <= q < |rs| && rs[q].key == key {
        LastTableHas(ss, key, q);
        held, j, p := true, |ss| - 1, q;
      } else {
        held, j, p := KeyCases(ss[..|ss| - 1], key);
        LastTableLacks(ss, key);
        if held {
          DecidesLater(ss, key, j, p);
        }
      }
    }
  }

  /** The newest record of a key is the one that decides. */
  lemma NewestDecides(ss: seq<Source>, j: nat, p: nat)
    requires AllGood(ss) && j < |ss| && p < |ss[j].records| && Newest(ss, j, p)
    ensures Decides(ss, ss[j].records[p].key, j, p)
    decreases |ss|
  {
    hide Written, Taken, LastWrite, Good, Decides;
    var key := ss[j].records[p].key;
    if j == |ss| - 1 {
      LastTableHas(ss, key, p);
    } else {
      var front := ss[..|ss| - 1];
      assert front[j] == ss[j];
      NewestDecides(front, j, p);
      DecidesLater(ss, key, j, p);
    }
  }

  // ---------- Preservation ----------

  /** Every client lookup gives the same before and after: newest table wins, tombstones hide. */
  ghost predicate Preserves(ss: seq<Source>) {
    forall key :: Visible(Find(Merged(Taken(ss)), key)) == Visible(LastWrite(Written(ss), key))
  }

  /**
   * The newest record of a key is not indexed only where the newest indexed one in the older tables makes clients
   * see the same.
   */
  ghost predicate Masked(ss: seq<Source>) {
    forall j, p {:trigger Newest(ss, j, p)} |
      0 <= j < |ss| && 0 <= p < |ss[j].records| && Newest(ss, j, p) && !IsIndexed(ss[j], p) ::
      Visible(Some(ss[j].records[p])) == Visible(LastWrite(Taken(ss[..j]), ss[j].records[p].key))
  }

  /** The only key clients see is the sentinel's, with the sentinel's value. */
  ghost predicate OnlySentinel(ss: seq<Source>) {
    && (exists j, p :: 0 <= j < |ss| && 0 <= p < |ss[j].records| && Newest(ss, j, p) && ss[j].records[p] == SENTINEL)
    && (forall j, p {:trigger Newest(ss, j, p)} |
          0 <= j < |ss| && 0 <= p < |ss[j].records| && Newest(ss, j, p) && ss[j].records[p].key != SENTINEL_KEY ::
          ss[j].records[p].tombstone)
  }

  /** One key: it reads the same in the taken records exactly when its deciding record is indexed or masked. */
  lemma KeyPreserved(ss: seq<Source>, key: seq<byte>)
    requires AllGood(ss) && Masked(ss)
    ensures Visible(LastWrite(Taken(ss), key)) == Visible(LastWrite(Written(ss), key))
  {
    hide Good, Written, Taken, LastWrite;
    var held, j, p := KeyCases(ss, key);
    if held {
      assert Newest(ss, j, p);
    }
  }

  /** While some indexed newest record is live, compaction preserves exactly when every unindexed one is masked. */
  lemma PreservedWhenLive(ss: seq<Source>)
    requires AllGood(ss) && Live(Play(Taken(ss))) != []
    ensures Preserves(ss) <==> Masked(ss)
  {
    hide Good, Written, Taken, LastWrite, Live, Play, Merged, Find, Newest, Visible;
    forall key
      ensures Visible(Find(Merged(Taken(ss)), key)) == Visible(LastWrite(Taken(ss), key))
    {
      MergedFind(Taken(ss), key);
    }
    if Masked(ss) {
      forall key
        ensures Visible(Find(Merged(Taken(ss)), key)) == Visible(LastWrite(Written(ss), key))
      {
        KeyPreserved(ss, key);
      }
    }
    if Preserves(ss) {
      forall j, p | 0 <= j < |ss| && 0 <= p < |ss[j].records| && Newest(ss, j, p) && !IsIndexed(ss[j], p)
        ensures Visible(Some(ss[j].records[p])) == Visible(LastWrite(Taken(ss[..j]), ss[j].records[p].key))
      {
        NewestDecides(ss, j, p);
        assert Visible(Find(Merged(Taken(ss)), ss[j].records[p].key)) ==
               Visible(LastWrite(Written(ss), ss[j].records[p].key));
      }
    }
  }

  /** Where no indexed newest record is live, the sentinel is all that clients see afterwards. */
  lemma PreservedWhenDead(ss: seq<Source>)
    requires AllGood(ss) && Live(Play(Taken(ss))) == []
    ensures Preserves(ss) <==> OnlySentinel(ss)
  {
    hide Good, Written, Taken, LastWrite, Live, Play, Merged, Find, Newest;
    if OnlySentinel(ss) {
      forall key
        ensures Visible(Find(Merged(Taken(ss)), key)) == Visible(LastWrite(Written(ss), key))
      {
        MergedFind(Taken(ss), key);
        DeadKey(ss, key);
      }
    }
    if Preserves(ss) {
      MergedFind(Taken(ss), SENTINEL_KEY);
      assert Visible(LastWrite(Written(ss), SENTINEL_KEY)) == Some(SENTINEL_VALUE);
      var held, j0, p0 := KeyCases(ss, SENTINEL_KEY);
      assert Newest(ss, j0, p0) && ss[j0].records[p0] == SENTINEL;
      forall j, p | 0 <= j < |ss| && 0 <= p < |ss[j].records| && Newest(ss, j, p) && ss[j].records[p].key != SENTINEL_KEY
        ensures ss[j].records[p].tombstone
      {
        NewestDecides(ss, j, p);
        MergedFind(Taken(ss), ss[j].records[p].key);
        assert Visible(Find(Merged(Taken(ss)), ss[j].records[p].key)) ==
               Visible(LastWrite(Written(ss), ss[j].records[p].key));
      }
    }
  }

  lemma DeadKey(ss: seq<Source>, key: seq<byte>)
    requires AllGood(ss) && OnlySentinel(ss)
    ensures Visible(LastWrite(Written(ss), key)) == if key == SENTINEL_KEY then Some(SENTINEL_VALUE) else None
  {
    hide Good, Written, Taken, LastWrite, Newest;
    if key == SENTINEL_KEY {
      var j, p :| 0 <= j < |ss| && 0 <= p < |ss[j].records| && Newest(ss, j, p) && ss[j].records[p] == SENTINEL;
      NewestDecides(ss, j, p);
    } else {
      var held, j, p := KeyCases(ss, key);
      if held {
        assert Newest(ss, j, p);
      }
    }
  }

  /** Exactly when compaction changes nothing for clients. */
  lemma PreservesExactly(ss: seq<Source>)
    requires AllGood(ss)
    ensures Preserves(ss) <==> if Live(Play(Taken(ss))) != [] then Masked(ss) else OnlySentinel(ss)
  {
    hide *;
    if Live(Play(Taken(ss))) != [] {
      PreservedWhenLive(ss);
    } else {
      PreservedWhenDead(ss);
    }
  }

  /** With interval 1 the new table is the full newest-wins merge. */
  lemma {:induction false} FullMerge(ss: seq<Source>)
    requires AllGood(ss) && forall j :: 0 <= j < |ss| ==> ss[j].interval == 1
    ensures Taken(ss) == Written(ss)
    ensures Live(Play(Written(ss))) != [] ==> Preserves(ss)
  {
    hide Good, Live, Play, Merged, Find, LastWrite, Visible;
    if ss != [] {
      var rs := ss[|ss| - 1].records;
      FullMerge(ss[..|ss| - 1]);
      IndexedAll(rs, |rs|);
      assert rs[..|rs|] == rs;
    }
    if Live(Play(Written(ss))) != [] {
      forall key
        ensures Visible(Find(Merged(Taken(ss)), key)) == Visible(LastWrite(Written(ss), key))
      {
        MergedFind(Taken(ss), key);
      }
    }
  }

  // ---------- Where it does not ----------

  /** With any interval above 1, a key that is in the only table is gone afterwards. */
  lemma LostKey(interval: nat)
    requires interval >= 2
    ensures var rs := [Record([1], [10], false), Record([2], [20], false)];
            var ss := [Source(rs, interval, 64, 1)];
            && AllGood(ss)
            && Visible(LastWrite(Written(ss), [2])) == Some([20])
            && Visible(Find(Merged(Taken(ss)), [2])) == None
            && !Preserves(ss)
  {
    hide Good, Live, Play, Merged, Find;
    var rs := [Record([1], [10], false), Record([2], [20], false)];
    var ss := [Source(rs, interval, 64, 1)];
    PairGood(rs[0], rs[1], interval);
    assert rs == [rs[0], rs[1]];
    PairTaken(rs[0], rs[1], interval);
    assert LastWrite([rs[0]], [2]) == None;
    assert Visible(LastWrite(Written(ss), [2])) == Some([20]);
    MergedFind(Taken(ss), [2]);
  }

  lemma PairGood(a: Record, b: Record, interval: nat)
    requires interval > 0 && Less(a.key, b.key) && Size(a) + Size(b) < TWO_TO_32
    ensures Good(Source([a, b], interval, 64, 1))
  {
    hide Encode, Less;
    EncodedConcat([a], [b]);
    assert [a] + [b] == [a, b];
    assert [a][1..] == [] && [b][1..] == [];
  }

  lemma PairTaken(a: Record, b: Record, interval: nat)
    requires interval >= 2
    ensures Written([Source([a, b], interval, 64, 1)]) == [a, b]
    ensures Taken([Source([a, b], interval, 64, 1)]) == [a]
  {
    var rs := [a, b];
    var ss := [Source(rs, interval, 64, 1)];
    assert ss[..0] == [];
    assert Indexed(rs, 1, interval) == [a];
    assert Indexed(rs, 2, interval) == [a];
  }

  /** With any interval above 1, a deleted key can come back with its old value. */
  lemma ResurrectedKey(interval: nat)
    requires interval >= 2
    ensures var first := [Record([2], [20], false), Record([3], [30], false)];
            var second := [Record([1], [10], false), Record([2], [], true)];
            var ss := [Source(first, interval, 64, 1), Source(second, interval, 64, 1)];
            && AllGood(ss)
            && Visible(LastWrite(Written(ss), [2])) == None
            && Visible(Find(Merged(Taken(ss)), [2])) == Some([20])
            && !Preserves(ss)
  {
    hide Good, Live, Play, Merged, Find, Indexed;
    var first := [Record([2], [20], false), Record([3], [30], false)];
    var second := [Record([1], [10], false), Record([2], [], true)];
    var s1, s2 := Source(first, interval, 64, 1), Source(second, interval, 64, 1);
    PairGood(first[0], first[1], interval);
    PairGood(second[0], second[1], interval);
    assert first == [first[0], first[1]] && second == [second[0], second[1]];
    PairTaken(first[0], first[1], interval);
    PairTaken(second[0], second[1], interval);
    TwoSources(s1, s2);
    LastWriteConcat(Written([s1]), Written([s2]), [2]);
    LastWriteConcat(Taken([s1]), Taken([s2]), [2]);
    assert LastWrite([second[0]], [2]) == None && LastWrite([first[0]], [2]) == Some(first[0]);
    assert LastWrite(second, [2]) == Some(second[1]);
    MergedFind(Taken([s1, s2]), [2]);
  }

  lemma TwoSources(s1: Source, s2: Source)
    ensures Written([s1, s2]) == Written([s1]) + Written([s2])
    ensures Taken([s1, s2]) == Taken([s1]) + Taken([s2])
  {
    hide Indexed;
    assert [s1, s2][..1] == [s1] && [s2][..0] == [];
    assert [] + s2.records == s2.records;
    var taken := Indexed(s2.records, |s2.records|, s2.interval);
    assert [] + taken == taken;
  }

  /** When everything has been deleted, compaction makes up a key. */
  lemma InventedKey(key: seq<byte>)
    requires Fits(Record(key, [], true)) && key != SENTINEL_KEY
    ensures var ss := [Source([Record(key, [], true)], 1, 64, 1)];
            && AllGood(ss)
            && Visible(LastWrite(Written(ss), SENTINEL_KEY)) == None
            && Visible(Find(Merged(Taken(ss)), SENTINEL_KEY)) == Some(SENTINEL_VALUE)
            && !Preserves(ss)
  {
    hide Encode, Live, Play, Merged, Find;
    var r := Record(key, [], true);
    var ss := [Source([r], 1, 64, 1)];
    assert [r][1..] == [];
    assert |Encoded([r])| == Size(r);
    FullMerge(ss);
    assert ss[..0] == [] && [] + [r] == [r];
    assert Written(ss) == [r];
    forall k
      ensures Visible(LastWrite([r], k)) == None
    {
      assert [r][..0] == [];
    }
    NothingLive([r]);
    MergedFind([r], SENTINEL_KEY);
  }

  lemma NothingLive(ops: seq<Record>)
    requires forall k :: Visible(LastWrite(ops, k)) == None
    ensures Live(Play(ops)) == []
  {
    hide *;
    PlayAscending(ops);
    LiveAscending(Play(ops));
    NothingAscending();
    forall k
      ensures Find(Live(Play(ops)), k) == Find([], k)
    {
      FindPlay(ops, k);
      FindLive(Play(ops), k);
      assert Visible(LastWrite(ops, k)) == None;
      NotVisible(LastWrite(ops, k));
      FindAbsent([], k);
    }
    AscendingUnique(Live(Play(ops)), []);
  }

  lemma NotVisible(r: Option<Record>)
    requires Visible(r) == None
    ensures r.None? || r.value.tombstone
  {
  }
}
