/** What compacting tables into one means for lookups (pkg/storage/compaction.go:58-111). */
module CompactionMeaning {
  import opened Bytes
  import opened Records
  import opened OrderedMap
  import opened Bloom
  import opened SSTableFormat
  import opened SSTableLookup

  /** The key written when nothing live is left: "__abyss_compaction_sentinel__". */
  const SENTINEL_KEY: seq<byte> := [
    95, 95, 97, 98, 121, 115, 115, 95, 99, 111, 109, 112, 97, 99, 116, 105, 111, 110,
    95, 115, 101, 110, 116, 105, 110, 101, 108, 95, 95]

  /** "ok" */
  const SENTINEL_VALUE: seq<byte> := [111, 107]

  const SENTINEL := Record(SENTINEL_KEY, SENTINEL_VALUE, false)

  // ---------- Taking records from a table ----------

  function FoundRecord(key: seq<byte>, r: Lookup): seq<Record> {
    match r
    case Found(value, tombstone) => [Record(key, value, tombstone)]
    case _ => []
  }

  /** What looking up the given index entries of a table yields; failed lookups are passed over. */
  function Collect(hash: Hash, t: Table, index: seq<IndexEntry>): seq<Record> {
    if index == [] then []
    else
      var last := index[|index| - 1];
      Collect(hash, t, index[..|index| - 1]) + FoundRecord(last.key, LookupIn(hash, t, last.key))
  }

  /** A closed reader finds nothing. */
  function Contribution(hash: Hash, t: Option<Table>): seq<Record> {
    if t.Some? then Collect(hash, t.value, t.value.index) else []
  }

  function CollectAll(hash: Hash, tables: seq<Option<Table>>): seq<Record> {
    if tables == [] then []
    else CollectAll(hash, tables[..|tables| - 1]) + Contribution(hash, tables[|tables| - 1])
  }

  // ---------- What goes into the new table ----------

  /** The records that are not tombstones. */
  function Live(es: seq<Record>): (live: seq<Record>)
    ensures forall r :: r in live ==> r in es
  {
    if es == [] then [] else (if es[0].tombstone then [] else [es[0]]) + Live(es[1..])
  }

  /** The newest record per key without tombstones, or the sentinel when that leaves nothing. */
  function Merged(ops: seq<Record>): seq<Record> {
    var live := Live(Play(ops));
    if live == [] then [SENTINEL] else live
  }

  lemma {:induction false} LiveAscending(es: seq<Record>)
    requires Ascending(es)
    ensures Ascending(Live(es))
  {
    hide Less;
    if es != [] {
      LiveAscending(es[1..]);
      var rest := Live(es[1..]);
      forall j | 0 <= j < |rest|
        ensures Less(es[0].key, rest[j].key)
      {
        assert rest[j] in es[1..];
        var i :| 0 <= i < |es[1..]| && es[1..][i] == rest[j];
        assert es[i + 1] == rest[j];
      }
    }
  }

  /** A key is found live exactly when its record is not a tombstone. */
  lemma {:induction false} FindLive(es: seq<Record>, key: seq<byte>)
    requires Ascending(es)
    ensures Find(Live(es), key) ==
            if Find(es, key).Some? && !Find(es, key).value.tombstone then Find(es, key) else None
  {
    hide Less;
    if es != [] {
      var rest := Live(es[1..]);
      SliceAscending(es, 1, |es|);
      FindLive(es[1..], key);
      TailLacksHead(es);
      if es[0].tombstone {
        assert Live(es) == rest;
      } else {
        assert Live(es) == [es[0]] + rest;
        assert Live(es)[1..] == rest;
      }
    }
  }

  lemma MergedAscending(ops: seq<Record>)
    ensures Ascending(Merged(ops))
  {
    hide Live, Play;
    PlayAscending(ops);
    LiveAscending(Play(ops));
  }

  /** The value a client sees: none where there is no record or a tombstone. */
  function Visible(r: Option<Record>): Option<seq<byte>> {
    if r.Some? && !r.value.tombstone then Some(r.value.value) else None
  }

  /** A lookup in the new table sees the last write to the key, as long as anything is live. */
  lemma MergedFind(ops: seq<Record>, key: seq<byte>)
    ensures Live(Play(ops)) != [] ==> Visible(Find(Merged(ops), key)) == Visible(LastWrite(ops, key))
    ensures Live(Play(ops)) == [] ==>
              Visible(LastWrite(ops, key)) == None
              && Visible(Find(Merged(ops), key)) == if key == SENTINEL_KEY then Some(SENTINEL_VALUE) else None
  {
    hide Live, Play;
    PlayAscending(ops);
    FindLive(Play(ops), key);
    FindPlay(ops, key);
    if Live(Play(ops)) == [] {
      FindSentinel(key);
      assert Find([], key) == None;
    }
  }

  lemma FindSentinel(key: seq<byte>)
    ensures Find([SENTINEL], key) == if key == SENTINEL_KEY then Some(SENTINEL) else None
  {
    assert [SENTINEL][1..] == [];
  }
}
