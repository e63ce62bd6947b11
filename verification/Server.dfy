/** The Stagway server's client operations and its recovery after a crash (pkg/network/server.go, cmd/hallownestd/main.go). */
module Server {
  import opened Bytes
  import opened Records
  import opened OrderedMap
  import opened Wal
  import opened MemTables
  import opened RaftTypes
  import opened RaftHandlers
  import opened RaftNodes

  datatype ServerError = NoError | ServerClosed | NotLeader

  /** What a write leaves in the table: a tombstone carries no value. */
  function Plain(r: Record): Record {
    if r.tombstone then Record(r.key, [], true) else r
  }

  function AllPlain(rs: seq<Record>): (ps: seq<Record>)
    ensures |ps| == |rs| && forall i :: 0 <= i < |rs| ==> ps[i] == Plain(rs[i])
  {
    if rs == [] then [] else AllPlain(rs[..|rs| - 1]) + [Plain(rs[|rs| - 1])]
  }

  /** Records the server writes: they fit, and tombstones carry no value. */
  predicate Writable(r: Record) {
    Fits(r) && Plain(r) == r
  }

  predicate AllWritable(rs: seq<Record>) {
    forall i :: 0 <= i < |rs| ==> Writable(rs[i])
  }

  // ---------- Recovery ----------

  /** Enter one replayed record. */
  method ApplyRecord(table: MemTable, r: Record, flips: seq<bool>)
    requires table.Valid()
    modifies table, table.nodes, Arrays(table.nodes)
    ensures table.Valid()
    ensures table.Entries() == Upsert(old(table.Entries()), if r.tombstone then Record(r.key, [], true) else r)
    ensures table.Grew()
  {
    if r.tombstone {
      var _ := table.Delete(r.key, flips);
    } else {
      var _ := table.Put(r.key, r.value, flips);
    }
  }

  lemma PlayNext(ops: seq<Record>, r: Record)
    ensures Play(ops + [r]) == Upsert(Play(ops), r)
  {
    hide Upsert;
    assert (ops + [r])[..|ops|] == ops;
  }

  /** Enter replayed records one after the other. */
  method ApplyAll(table: MemTable, records: seq<Record>, coins: nat -> seq<bool>)
    requires table.Valid() && table.Entries() == []
    modifies table, table.nodes, Arrays(table.nodes)
    ensures table.Valid() && table.Entries() == Play(AllPlain(records))
    ensures table.Grew()
  {
    hide Upsert, Total, Ascending, Linked, MemTable.Shaped, MemTable.Entries;
    for i := 0 to |records|
      invariant table.Valid() && table.Entries() == Play(AllPlain(records[..i]))
      invariant table.Grew()
    {
      assert forall j | 0 <= j < |table.nodes| :: table.nodes[j] in table.nodes;
      ApplyRecord(table, records[i], coins(i));
      PlayNext(AllPlain(records[..i]), Plain(records[i]));
      assert AllPlain(records[..i + 1]) == AllPlain(records[..i]) + [Plain(records[i])];
    }
    assert records[..|records|] == records;
  }

  /** Start up: replay the log into a new table, keeping what came before a bad record. */
  method Restart(file: seq<byte>, coins: nat -> seq<bool>) returns (table: MemTable, replayed: nat, end: End)
    ensures AllFresh(table) && table.Valid()
    ensures table.Entries() == Play(AllPlain(ScanAll(file).records))
    ensures replayed == |ScanAll(file).records| && end == ScanAll(file).end
  {
    hide ScanAll, Play, AllPlain, Linked, MemTable.Shaped, MemTable.Entries;
    var records;
    records, replayed, end := ReplayWAL([file]);
    OneSegment(file);
    table := new MemTable(DEFAULT_MAX_LEVEL, DEFAULT_FLUSH_THRESHOLD);
    ApplyAll(table, records, coins);
  }

  lemma OneSegment(file: seq<byte>)
    ensures ScanSegments([file]) == ScanAll(file)
  {
    hide ScanAll;
    assert [file][1..] == [];
    assert ScanAll(file).records + [] == ScanAll(file).records;
  }

  /** Replaying any prefix of a log the server wrote gives the contents after some prefix of its writes. */
  lemma CrashRecovery(ops: seq<Record>, cut: nat)
    requires AllWritable(ops) && cut <= |Encoded(ops)|
    ensures WholeBefore(ops, cut) <= |ops|
    ensures Play(AllPlain(ScanAll(Encoded(ops)[..cut]).records)) == Play(ops[..WholeBefore(ops, cut)])
    ensures ScanAll(Encoded(ops)[..cut]).end == Clean
    ensures cut == |Encoded(ops)| ==> WholeBefore(ops, cut) == |ops|
  {
    hide Encoded, ScanAll, WholeBefore, Play, Fits;
    var k := WholeBefore(ops, cut);
    TornTail(ops, cut);
    assert AllPlain(ops[..k]) == ops[..k];
    WholeBeforeExact(ops, cut, |ops|);
    assert ops[..|ops|] == ops;
  }

  // ---------- The server ----------

  /** `raft`, `table` and `wal` may each be missing; without `raft` the server writes on its own. */
  class StagwayServer {
    const raft: RaftNode?
    const table: MemTable?
    const wal: WAL?
    var running: bool

    /** What the log file held when the server was created, and the writes the table then held. */
    ghost const base: seq<byte>
    ghost const held: seq<Record>

    /** Every write accepted since. */
    ghost var written: seq<Record>

    /** Those of them the log took. */
    ghost var logged: seq<Record>

    ghost function Repr(): set<object>
      reads this, if table == null then {} else {table}
    {
      {this as object}
      + (if raft == null then {} else {raft as object})
      + (if wal == null then {} else {wal as object})
      + (if table == null then {} else table.Repr())
    }

    /** The table holds the effect of all writes; the log has taken their encodings, all of them while it is open. */
    ghost predicate Valid()
      reads this, Repr()
    {
      && AllWritable(written)
      && (raft != null ==> InBounds(raft.State()))
      && (table != null ==> table.Valid() && table.Entries() == Play(held + written))
      && (wal != null ==> wal.Valid() && wal.file == base + Encoded(logged) && (!wal.closed ==> logged == written))
    }

    /** A server over a log file of any contents; `held` is some history of the table. */
    constructor (raft: RaftNode?, table: MemTable?, wal: WAL?, ghost held: seq<Record>)
      requires raft != null ==> InBounds(raft.State())
      requires table != null ==> table.Valid() && table.Entries() == Play(held)
      requires wal != null ==> wal.Valid()
      ensures Valid() && !running && this.held == held && written == [] && (wal != null ==> base == wal.file)
      ensures this.raft == raft && this.table == table && this.wal == wal
    {
      hide Linked, MemTable.Shaped, MemTable.Entries, Encoded, Play, InBounds, Total, Ascending;
      this.raft, this.table, this.wal, this.held := raft, table, wal, held;
      running := false;
      written, logged := [], [];
      base := if wal == null then [] else wal.file;
      new;
      NothingEncoded();
      assert held + [] == held && base + [] == base;
      if table != null {
        StaysLinked(table.nodes);
      }
    }

    method Start()
      modifies this`running
      ensures running
    {
      running := true;
    }

    method Stop()
      modifies this`running
      ensures !running
    {
      running := false;
    }

    /** Write to the log, if there is one. A closed log's refusal is ignored. */
    method WriteLog(r: Record)
      requires wal != null ==> wal.Valid() && wal.file == base + Encoded(logged)
      requires Fits(r)
      modifies this`logged, if wal == null then {} else {wal}
      ensures wal != null ==>
        wal.Valid() && wal.file == base + Encoded(logged) && wal.closed == old(wal.closed)
        && logged == old(logged) + (if wal.closed then [] else [r])
    {
      hide Encode, Encoded, Fits;
      if wal != null {
        var _, ok := wal.Append(r.key, r.value, r.tombstone);
        if ok {
          EncodedNext(logged, r);
          Associative(base, Encoded(logged), Encode(r));
          logged := logged + [r];
        } else {
          assert logged + [] == logged;
        }
      }
    }

    /** Write to the table, if there is one. */
    method WriteTable(r: Record, flips: seq<bool>)
      requires Plain(r) == r && (table != null ==> table.Valid())
      modifies if table == null then {} else table.Repr()
      ensures table != null ==> table.Valid() && table.Entries() == Upsert(old(table.Entries()), r)
      ensures forall o :: o in Repr() ==> o in old(Repr()) || fresh(o)
      ensures unchanged(this) && (raft != null ==> unchanged(raft)) && (wal != null ==> unchanged(wal))
    {
      hide Upsert, MemTable.Valid, MemTable.Entries;
      if table != null {
        ApplyRecord(table, r, flips);
      }
    }

    /** Log a write, then enter it into the table. */
    method Store(r: Record, flips: seq<bool>)
      requires Valid() && Writable(r)
      modifies Repr()
      ensures raft != null ==> unchanged(raft)
      ensures (forall o :: o in Repr() ==> o in old(Repr()) || fresh(o))
      ensures Valid() && running == old(running) && written == old(written) + [r]
    {
      hide MemTable.Valid, MemTable.Entries, MemTable.Repr, Encoded, Play, InBounds, Upsert, Fits;
      WriteLog(r);
      PlayNext(held + written, r);
      assert held + written + [r] == held + (written + [r]);
      written := written + [r];
      if table != null {
        table.Stays();
      }
      assert Repr() == old(Repr());
      WriteTable(r, flips);
    }

    /** Take a write: refused when closed or not leading, otherwise logged and entered into the table at once. */
    method Write(r: Record, flips: seq<bool>) returns (index: int, term: int, ok: bool, error: ServerError)
      requires Valid() && Writable(r)
      modifies Repr()
      ensures (forall o :: o in Repr() ==> o in old(Repr()) || fresh(o))
      ensures Valid() && running == old(running)
      ensures !running ==> (index, term, ok, error) == (-1, -1, false, ServerClosed)
      ensures ok <==> running && (raft == null || old(raft.role) == Leader)
      ensures running && !ok ==> index == -1 && term == raft.currentTerm && error == NotLeader
      ensures ok ==> error == NoError && written == old(written) + [r]
      ensures !ok ==> written == old(written) && logged == old(logged)
      ensures ok && raft != null ==>
        raft.State() == Submit(old(raft.State()), r.key, r.value, r.tombstone) && index == |raft.log| - 1
      ensures ok && raft != null ==> term == raft.currentTerm
      ensures ok && raft == null ==> index == 1 && term == 1
    {
      hide Linked, MemTable.Shaped, MemTable.Entries, Encoded, Play, InBounds, Total, Ascending, Upsert, Fits;
      if !running {
        return -1, -1, false, ServerClosed;
      }
      index, term, ok, error := 1, 1, true, NoError;
      if raft != null {
        var at, now, isLeader, _ := raft.SubmitCommand(r.key, r.value, r.tombstone);
        if table != null {
          table.Stays();
        }
        if !isLeader {
          return -1, now, false, NotLeader;
        }
        index, term := at, now;
      }
      Store(r, flips);
    }

    /** Write a value. */
    method PutGeo(key: seq<byte>, value: seq<byte>, flips: seq<bool>) returns (index: int, term: int, ok: bool, error: ServerError)
      requires Valid() && Fits(Record(key, value, false))
      modifies Repr()
      ensures (forall o :: o in Repr() ==> o in old(Repr()) || fresh(o))
      ensures Valid() && running == old(running)
      ensures !running ==> (index, term, ok, error) == (-1, -1, false, ServerClosed)
      ensures ok <==> running && (raft == null || old(raft.role) == Leader)
      ensures running && !ok ==> index == -1 && term == raft.currentTerm && error == NotLeader
      ensures written == old(written) + if ok then [Record(key, value, false)] else []
      ensures ok ==> error == NoError && (raft == null ==> index == 1 && term == 1)
      ensures ok && raft != null ==> index == |raft.log| - 1 && term == raft.currentTerm
    {
      index, term, ok, error := Write(Record(key, value, false), flips);
    }

    /** Write a deletion. */
    method FocusTombstone(key: seq<byte>, flips: seq<bool>) returns (index: int, term: int, ok: bool, error: ServerError)
      requires Valid() && Fits(Record(key, [], true))
      modifies Repr()
      ensures (forall o :: o in Repr() ==> o in old(Repr()) || fresh(o))
      ensures Valid() && running == old(running)
      ensures !running ==> (index, term, ok, error) == (-1, -1, false, ServerClosed)
      ensures ok <==> running && (raft == null || old(raft.role) == Leader)
      ensures running && !ok ==> index == -1 && term == raft.currentTerm && error == NotLeader
      ensures written == old(written) + if ok then [Record(key, [], true)] else []
      ensures ok ==> error == NoError && (raft == null ==> index == 1 && term == 1)
      ensures ok && raft != null ==> index == |raft.log| - 1 && term == raft.currentTerm
    {
      index, term, ok, error := Write(Record(key, [], true), flips);
    }

    /** Read from the table alone: the most recent accepted write to the key. */
    method GetGeo(key: seq<byte>) returns (value: seq<byte>, tombstone: bool, found: bool, error: ServerError)
      requires Valid()
      ensures error == if running then NoError else ServerClosed
      ensures !running || table == null ==> !found && !tombstone && value == []
      ensures running && table != null ==>
        found == LastWrite(held + written, key).Some?
        && (found ==> LastWrite(held + written, key) == Some(Record(key, value, tombstone)))
        && (!found ==> value == [] && !tombstone)
    {
      hide Find, LastWrite, Play, Encoded, MemTable.Entries;
      if !running {
        return [], false, false, ServerClosed;
      }
      value, tombstone, found, error := [], false, false, NoError;
      if table != null {
        FindPlay(held + written, key);
        value, tombstone, found := table.Get(key);
      }
    }

    /**
     * Started on a log that ends with a whole record, after any writes, a crash that leaves any prefix of the log:
     * restarting on it gives the table as it was after some prefix of all writes; restarting on all of it gives the
     * live table, and with it the same size.
     */
    lemma RestartAgrees(cut: nat)
      requires Valid() && wal != null && !wal.closed && table != null && cut <= |wal.file|
      requires AllWritable(held) && base == Encoded(held)
      ensures var ops := held + written;
        && WholeBefore(ops, cut) <= |ops| && ScanAll(wal.file[..cut]).end == Clean
        && Play(AllPlain(ScanAll(wal.file[..cut]).records)) == Play(ops[..WholeBefore(ops, cut)])
      ensures cut == |wal.file| ==>
        Play(AllPlain(ScanAll(wal.file).records)) == table.Entries()
        && Total(Play(AllPlain(ScanAll(wal.file).records))) == table.sizeBytes
    {
      hide Encoded, ScanAll, WholeBefore, Play, Writable, AllPlain;
      var ops := held + written;
      EncodedConcat(held, written);
      CrashRecovery(ops, cut);
      assert wal.file[..|wal.file|] == wal.file;
      assert ops[..|ops|] == ops;
    }

    /** A crash between two records leaves a log that ends with a whole record again, so the same holds ever after. */
    lemma CrashAtBoundary(k: nat)
      requires Valid() && wal != null && !wal.closed && AllWritable(held) && base == Encoded(held)
      requires k <= |held + written|
      ensures var ops := held + written; var cut := |Encoded(ops[..k])|;
        && cut <= |wal.file| && wal.file[..cut] == Encoded(ops[..k]) && AllWritable(ops[..k])
        && Play(AllPlain(ScanAll(wal.file[..cut]).records)) == Play(ops[..k])
    {
      hide Encoded, ScanAll, Play, Fits;
      var ops := held + written;
      EncodedConcat(held, written);
      EncodedConcat(ops[..k], ops[k..]);
      assert ops[..k] + ops[k..] == ops;
      ReadsAll(ops[..k]);
      assert AllPlain(ops[..k]) == ops[..k];
    }

    /**
     * Started on a log file of any contents: nothing more is read than at the start exactly when what was left unread
     * then, with the writes since behind it, does not begin with a good record; behind a refused record that is always
     * so. What is read otherwise need not be what was written (`Wal.StolenByte`).
     */
    lemma RestartLoses()
      requires Valid() && wal != null && !wal.closed
      ensures ScanAll(wal.file).records == ScanAll(base).records <==>
        !Parse(Unread(base) + Encoded(written)).Parsed?
      ensures ScanAll(base).end != Clean ==> ScanAll(wal.file) == ScanAll(base)
    {
      hide Encoded, Parse;
      ScanContinues(base, Encoded(written));
      var rest := ScanAll(Unread(base) + Encoded(written)).records;
      assert |ScanAll(base).records + rest| == |ScanAll(base).records| + |rest|;
      assert ScanAll(base).records + [] == ScanAll(base).records;
      if ScanAll(base).end != Clean {
        StuckForGood(base, Encoded(written));
      }
    }

    /** Started on a log read to its last byte, all writes since are recovered, and the live table with them. */
    lemma RestartRecovers()
      requires Valid() && wal != null && !wal.closed && table != null
      requires Unread(base) == [] && held == AllPlain(ScanAll(base).records)
      ensures ScanAll(wal.file) == Scan(ScanAll(base).records + written, Clean)
      ensures Play(AllPlain(ScanAll(wal.file).records)) == table.Entries()
    {
      hide Encoded, ScanAll, Play, Unread, Fits, AllPlain;
      ReopenedWhole(base, written);
      assert AllPlain(ScanAll(base).records + written) == held + written;
    }
  }

  /** Started on this log file, the server gets back after a restart whatever it writes. */
  ghost predicate KeepsWrites(base: seq<byte>) {
    forall ws :: AllWritable(ws) ==> ScanAll(base + Encoded(ws)).records == ScanAll(base).records + ws
  }

  /** It does exactly when start-up read the file to its last byte. */
  lemma RestartExactly(base: seq<byte>)
    ensures KeepsWrites(base) <==> Unread(base) == []
  {
    hide Encoded, Encode, ScanAll, Unread, Probe;
    if Unread(base) == [] {
      forall ws | AllWritable(ws)
        ensures ScanAll(base + Encoded(ws)).records == ScanAll(base).records + ws
      {
        ReopenedWhole(base, ws);
      }
    } else {
      var w := Probe(Unread(base));
      ProbeLost(base);
      OneEncoded(w);
      assert Writable(w) by { ProbeLive(Unread(base)); }
      assert AllWritable([w]);
    }
  }

  lemma ProbeLive(rest: seq<byte>)
    ensures !Probe(rest).tombstone
  {
  }

  lemma EncodedNext(rs: seq<Record>, r: Record)
    ensures Encoded(rs + [r]) == Encoded(rs) + Encode(r)
  {
    hide Encode;
    EncodedConcat(rs, [r]);
    assert [r][1..] == [];
    assert Encode(r) + [] == Encode(r);
  }
}
