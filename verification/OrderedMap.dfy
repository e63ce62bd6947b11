/** A map from keys to records as a list of records in strictly ascending key order. */
module OrderedMap {
  import opened Bytes
  import opened Records

  predicate Ascending(rs: seq<Record>) {
    forall i, j :: 0 <= i < j < |rs| ==> Less(rs[i].key, rs[j].key)
  }

  lemma AscendingIsLexicographic(rs: seq<Record>)
    ensures Ascending(rs) <==> forall i, j :: 0 <= i < j < |rs| ==> Precedes(rs[i].key, rs[j].key)
  {
    hide Less, Precedes;
    forall i, j | 0 <= i < j < |rs|
      ensures Less(rs[i].key, rs[j].key) <==> Precedes(rs[i].key, rs[j].key)
    {
      LessIsLexicographic(rs[i].key, rs[j].key);
    }
  }

  datatype Option<T> = None | Some(value: T)

  /** Linear lookup. */
  function Find(rs: seq<Record>, key: seq<byte>): (r: Option<Record>)
    ensures r.Some? ==> r.value in rs && r.value.key == key
  {
    if rs == [] then None else if rs[0].key == key then Some(rs[0]) else Find(rs[1..], key)
  }

  /** How many records come before `key`. */
  function Position(rs: seq<Record>, key: seq<byte>): (p: nat)
    ensures p <= |rs|
    ensures forall i :: 0 <= i < p ==> Less(rs[i].key, key)
    ensures p < |rs| ==> !Less(rs[p].key, key)
  {
    if rs == [] || !Less(rs[0].key, key) then 0 else 1 + Position(rs[1..], key)
  }

  function Upsert(rs: seq<Record>, r: Record): seq<Record> {
    var p := Position(rs, r.key);
    if p < |rs| && rs[p].key == r.key then rs[p := r] else rs[..p] + [r] + rs[p..]
  }

  function Total(rs: seq<Record>): nat {
    if rs == [] then 0 else |rs[0].key| + |rs[0].value| + Total(rs[1..])
  }

  // ---------- Lookup in an ordered list ----------

  lemma {:induction false} FindAt(rs: seq<Record>, i: nat)
    requires Ascending(rs) && i < |rs|
    ensures Find(rs, rs[i].key) == Some(rs[i])
  {
    if i > 0 {
      LessAsymmetric(rs[0].key, rs[i].key);
      FindAt(rs[1..], i - 1);
    }
  }

  lemma {:induction false} FindAbsent(rs: seq<Record>, key: seq<byte>)
    requires forall i :: 0 <= i < |rs| ==> rs[i].key != key
    ensures Find(rs, key) == None
  {
    if rs != [] {
      FindAbsent(rs[1..], key);
    }
  }

  lemma BehindPosition(rs: seq<Record>, key: seq<byte>, i: nat)
    requires Ascending(rs) && Position(rs, key) <= i < |rs|
    ensures !Less(rs[i].key, key)
    ensures i > Position(rs, key) ==> Less(key, rs[i].key)
  {
    hide Less, Position;
    var p := Position(rs, key);
    LessTotal(rs[p].key, key);
    if i > p {
      if rs[p].key != key {
        LessTransitive(key, rs[p].key, rs[i].key);
      }
      LessAsymmetric(key, rs[i].key);
    }
  }

  /** A record is found exactly when the one at the key's position carries the key. */
  lemma FindByPosition(rs: seq<Record>, key: seq<byte>)
    requires Ascending(rs)
    ensures var p := Position(rs, key);
            Find(rs, key) == if p < |rs| && rs[p].key == key then Some(rs[p]) else None
  {
    var p := Position(rs, key);
    if p < |rs| && rs[p].key == key {
      FindAt(rs, p);
    } else {
      forall i | 0 <= i < |rs|
        ensures rs[i].key != key
      {
        if i < p {
          LessAsymmetric(rs[i].key, key);
        } else if i > p {
          BehindPosition(rs, key, i);
          LessAsymmetric(key, rs[i].key);
        }
      }
      FindAbsent(rs, key);
    }
  }

  // ---------- Upsert ----------

  lemma UpsertAscending(rs: seq<Record>, r: Record)
    requires Ascending(rs)
    ensures Ascending(Upsert(rs, r))
  {
    var p := Position(rs, r.key);
    var rs' := Upsert(rs, r);
    if !(p < |rs| && rs[p].key == r.key) {
      forall i | p <= i < |rs|
        ensures Less(r.key, rs[i].key)
      {
        BehindPosition(rs, r.key, i);
        LessTotal(r.key, rs[p].key);
      }
    }
  }

  /** Upsert is map update: the key it names reads as the new record, every other key as before. */
  lemma FindUpsert(rs: seq<Record>, r: Record, key: seq<byte>)
    requires Ascending(rs)
    ensures Find(Upsert(rs, r), key) == if key == r.key then Some(r) else Find(rs, key)
  {
    hide Less, Position, Find, Ascending;
    var p := Position(rs, r.key);
    var rs' := Upsert(rs, r);
    UpsertAscending(rs, r);
    assert rs'[p] == r;
    if key == r.key {
      FindAt(rs', p);
    } else if Find(rs, key).Some? {
      var i :| 0 <= i < |rs| && rs[i] == Find(rs, key).value;
      FindAt(rs, i);
      if |rs'| == |rs| || i < p {
        assert rs'[i] == rs[i];
        FindAt(rs', i);
      } else {
        assert rs'[i + 1] == rs[i];
        FindAt(rs', i + 1);
      }
    } else {
      forall i | 0 <= i < |rs'|
        ensures rs'[i].key != key
      {
        if i < |rs| && rs'[i] == rs[i] {
          FindAt(rs, i);
        } else if i > p {
          FindAt(rs, i - 1);
        }
      }
      FindAbsent(rs', key);
    }
  }

  lemma {:induction false} TotalConcat(a: seq<Record>, b: seq<Record>)
    ensures Total(a + b) == Total(a) + Total(b)
  {
    if a == [] {
      assert a + b == b;
    } else {
      TotalConcat(a[1..], b);
      assert (a + b)[1..] == a[1..] + b;
    }
  }

  /** The total size changes by what the new record adds and the one it replaces gives back. */
  lemma TotalUpsert(rs: seq<Record>, r: Record)
    requires Ascending(rs)
    ensures Total(Upsert(rs, r)) ==
            Total(rs) + |r.key| + |r.value| -
            (if Find(rs, r.key).Some? then |r.key| + |Find(rs, r.key).value.value| else 0)
  {
    hide Less, Position, Find, Total;
    var p := Position(rs, r.key);
    FindByPosition(rs, r.key);
    if p < |rs| && rs[p].key == r.key {
      assert rs == rs[..p] + [rs[p]] + rs[p + 1..];
      assert rs[p := r] == rs[..p] + [r] + rs[p + 1..];
      TotalMiddle(rs[..p], rs[p], rs[p + 1..]);
      TotalMiddle(rs[..p], r, rs[p + 1..]);
    } else {
      assert rs == rs[..p] + rs[p..];
      TotalConcat(rs[..p], rs[p..]);
      TotalMiddle(rs[..p], r, rs[p..]);
    }
  }

  lemma TotalMiddle(a: seq<Record>, x: Record, b: seq<Record>)
    ensures Total(a + [x] + b) == Total(a) + |x.key| + |x.value| + Total(b)
  {
    TotalConcat(a + [x], b);
    TotalConcat(a, [x]);
    assert [x][1..] == [];
  }

  /** An ordered list is determined by the map it represents. */
  lemma {:induction false} AscendingUnique(a: seq<Record>, b: seq<Record>)
    requires Ascending(a) && Ascending(b)
    requires forall key :: Find(a, key) == Find(b, key)
    ensures a == b
    decreases |a|
  {
    if b != [] {
      FirstSame(b, a);
    }
    if a != [] {
      FirstSame(a, b);
      forall key
        ensures Find(a[1..], key) == Find(b[1..], key)
      {
        assert Find(a, key) == Find(b, key);
        if key == a[0].key {
          TailLacksHead(a);
          TailLacksHead(b);
        }
      }
      AscendingUnique(a[1..], b[1..]);
      assert a == [a[0]] + a[1..] && b == [b[0]] + b[1..];
    }
  }

  lemma TailLacksHead(a: seq<Record>)
    requires Ascending(a) && a != []
    ensures Find(a[1..], a[0].key) == None
  {
    forall i | 0 <= i < |a[1..]|
      ensures a[1..][i].key != a[0].key
    {
      LessAsymmetric(a[0].key, a[i + 1].key);
    }
    FindAbsent(a[1..], a[0].key);
  }

  lemma FirstSame(a: seq<Record>, b: seq<Record>)
    requires Ascending(a) && Ascending(b) && a != []
    requires forall key :: Find(a, key) == Find(b, key)
    ensures b != [] && b[0] == a[0]
  {
    FindAt(a, 0);
    assert Find(b, a[0].key) == Some(a[0]);
    var i :| 0 <= i < |b| && b[i] == a[0];
    FindAt(b, 0);
    assert Find(a, b[0].key) == Some(b[0]);
    var j :| 0 <= j < |a| && a[j] == b[0];
    if i > 0 && j > 0 {
      LessAsymmetric(a[0].key, a[j].key);
    }
  }

  // ---------- Runs of writes ----------

  /** The contents after writing `ops` in order, starting from nothing. */
  function Play(ops: seq<Record>): seq<Record> {
    if ops == [] then [] else Upsert(Play(ops[..|ops| - 1]), ops[|ops| - 1])
  }

  /** The most recent write to `key`. */
  function LastWrite(ops: seq<Record>, key: seq<byte>): Option<Record> {
    if ops == [] then None
    else if ops[|ops| - 1].key == key then Some(ops[|ops| - 1])
    else LastWrite(ops[..|ops| - 1], key)
  }

  lemma {:induction false} PlayAscending(ops: seq<Record>)
    ensures Ascending(Play(ops))
  {
    hide Ascending, Upsert;
    if ops != [] {
      PlayAscending(ops[..|ops| - 1]);
      UpsertAscending(Play(ops[..|ops| - 1]), ops[|ops| - 1]);
    } else {
      NothingAscending();
    }
  }

  lemma NothingAscending()
    ensures Ascending([])
  {
  }

  /** After any run, every key reads as its most recent write. */
  lemma {:induction false} FindPlay(ops: seq<Record>, key: seq<byte>)
    ensures Find(Play(ops), key) == LastWrite(ops, key)
  {
    hide Ascending, Upsert;
    if ops != [] {
      var before := ops[..|ops| - 1];
      PlayAscending(before);
      FindUpsert(Play(before), ops[|ops| - 1], key);
      FindPlay(before, key);
    }
  }

  /** Contents and size depend on the map alone, not on the history that led to it. */
  lemma HistoryIrrelevant(ops: seq<Record>, ops': seq<Record>)
    requires forall key :: LastWrite(ops, key) == LastWrite(ops', key)
    ensures Play(ops) == Play(ops') && Total(Play(ops)) == Total(Play(ops'))
  {
    hide *;
    forall key
      ensures Find(Play(ops), key) == Find(Play(ops'), key)
    {
      FindPlay(ops, key);
      FindPlay(ops', key);
      assert LastWrite(ops, key) == LastWrite(ops', key);
    }
    PlayAscending(ops);
    PlayAscending(ops');
    AscendingUnique(Play(ops), Play(ops'));
  }

  lemma {:induction false} LastWriteConcat(a: seq<Record>, b: seq<Record>, key: seq<byte>)
    ensures LastWrite(a + b, key) == if LastWrite(b, key).Some? then LastWrite(b, key) else LastWrite(a, key)
  {
    if b == [] {
      assert a + b == a;
    } else {
      LastWriteConcat(a, b[..|b| - 1], key);
      assert (a + b)[..|a + b| - 1] == a + b[..|b| - 1];
    }
  }

  /** In an ordered list the last write to a key is the only one. */
  lemma {:induction false} LastWriteFind(rs: seq<Record>, key: seq<byte>)
    requires Ascending(rs)
    ensures LastWrite(rs, key) == Find(rs, key)
  {
    hide Less;
    if rs == [] {
    } else {
      var front, last := rs[..|rs| - 1], rs[|rs| - 1];
      assert Ascending(front);
      hide Ascending, Find;
      LastWriteFind(front, key);
      if last.key == key {
        FindAt(rs, |rs| - 1);
      } else if Find(front, key).Some? {
        var i :| 0 <= i < |front| && front[i] == Find(front, key).value;
        FindAt(rs, i);
      } else {
        forall i | 0 <= i < |rs|
          ensures rs[i].key != key
        {
          if i < |front| {
            FindAt(front, i);
          }
        }
        FindAbsent(rs, key);
      }
    }
  }

  /** Every ordered list is the contents after some run: writing its own records. */
  lemma OrderedIsPlay(rs: seq<Record>)
    requires Ascending(rs)
    ensures Play(rs) == rs
  {
    hide *;
    PlayAscending(rs);
    forall key
      ensures Find(Play(rs), key) == Find(rs, key)
    {
      FindPlay(rs, key);
      LastWriteFind(rs, key);
    }
    AscendingUnique(Play(rs), rs);
  }
}
