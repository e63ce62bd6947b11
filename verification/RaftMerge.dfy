/** What the follower's in-place loop over the sent entries leaves behind (pkg/consensus/raft_node.go:349-360). */
module RaftMerge {
  import opened RaftTypes
  import opened RaftHandlers
  import opened RaftInvariants

  /** Sent entry `j` meets an entry of another term in the follower's log. */
  predicate Conflict(log: Log, idx: nat, entries: seq<LogEntry>, j: nat) {
    j < |entries| && idx + j < |log| && log[idx + j].term != entries[j].term
  }

  /** The log keeps everything before the first conflict and takes the sent entries from there on. */
  lemma {:induction false} MergeAtConflict(log: Log, idx: nat, entries: seq<LogEntry>, j: nat)
    requires 0 < idx <= |log| && Conflict(log, idx, entries, j)
    requires forall k: nat :: k < j ==> !Conflict(log, idx, entries, k)
    ensures Merge(log, idx, entries) == log[..idx + j] + entries[j..]
    decreases j
  {
    if j == 0 {
      MergeAppends(log[..idx] + [entries[0]], idx + 1, entries[1..]);
      assert log[..idx] + [entries[0]] + entries[1..] == log[..idx] + entries[0..];
    } else {
      assert !Conflict(log, idx, entries, 0);
      var next, rest := idx + 1, entries[1..];
      forall k: nat | k < j - 1
        ensures !Conflict(log, next, rest, k)
      {
        assert !Conflict(log, idx, entries, k + 1);
      }
      MergeAtConflict(log, idx + 1, entries[1..], j - 1);
      assert entries[1..][j - 1..] == entries[j..];
    }
  }

  /**
   * That is the log before the sent entries followed by all of them exactly when the entries kept before the conflict
   * are the sent ones, which log matching makes them.
   */
  lemma MergeReplaces(log: Log, idx: nat, entries: seq<LogEntry>, j: nat)
    requires 0 < idx <= |log| && Conflict(log, idx, entries, j)
    requires forall k: nat :: k < j ==> !Conflict(log, idx, entries, k)
    ensures Merge(log, idx, entries) == log[..idx] + entries <==> log[idx..idx + j] == entries[..j]
  {
    hide Merge;
    MergeAtConflict(log, idx, entries, j);
    assert log[..idx + j] == log[..idx] + log[idx..idx + j];
    assert entries == entries[..j] + entries[j..];
    var merged := log[..idx + j] + entries[j..];
    assert merged[idx..idx + j] == log[idx..idx + j];
    assert (log[..idx] + entries)[idx..idx + j] == entries[..j];
  }

  /** With no conflict the log is only extended, and not even that when it is long enough. */
  lemma {:induction false} MergeWithoutConflict(log: Log, idx: nat, entries: seq<LogEntry>)
    requires 0 < idx <= |log|
    requires forall k: nat :: !Conflict(log, idx, entries, k)
    ensures Merge(log, idx, entries) ==
            if idx + |entries| <= |log| then log else log + entries[|log| - idx..]
    decreases |entries|
  {
    if entries != [] {
      assert !Conflict(log, idx, entries, 0);
      if idx < |log| {
        var next, rest := idx + 1, entries[1..];
        forall k: nat
          ensures !Conflict(log, next, rest, k)
        {
          assert !Conflict(log, idx, entries, k + 1);
        }
        MergeWithoutConflict(log, idx + 1, entries[1..]);
      } else {
        MergeAppends(log, idx, entries);
      }
    }
  }

  lemma {:induction false} MergeAppends(log: Log, idx: nat, entries: seq<LogEntry>)
    requires 0 < idx == |log|
    ensures Merge(log, idx, entries) == log + entries
    decreases |entries|
  {
    if entries != [] {
      MergeAppends(log + [entries[0]], idx + 1, entries[1..]);
      assert log[..idx] == log;
      assert log + [entries[0]] + entries[1..] == log + entries;
    }
  }

  /** Delivering the same entries again changes nothing. */
  lemma {:induction false} MergeIdempotent(log: Log, idx: nat, entries: seq<LogEntry>)
    requires 0 < idx <= |log|
    ensures |Merge(log, idx, entries)| >= idx + |entries|
    ensures Merge(Merge(log, idx, entries), idx, entries) == Merge(log, idx, entries)
    ensures Merge(log, idx, entries)[..idx] == log[..idx]
  {
    var merged := Merge(log, idx, entries);
    if j: nat :| Conflict(log, idx, entries, j) {
      var first := FirstConflict(log, idx, entries, j);
      MergeAtConflict(log, idx, entries, first);
    } else {
      MergeWithoutConflict(log, idx, entries);
    }
    forall k: nat
      ensures !Conflict(merged, idx, entries, k)
    {
      assert Conflict(merged, idx, entries, k) ==> Conflict(log, idx, entries, k);
    }
    MergeWithoutConflict(merged, idx, entries);
  }

  lemma {:induction false} FirstConflict(log: Log, idx: nat, entries: seq<LogEntry>, j: nat) returns (first: nat)
    requires Conflict(log, idx, entries, j)
    ensures Conflict(log, idx, entries, first) && first <= j
    ensures forall k: nat :: k < first ==> !Conflict(log, idx, entries, k)
  {
    if k: nat :| k < j && Conflict(log, idx, entries, k) {
      first := FirstConflict(log, idx, entries, k);
    } else {
      first := j;
    }
  }

  /** `entries` is the stretch of `whole` that starts at `idx`. */
  predicate SliceOf(entries: seq<LogEntry>, whole: Log, idx: nat) {
    idx + |entries| <= |whole| && forall j :: 0 <= j < |entries| ==> entries[j] == whole[idx + j]
  }

  /** Where the two logs have the same term they have the same entry. */
  predicate TermsTell(a: Log, b: Log) {
    forall j :: 0 <= j < |a| && j < |b| && a[j].term == b[j].term ==> a[j] == b[j]
  }

  /**
   * Merging a stretch of a leader's log: the follower is left with its own log, which holds the stretch already,
   * or with exactly the leader's log through the stretch; and nothing it shared with the leader is lost.
   */
  lemma MergeFromLeader(log: Log, idx: nat, entries: seq<LogEntry>, whole: Log)
    requires 0 < idx <= |log| && SliceOf(entries, whole, idx) && Agree(log, whole, idx) && TermsTell(log, whole)
    ensures Merge(log, idx, entries) == log || Merge(log, idx, entries) == whole[..idx + |entries|]
    ensures Agree(Merge(log, idx, entries), whole, idx + |entries|)
    ensures forall k: nat {:trigger Agree(log, whole, k)} :: Agree(log, whole, k) ==> Agree(Merge(log, idx, entries), whole, k)
  {
    hide Merge;
    if j: nat :| Conflict(log, idx, entries, j) {
      var first := FirstConflict(log, idx, entries, j);
      MergeAtConflict(log, idx, entries, first);
      forall k | idx <= k < idx + first
        ensures log[k] == whole[k]
      {
        assert !Conflict(log, idx, entries, k - idx);
      }
      assert log[..idx + first] == whole[..idx + first];
      assert Merge(log, idx, entries) == whole[..idx + |entries|];
      assert forall k: nat :: Agree(log, whole, k) ==> k <= idx + first;
    } else {
      MergeWithoutConflict(log, idx, entries);
      forall k | idx <= k < |log| && k < idx + |entries|
        ensures log[k] == whole[k]
      {
        assert !Conflict(log, idx, entries, k - idx);
      }
    }
  }

  // ---------- Messages to the state machine ----------

  lemma {:induction false} MessagesConcat(a: seq<LogEntry>, b: seq<LogEntry>)
    ensures Messages(a + b) == Messages(a) + Messages(b)
  {
    if b == [] {
      assert a + b == a;
    } else {
      MessagesConcat(a, b[..|b| - 1]);
      assert (a + b)[..|a + b| - 1] == a + b[..|b| - 1];
    }
  }

  lemma NoMessages()
    ensures Messages([]) == []
  {
  }

  lemma MessagesNext(log: Log, a: nat, b: nat)
    requires a <= b < |log|
    ensures Messages(log[a..b + 1]) == Messages(log[a..b]) + if log[b].index > 0 then [ToMessage(log[b])] else []
  {
    assert log[a..b + 1][..b - a] == log[a..b];
  }
}
