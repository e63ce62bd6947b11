/** Replication keeps the invariant: a follower accepts or refuses entries, a leader uses the answer and commits. */
module RaftReplicationSteps {
  import opened RaftTypes
  import opened RaftHandlers
  import opened RaftCluster
  import opened RaftInvariants
  import opened RaftEvolution
  import opened RaftElectionSteps
  import opened RaftLeaderSteps
  import opened RaftMerge
  import opened Quorum

  /** Log matching: two rooted logs with the same term at an index are the same through that index. */
  lemma TermsMatch(h: History, a: Log, b: Log, j: nat)
    requires Rooted(h, a) && Rooted(h, b) && j < |a| && j < |b| && a[j].term == b[j].term
    ensures Agree(a, b, j + 1)
  {
    if j > 0 {
      assert RootedAt(h, a, j) && RootedAt(h, b, j);
    }
  }

  // ---------- A follower accepts entries ----------

  function RecordAck(h: History, p: int, t: nat, i: nat): History {
    h.(acks := h.acks[(p, t) := if Ack(h, p, t) >= i then Ack(h, p, t) else i])
  }

  function LastSent(args: AppendEntriesArgs): nat {
    args.prevLogIndex + |args.entries|
  }

  /** Node `m.to` of the cluster is in the term of `m`, is not its leader and finds `m` consistent with its log. */
  ghost predicate Accepts(c: Cluster, h: History, m: AppendRequest) {
    && AppendRequestOk(h, c.nodes.Keys, m)
    && c.nodes[m.to].id == m.to && c.nodes[m.to].currentTerm == m.args.term && c.nodes[m.to].role != Leader
    && Consistent(c.nodes[m.to].log, m.args.prevLogIndex, m.args.prevLogTerm)
    && LogOk(h, c.nodes[m.to].log, m.args.term) && LogOk(h, h.leaderLog[m.args.term], m.args.term)
  }

  function Merged(c: Cluster, m: AppendRequest): Log
    requires m.to in c.nodes && Consistent(c.nodes[m.to].log, m.args.prevLogIndex, m.args.prevLogTerm)
  {
    Merge(c.nodes[m.to].log, m.args.prevLogIndex + 1, m.args.entries)
  }

  /** The merged log agrees with the leader's as far as the call reaches, and keeps all agreement there was. */
  lemma MergedLog(c: Cluster, h: History, m: AppendRequest)
    requires Accepts(c, h, m)
    ensures LogOk(h, Merged(c, m), m.args.term)
    ensures Agree(Merged(c, m), h.leaderLog[m.args.term], LastSent(m.args) + 1)
    ensures forall k: nat {:trigger Agree(c.nodes[m.to].log, h.leaderLog[m.args.term], k)} ::
              Agree(c.nodes[m.to].log, h.leaderLog[m.args.term], k) ==>
              Agree(Merged(c, m), h.leaderLog[m.args.term], k)
  {
    var log, whole := c.nodes[m.to].log, h.leaderLog[m.args.term];
    TermsMatch(h, log, whole, m.args.prevLogIndex);
    forall j | 0 <= j < |log| && j < |whole| && log[j].term == whole[j].term
      ensures log[j] == whole[j]
    {
      TermsMatch(h, log, whole, j);
    }
    MergeFromLeader(log, m.args.prevLogIndex + 1, m.args.entries, whole);
    PrefixOk(h, whole, LastSent(m.args) + 1, m.args.term);
  }

  lemma PrefixOk(h: History, log: Log, k: nat, limit: nat)
    requires LogOk(h, log, limit) && 0 < k <= |log|
    ensures LogOk(h, log[..k], limit)
  {
    forall i | 0 < i < k
      ensures RootedAt(h, log[..k], i)
    {
      assert RootedAt(h, log, i);
    }
  }

  /** What a node may count as committed, the leader of its term or a later one has. */
  lemma CommitInLeader(c: Cluster, h: History, log: Log, k: nat, limit: nat, u: nat)
    requires CommitOk(c, h, log, k, limit) && limit <= u && u in h.leaderLog && LeadersComplete(c, h)
    requires log[0] == h.leaderLog[u][0]
    ensures Agree(log, h.leaderLog[u], k + 1)
  {
    if k > 0 {
      var t: nat, i: nat :| CommittedBy(c, h, log, k, limit, t, i);
      CommittedIsCommittable(c, h, t, i);
      assert CompleteAt(c, h, t, i, u);
    }
  }

  /** Raising the commit index sends exactly the entries in between to the state machine. */
  lemma ApplyOk(s: NodeState, k: nat)
    requires AppliedOk(s) && s.commitIndex < k < |s.log|
    ensures AppliedOk(ApplyLogs(s.(commitIndex := k)))
    ensures s.applied <= ApplyLogs(s.(commitIndex := k)).applied
  {
    MessagesConcat(s.log[1..s.commitIndex + 1], s.log[s.commitIndex + 1..k + 1]);
    assert s.log[1..s.commitIndex + 1] + s.log[s.commitIndex + 1..k + 1] == s.log[1..k + 1];
    hide Messages;
  }

  /** The follower's commit index after the call: its own, or exactly the leader's. */
  lemma AcceptCommit(s: NodeState, args: AppendEntriesArgs)
    requires Consistent(s.log, args.prevLogIndex, args.prevLogTerm)
    requires LastSent(args) < |Merge(s.log, args.prevLogIndex + 1, args.entries)|
    requires args.leaderCommit <= LastSent(args) && AppliedOk(s)
    requires Agree(s.log, Merge(s.log, args.prevLogIndex + 1, args.entries), s.commitIndex + 1)
    ensures Accept(s, args).log == Merge(s.log, args.prevLogIndex + 1, args.entries)
    ensures Accept(s, args).commitIndex == if args.leaderCommit > s.commitIndex then args.leaderCommit else s.commitIndex
    ensures AppliedOk(Accept(s, args))
    ensures s.applied <= Accept(s, args).applied
  {
    var log := Merge(s.log, args.prevLogIndex + 1, args.entries);
    assert log[1..s.commitIndex + 1] == s.log[1..s.commitIndex + 1];
    hide Merge;
    if args.leaderCommit > s.commitIndex {
      ApplyOk(s.(role := Follower, log := log), args.leaderCommit);
    }
  }

  function WithAccept(c: Cluster, m: AppendRequest): Cluster
    requires m.to in c.nodes && Consistent(c.nodes[m.to].log, m.args.prevLogIndex, m.args.prevLogTerm)
  {
    WithNode(c, m.to, Accept(c.nodes[m.to], m.args))
  }

  function AckedBy(h: History, m: AppendRequest): History {
    RecordAck(h, m.to, m.args.term, LastSent(m.args))
  }

  /** All that is known of the accepting node before and after. */
  ghost predicate Accepted(c: Cluster, h: History, m: AppendRequest) {
    && Accepts(c, h, m)
    && var s, s', whole := c.nodes[m.to], Accept(c.nodes[m.to], m.args), h.leaderLog[m.args.term];
    && s' == s.(role := Follower, log := s'.log, commitIndex := s'.commitIndex, lastApplied := s'.lastApplied, applied := s'.applied)
    && LogOk(h, s'.log, m.args.term) && AppliedOk(s') && AppliedOk(s)
    && Agree(s'.log, whole, LastSent(m.args) + 1)
    && Agree(s.log, s'.log, s.commitIndex + 1)
    && s'.commitIndex == (if m.args.leaderCommit > s.commitIndex then m.args.leaderCommit else s.commitIndex)
    && (forall k: nat {:trigger Agree(s.log, whole, k)} :: Agree(s.log, whole, k) ==> Agree(s'.log, whole, k))
  }

  lemma AcceptedNow(c: Cluster, h: History, m: AppendRequest)
    requires Accepts(c, h, m) && LeadersComplete(c, h) && CommitsSafe(c, h) && AppliedExactly(c)
    ensures Accepted(c, h, m)
  {
    var s, whole := c.nodes[m.to], h.leaderLog[m.args.term];
    MergedLog(c, h, m);
    assert NodeCommitOk(c, h, m.to) && AppliedOk(s);
    CommitInLeader(c, h, s.log, s.commitIndex, s.currentTerm, m.args.term);
    assert Agree(s.log, whole, s.commitIndex + 1);
    AcceptCommit(s, m.args);
  }

  lemma AcceptEvolves(c: Cluster, h: History, m: AppendRequest)
    requires Accepted(c, h, m)
    ensures Evolves(c, h, WithAccept(c, m), AckedBy(h, m))
  {
  }

  lemma AcceptAcks(c: Cluster, h: History, m: AppendRequest)
    requires Accepted(c, h, m) && AcksHeld(c, h) && MatchesAcked(c, h)
    requires Evolves(c, h, WithAccept(c, m), AckedBy(h, m))
    ensures AcksHeld(WithAccept(c, m), AckedBy(h, m)) && MatchesAcked(WithAccept(c, m), AckedBy(h, m))
  {
    var c', h' := WithAccept(c, m), AckedBy(h, m);
    var mine := (m.to, m.args.term);
    forall k | k in h'.acks
      ensures AckOk(c', h', k)
    {
      assert k in h.acks ==> AckOk(c, h, k);
      if k == mine && k in h.acks {
        assert Agree(c.nodes[m.to].log, h.leaderLog[m.args.term], h.acks[k] + 1);
      }
    }
    forall n, p | n in c'.nodes && c'.nodes[n].role == Leader && p in c'.nodes[n].peers
      ensures MatchOk(h', c'.nodes[n], p)
    {
      assert MatchOk(h, c.nodes[n], p);
    }
  }

  lemma AcceptReplication(c: Cluster, h: History, m: AppendRequest)
    requires Accepted(c, h, m) && Replication(c, h)
    ensures Replication(WithAccept(c, m), AckedBy(h, m))
  {
    hide LogsRooted, AppendMessages, AcksHeld, MatchesAcked;
    var c', h' := WithAccept(c, m), AckedBy(h, m);
    AcceptEvolves(c, h, m);
    AcceptAcks(c, h, m);
    LogOkAfter(h, h', c'.nodes[m.to].log, m.args.term, m.args.term);
    RootedAfter(c, h, c', h');
    MessagesAfter(c, h, c', h');
  }

  lemma AcceptRetained(c: Cluster, h: History, m: AppendRequest)
    requires Accepted(c, h, m) && AcksHeld(c, h) && LeadersComplete(c, h) && AcksRetained(c, h)
    requires Evolves(c, h, WithAccept(c, m), AckedBy(h, m))
    ensures AcksRetained(WithAccept(c, m), AckedBy(h, m))
  {
    var c', h' := WithAccept(c, m), AckedBy(h, m);
    var u := m.args.term;
    var whole := h.leaderLog[u];
    forall t: nat, i: nat, n: int
      ensures RetainedAt(c', h', t, i, n)
    {
      if Committable(c', h', t, i) && n in c'.nodes && Ack(h', n, t) >= i {
        CommittableBefore(c, h, c', h', t, i);
        assert RetainedAt(c, h, t, i, n) && CompleteAt(c, h, t, i, u);
        assert (n, t) in h.acks ==> AckOk(c, h, (n, t));
        if n == m.to && Ack(h, n, t) >= i {
          assert t <= u;
          assert Agree(c.nodes[n].log, whole, i + 1);
        }
      }
    }
  }

  lemma AcceptInformed(c: Cluster, h: History, m: AppendRequest)
    requires Accepted(c, h, m) && VotesRecorded(c, h) && LeadersComplete(c, h) && VotesInformed(c, h)
    requires Evolves(c, h, WithAccept(c, m), AckedBy(h, m))
    ensures VotesInformed(WithAccept(c, m), AckedBy(h, m)) && LeadersComplete(WithAccept(c, m), AckedBy(h, m))
  {
    var c', h' := WithAccept(c, m), AckedBy(h, m);
    forall t: nat, i: nat, k: (int, nat)
      ensures InformedAt(c', h', t, i, k)
    {
      if Committable(c', h', t, i) && k in h'.votes && t < k.1 {
        CommittableBefore(c, h, c', h', t, i);
        assert InformedAt(c, h, t, i, k) && VoteOk(c, h, k);
      }
    }
    forall t: nat, i: nat, u: nat
      ensures CompleteAt(c', h', t, i, u)
    {
      if Committable(c', h', t, i) {
        CommittableBefore(c, h, c', h', t, i);
        assert CompleteAt(c, h, t, i, u);
      }
    }
  }

  lemma AcceptCommits(c: Cluster, h: History, m: AppendRequest)
    requires Accepted(c, h, m) && m in c.appendRequests && CommitsSafe(c, h)
    requires Evolves(c, h, WithAccept(c, m), AckedBy(h, m))
    ensures CommitsSafe(WithAccept(c, m), AckedBy(h, m))
  {
    var c', h' := WithAccept(c, m), AckedBy(h, m);
    RequestCommitsAfter(c, h, c', h');
    forall n | n in c'.nodes
      ensures NodeCommitOk(c', h', n)
    {
      var s, s' := c.nodes[n], c'.nodes[n];
      assert NodeCommitOk(c, h, n) && RequestCommitOk(c, h, m);
      if n == m.to && m.args.leaderCommit > s.commitIndex {
        CommitOkAfter(c, h, c', h', h.leaderLog[m.args.term], s'.log, m.args.leaderCommit, m.args.term, m.args.term);
      } else {
        CommitOkAfter(c, h, c', h', s.log, s'.log, s.commitIndex, s.currentTerm, s'.currentTerm);
      }
    }
  }

  lemma AcceptCommitment(c: Cluster, h: History, m: AppendRequest)
    requires Accepted(c, h, m) && m in c.appendRequests && VotesRecorded(c, h) && AcksHeld(c, h) && Commitment(c, h)
    ensures Commitment(WithAccept(c, m), AckedBy(h, m))
  {
    hide VotesRecorded, AcksHeld, LeadersComplete, AcksRetained, VotesInformed, CommitsSafe;
    AcceptEvolves(c, h, m);
    AcceptRetained(c, h, m);
    AcceptInformed(c, h, m);
    AcceptCommits(c, h, m);
    forall n | n in c.nodes
      ensures AppliedOk(WithAccept(c, m).nodes[n])
    {
      assert AppliedOk(c.nodes[n]);
    }
  }

  lemma AcceptsNow(c: Cluster, h: History, m: AppendRequest)
    requires Members(c) && LeadersElected(c, h) && LogsRooted(c, h) && AppendMessages(c, h)
    requires m in c.appendRequests && m.to in c.nodes && c.nodes[m.to].currentTerm == m.args.term
    ensures c.nodes[m.to].role != Leader && AppendRequestOk(h, c.nodes.Keys, m)
    ensures Consistent(c.nodes[m.to].log, m.args.prevLogIndex, m.args.prevLogTerm) ==> Accepts(c, h, m)
  {
    assert AppendRequestOk(h, c.nodes.Keys, m);
    assert RoleOk(h, m.to, c.nodes[m.to]);
    assert KnowsPeers(c.nodes[m.to], m.to, c.nodes.Keys);
    assert LogOk(h, c.nodes[m.to].log, c.nodes[m.to].currentTerm) && LogOk(h, h.leaderLog[m.args.term], m.args.term);
  }

  /** A follower in the leader's term accepts a consistent call. */
  lemma AcceptKeeps(c: Cluster, h: History, m: AppendRequest)
    requires Inv(c, h) && m in c.appendRequests && m.to in c.nodes && c.nodes[m.to].currentTerm == m.args.term
    requires Consistent(c.nodes[m.to].log, m.args.prevLogIndex, m.args.prevLogTerm)
    ensures Inv(WithAccept(c, m), AckedBy(h, m))
    ensures Ack(AckedBy(h, m), m.to, m.args.term) >= LastSent(m.args)
    ensures c.nodes[m.to].applied <= WithAccept(c, m).nodes[m.to].applied
  {
    hide VotesRecorded, VotesCounted, VoteMessages, LeadersElected, LogsRooted, AppendMessages, AcksHeld, MatchesAcked,
      LeadersComplete, AcksRetained, VotesInformed, CommitsSafe, AppliedExactly;
    AcceptsNow(c, h, m);
    AcceptedNow(c, h, m);
    AcceptReplication(c, h, m);
    AcceptCommitment(c, h, m);
    hide Replication, Commitment;
    var c', h' := WithAccept(c, m), AckedBy(h, m);
    VotesAfter(c, h, c', h', m.to);
    VoteMessagesAfter(c, h, c', h');
    LeadersAfter(c, h, c', h', m.to);
    MembersAfter(c, c', m.to);
  }

  // ---------- A follower refuses, or answers ----------

  /** A node that hears from the leader of its term is a follower. */
  lemma FollowKeeps(c: Cluster, h: History, m: AppendRequest)
    requires Inv(c, h) && m in c.appendRequests && m.to in c.nodes && c.nodes[m.to].currentTerm == m.args.term
    ensures Inv(WithNode(c, m.to, c.nodes[m.to].(role := Follower)), h)
  {
    hide VotesRecorded, VotesCounted, VoteMessages, LeadersElected, LogsRooted, AppendMessages, AcksHeld, MatchesAcked,
      Commitment;
    AcceptsNow(c, h, m);
    hide Replication;
    var c' := WithNode(c, m.to, c.nodes[m.to].(role := Follower));
    VotesAfter(c, h, c', h, m.to);
    VoteMessagesAfter(c, h, c', h);
    LeadersAfter(c, h, c', h, m.to);
    StorageKept(c, h, c', h, m.to);
    MembersAfter(c, c', m.to);
  }

  /** An answer joins the network. */
  lemma AnswerKeeps(c: Cluster, h: History, r: AppendResponse)
    requires Inv(c, h) && r.from in c.nodes && AppendResponseOk(h, c.nodes.Keys, r)
    ensures Inv(c.(appendResponses := c.appendResponses + {r}), h)
  {
    hide VotesRecorded, VotesCounted, VoteMessages, LeadersElected, LogsRooted, AcksHeld, MatchesAcked,
      LeadersComplete, AcksRetained, VotesInformed, CommitsSafe, AppliedExactly;
    var c' := c.(appendResponses := c.appendResponses + {r});
    var n := r.from;
    assert AppendMessages(c', h) by {
      forall m | m in c'.appendRequests
        ensures AppendRequestOk(h, c'.nodes.Keys, m)
      {
        assert AppendRequestOk(h, c.nodes.Keys, m);
      }
      forall m | m in c'.appendResponses
        ensures AppendResponseOk(h, c'.nodes.Keys, m)
      {
        assert m in c.appendResponses ==> AppendResponseOk(h, c.nodes.Keys, m);
      }
    }
    hide AppendMessages;
    VotesAfter(c, h, c', h, n);
    VoteMessagesAfter(c, h, c', h);
    LeadersAfter(c, h, c', h, n);
    RootedAfter(c, h, c', h);
    AcksHeldAfter(c, h, c', h, n);
    MatchesAfter(c, h, c', h, n);
    CompletenessAfter(c, h, c', h);
    VotesInformedAfter(c, h, c', h);
    AppliedAfter(c, c', n);
    CommitsSafeAfter(c, h, c', h);
    MembersAfter(c, c', n);
  }

  // ---------- A leader uses an answer ----------

  /** A leader's bookkeeping may change as long as it stays within what was acknowledged. */
  lemma BookkeepingKeeps(c: Cluster, h: History, n: int, s': NodeState)
    requires Inv(c, h) && n in c.nodes && c.nodes[n].role == Leader && InBounds(s')
    requires s' == c.nodes[n].(nextIndex := s'.nextIndex, matchIndex := s'.matchIndex)
    requires forall p | p in s'.peers :: MatchOk(h, s', p)
    ensures Inv(WithNode(c, n, s'), h)
  {
    hide VotesRecorded, VotesCounted, VoteMessages, LeadersElected, LogsRooted, AppendMessages, AcksHeld,
      LeadersComplete, AcksRetained, VotesInformed, CommitsSafe, AppliedExactly;
    var c' := WithNode(c, n, s');
    forall m, p | m in c'.nodes && c'.nodes[m].role == Leader && p in c'.nodes[m].peers
      ensures MatchOk(h, c'.nodes[m], p)
    {
      assert m != n ==> MatchOk(h, c.nodes[m], p);
    }
    assert MatchesAcked(c', h);
    hide MatchesAcked;
    VotesAfter(c, h, c', h, n);
    VoteMessagesAfter(c, h, c', h);
    LeadersAfter(c, h, c', h, n);
    RootedAfter(c, h, c', h);
    MessagesAfter(c, h, c', h);
    AcksKept(c, h, c', h, n);
    CompletenessAfter(c, h, c', h);
    VotesInformedAfter(c, h, c', h);
    AppliedAfter(c, c', n);
    CommitsSafeAfter(c, h, c', h);
    MembersAfter(c, c', n);
  }

  lemma AcksKept(c: Cluster, h: History, c': Cluster, h': History, n: int)
    requires AcksHeld(c, h)
    requires n in c.nodes && n in c'.nodes && c'.nodes == c.nodes[n := c'.nodes[n]]
    requires c'.nodes[n].log == c.nodes[n].log && c'.nodes[n].currentTerm == c.nodes[n].currentTerm
    requires h' == h
    ensures AcksHeld(c', h')
  {
    forall k | k in h'.acks
      ensures AckOk(c', h', k)
    {
      assert AckOk(c, h, k);
    }
  }

  lemma MatchKeeps(c: Cluster, h: History, r: AppendResponse)
    requires Inv(c, h) && r in c.appendResponses && r.to in c.nodes && r.reply.success
    requires c.nodes[r.to].role == Leader && c.nodes[r.to].currentTerm == r.term
    ensures Inv(WithNode(c, r.to, RecordMatch(c.nodes[r.to], r.from, r.prevIndex, r.count)), h)
    ensures r.prevIndex + r.count < |c.nodes[r.to].log|
  {
    hide VotesRecorded, VotesCounted, VoteMessages, LogsRooted, AcksHeld, Commitment;
    var s := c.nodes[r.to];
    var s' := RecordMatch(s, r.from, r.prevIndex, r.count);
    LeaderFacts(c, h, r.to);
    hide LeadersElected;
    assert AppendResponseOk(h, c.nodes.Keys, r) && InBounds(s);
    forall p | p in s'.peers
      ensures MatchOk(h, s', p)
    {
      assert MatchOk(h, s, p);
    }
    assert InBounds(s');
    hide Elections, Replication, AppendMessages, MatchesAcked, InBounds;
    BookkeepingKeeps(c, h, r.to, s');
  }

  lemma BackOffKeeps(c: Cluster, h: History, n: int, p: int)
    requires Inv(c, h) && n in c.nodes && c.nodes[n].role == Leader
    ensures Inv(WithNode(c, n, BackOff(c.nodes[n], p)), h)
  {
    hide Elections, LogsRooted, AppendMessages, AcksHeld, Commitment;
    var s := c.nodes[n];
    var s' := BackOff(s, p);
    assert InBounds(s);
    forall q | q in s'.peers
      ensures MatchOk(h, s', q)
    {
      assert MatchOk(h, s, q);
    }
    hide Replication, MatchesAcked;
    BookkeepingKeeps(c, h, n, s');
  }

  lemma {:induction false} MatchCountIs(matchIndex: map<int, nat>, peers: seq<int>, n: nat)
    requires Distinct(peers)
    ensures MatchCount(matchIndex, peers, n) == |set p | p in peers && Lookup(matchIndex, p) >= n|
  {
    if peers != [] {
      var front, last := peers[..|peers| - 1], peers[|peers| - 1];
      MatchCountIs(matchIndex, front, n);
      var before := set p | p in front && Lookup(matchIndex, p) >= n;
      var all := set p | p in peers && Lookup(matchIndex, p) >= n;
      assert peers == front + [last];
      assert last !in front;
      if Lookup(matchIndex, last) >= n {
        assert all == before + {last};
      } else {
        assert all == before;
      }
    }
  }

  /** An entry of its own term that a leader finds on a majority is committed. */
  lemma ReplicatedIsCommitted(c: Cluster, h: History, n: int, i: nat)
    requires Members(c) && LeadersElected(c, h) && LeadersAck(h) && MatchesAcked(c, h)
    requires n in c.nodes && c.nodes[n].role == Leader && i > 0 && Replicated(c.nodes[n], i)
    ensures Committed(c, h, c.nodes[n].currentTerm, i)
  {
    var s := c.nodes[n];
    LeaderFacts(c, h, n);
    assert KnowsPeers(s, n, c.nodes.Keys);
    ClusterSize(s, n, c.nodes.Keys);
    MatchCountIs(s.matchIndex, s.peers, i);
    var matched := set p | p in s.peers && Lookup(s.matchIndex, p) >= i;
    forall p | p in matched + {n}
      ensures p in Holders(c, h, s.currentTerm, i)
    {
      assert p in matched ==> MatchOk(h, s, p);
      assert h.leader[s.currentTerm] == n;
    }
    SubsetCard(matched + {n}, Holders(c, h, s.currentTerm, i));
  }

  lemma AdvanceCommits(c: Cluster, h: History, n: int, s': NodeState)
    requires CommitsSafe(c, h) && AppliedExactly(c) && n in c.nodes && s'.commitIndex < |c.nodes[n].log|
    requires s' == c.nodes[n].(commitIndex := s'.commitIndex, lastApplied := s'.lastApplied, applied := s'.applied)
    requires Committed(c, h, s'.currentTerm, s'.commitIndex) && h.leaderLog[s'.currentTerm] == s'.log
    requires AppliedOk(s')
    ensures CommitsSafe(WithNode(c, n, s'), h) && AppliedExactly(WithNode(c, n, s'))
  {
    var c' := WithNode(c, n, s');
    assert Evolves(c, h, c', h);
    RequestCommitsAfter(c, h, c', h);
    forall m | m in c'.nodes
      ensures NodeCommitOk(c', h, m) && AppliedOk(c'.nodes[m])
    {
      if m == n {
        CommittedAfter(c, h, c', h, s'.currentTerm, s'.commitIndex);
        assert CommittedBy(c', h, s'.log, s'.commitIndex, s'.currentTerm, s'.currentTerm, s'.commitIndex);
      } else {
        assert NodeCommitOk(c, h, m) && AppliedOk(c.nodes[m]);
        CommitOkAfter(c, h, c', h, c.nodes[m].log, c.nodes[m].log, c.nodes[m].commitIndex,
          c.nodes[m].currentTerm, c.nodes[m].currentTerm);
      }
    }
  }

  /** `s'` is node `n` of `c` with only its commit index and what it has applied changed. */
  predicate Raised(c: Cluster, n: int, s': NodeState) {
    && n in c.nodes
    && s' == c.nodes[n].(commitIndex := s'.commitIndex, lastApplied := s'.lastApplied, applied := s'.applied)
  }

  lemma RaiseElections(c: Cluster, h: History, n: int, s': NodeState)
    requires Raised(c, n, s') && Members(c) && Elections(c, h)
    ensures Members(WithNode(c, n, s')) && Elections(WithNode(c, n, s'), h)
  {
    hide VotesRecorded, VotesCounted, VoteMessages, LeadersElected;
    var c' := WithNode(c, n, s');
    assert InBounds(c.nodes[n]);
    VotesAfter(c, h, c', h, n);
    VoteMessagesAfter(c, h, c', h);
    LeadersAfter(c, h, c', h, n);
    MembersAfter(c, c', n);
  }

  lemma RaiseReplication(c: Cluster, h: History, n: int, s': NodeState)
    requires Raised(c, n, s') && Replication(c, h)
    ensures Replication(WithNode(c, n, s'), h)
  {
    hide LogsRooted, AppendMessages, AcksHeld, MatchesAcked;
    var c' := WithNode(c, n, s');
    RootedAfter(c, h, c', h);
    MessagesAfter(c, h, c', h);
    AcksHeldAfter(c, h, c', h, n);
    MatchesAfter(c, h, c', h, n);
  }

  lemma RaiseCommit(c: Cluster, h: History, n: int, s': NodeState)
    requires Inv(c, h) && Raised(c, n, s') && c.nodes[n].role == Leader && s'.commitIndex < |c.nodes[n].log|
    requires Committed(c, h, s'.currentTerm, s'.commitIndex) && h.leaderLog[s'.currentTerm] == s'.log
    requires AppliedOk(s')
    ensures Inv(WithNode(c, n, s'), h)
  {
    hide Members, Elections, Replication, LeadersComplete, AcksRetained, VotesInformed, CommitsSafe, AppliedExactly,
      Committed, AppliedOk;
    var c' := WithNode(c, n, s');
    AdvanceCommits(c, h, n, s');
    RaiseElections(c, h, n, s');
    RaiseReplication(c, h, n, s');
    CompletenessAfter(c, h, c', h);
    VotesInformedAfter(c, h, c', h);
  }

  /** A leader moves its commit index. */
  lemma AdvanceKeeps(c: Cluster, h: History, n: int)
    requires Inv(c, h) && n in c.nodes && c.nodes[n].role == Leader
    ensures Inv(WithNode(c, n, AdvanceCommit(c.nodes[n])), h)
    ensures c.nodes[n].applied <= AdvanceCommit(c.nodes[n]).applied
  {
    hide VotesRecorded, VotesCounted, VoteMessages, LeadersElected, LogsRooted, AppendMessages, AcksHeld, MatchesAcked,
      LeadersComplete, AcksRetained, VotesInformed, CommitsSafe;
    var s, s' := c.nodes[n], AdvanceCommit(c.nodes[n]);
    var k := CommitPoint(s, LastIndex(s.log));
    if k == s.commitIndex {
      assert WithNode(c, n, s').nodes == c.nodes;
    } else {
      assert AppliedOk(s);
      ReplicatedIsCommitted(c, h, n, k);
      ApplyOk(s, k);
      LeaderFacts(c, h, n);
      hide Inv, Members, Elections, Replication, Commitment, AppliedOk;
      RaiseCommit(c, h, n, s');
    }
  }
}
