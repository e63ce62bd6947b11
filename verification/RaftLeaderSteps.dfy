/** A leader's own steps keep the invariant: winning an election, broadcasting, taking a client's command. */
module RaftLeaderSteps {
  import opened Bytes
  import opened RaftTypes
  import opened RaftHandlers
  import opened RaftCluster
  import opened RaftInvariants
  import opened RaftEvolution
  import opened RaftElectionSteps
  import opened Quorum

  // ---------- Winning ----------

  lemma {:induction false} DistinctSize(s: seq<int>)
    requires Distinct(s)
    ensures |set p | p in s| == |s|
  {
    if s != [] {
      var front := s[..|s| - 1];
      DistinctSize(front);
      assert (set p | p in s) == (set p | p in front) + {s[|s| - 1]};
    }
  }

  lemma ClusterSize(s: NodeState, n: int, ids: set<int>)
    requires KnowsPeers(s, n, ids) && n in ids
    ensures |ids| == |s.peers| + 1
  {
    DistinctSize(s.peers);
    var others := set p | p in s.peers;
    assert forall p :: p in ids <==> p in others || p == n;
    assert ids == others + {n};
  }

  /** The counter of a candidate with a majority stands for a majority of voters. */
  lemma CountedQuorum(c: Cluster, h: History, n: int)
    requires Members(c) && VotesCounted(c, h) && n in c.nodes
    requires c.nodes[n].role == Candidate && c.nodes[n].votesReceived >= Majority(c.nodes[n])
    ensures (n, c.nodes[n].currentTerm) in h.counted
    ensures IsQuorum(h.counted[(n, c.nodes[n].currentTerm)], c.nodes.Keys)
  {
    assert CandidateOk(h, n, c.nodes[n]);
    assert KnowsPeers(c.nodes[n], n, c.nodes.Keys);
    ClusterSize(c.nodes[n], n, c.nodes.Keys);
    var k := (n, c.nodes[n].currentTerm);
    forall v | v in h.counted[k]
      ensures v in c.nodes
    {
      assert CountOk(c, h, k, v);
    }
  }

  /** Two winners of a term share a voter, so they are the same node. */
  lemma SameWinner(c: Cluster, h: History, n: int, t: nat, voters: set<int>, winner: int)
    requires VotesCounted(c, h) && (n, t) in h.counted
    requires IsQuorum(h.counted[(n, t)], c.nodes.Keys) && IsQuorum(voters, c.nodes.Keys)
    requires forall v | v in voters :: (v, t) in h.votes && h.votes[(v, t)] == winner
    ensures winner == n
  {
    QuorumsMeet(voters, h.counted[(n, t)], c.nodes.Keys);
    var v :| v in voters && v in h.counted[(n, t)];
    assert CountOk(c, h, (n, t), v);
  }

  /** No term gets a second leader. */
  lemma NoLeaderYet(c: Cluster, h: History, n: int)
    requires Members(c) && VotesCounted(c, h) && LeadersElected(c, h) && n in c.nodes
    requires c.nodes[n].role == Candidate && c.nodes[n].votesReceived >= Majority(c.nodes[n])
    ensures c.nodes[n].currentTerm !in h.leader
  {
    var t := c.nodes[n].currentTerm;
    CountedQuorum(c, h, n);
    assert t in h.leader ==> LeaderOk(c, h, t);
    if t in h.leader {
      SameWinner(c, h, n, t, h.voters[t], h.leader[t]);
    }
  }

  function RecordWin(h: History, s: NodeState): History {
    var k := (s.id, s.currentTerm);
    h.(leader := h.leader[s.currentTerm := s.id],
       voters := h.voters[s.currentTerm := if k in h.counted then h.counted[k] else {}],
       leaderLog := h.leaderLog[s.currentTerm := s.log],
       acks := h.acks[k := LastIndex(s.log)])
  }

  function WithWin(c: Cluster, n: int): Cluster
    requires n in c.nodes
  {
    WithNode(c, n, BecomeLeader(c.nodes[n]))
  }

  ghost predicate Wins(c: Cluster, h: History, n: int) {
    && n in c.nodes && c.nodes[n].id == n && c.nodes[n].role == Candidate
    && c.nodes[n].currentTerm !in h.leader && c.nodes[n].currentTerm !in h.leaderLog
    && (n, c.nodes[n].currentTerm) in h.counted
    && IsQuorum(h.counted[(n, c.nodes[n].currentTerm)], c.nodes.Keys)
    && CandidateOk(h, n, c.nodes[n])
  }

  lemma WinEvolves(c: Cluster, h: History, n: int)
    requires Wins(c, h, n) && AcksHeld(c, h)
    ensures Evolves(c, h, WithWin(c, n), RecordWin(h, c.nodes[n]))
    ensures (n, c.nodes[n].currentTerm) !in h.acks
  {
    var k := (n, c.nodes[n].currentTerm);
    assert k in h.acks ==> AckOk(c, h, k);
  }

  lemma WinLeaders(c: Cluster, h: History, n: int)
    requires VotesCounted(c, h) && LeadersElected(c, h) && Wins(c, h, n) && c.nodes[n].currentTerm > 0
    ensures LeadersElected(WithWin(c, n), RecordWin(h, c.nodes[n]))
  {
    var c' := WithWin(c, n);
    var h' := RecordWin(h, c.nodes[n]);
    assert c'.nodes.Keys == c.nodes.Keys;
    forall t | t in h'.leader
      ensures LeaderOk(c', h', t)
    {
      if t == c.nodes[n].currentTerm {
        forall v | v in h'.voters[t]
          ensures (v, t) in h'.votes && h'.votes[(v, t)] == n
        {
          assert CountOk(c, h, (n, t), v);
        }
      } else {
        assert LeaderOk(c, h, t);
      }
    }
    forall m | m in c'.nodes
      ensures RoleOk(h', m, c'.nodes[m])
    {
      assert RoleOk(h, m, c.nodes[m]);
    }
  }

  lemma WinElections(c: Cluster, h: History, n: int)
    requires Elections(c, h) && Wins(c, h, n) && c.nodes[n].currentTerm > 0
    ensures Elections(WithWin(c, n), RecordWin(h, c.nodes[n]))
  {
    hide VotesRecorded, VotesCounted, VoteMessages, LeadersElected;
    var c' := WithWin(c, n);
    var h' := RecordWin(h, c.nodes[n]);
    VotesAfter(c, h, c', h', n);
    VoteMessagesAfter(c, h, c', h');
    WinLeaders(c, h, n);
  }

  lemma WinLogs(c: Cluster, h: History, n: int)
    requires LogsRooted(c, h) && Wins(c, h, n) && LogsGrow(h, RecordWin(h, c.nodes[n]))
    ensures LogsRooted(WithWin(c, n), RecordWin(h, c.nodes[n]))
  {
    var s := c.nodes[n];
    var h' := RecordWin(h, s);
    assert h.candidateLog[(n, s.currentTerm)] == s.log;
    LogOkAfter(h, h', s.log, s.currentTerm - 1, s.currentTerm);
    hide LogsRooted;
    RootedAfter(c, h, WithWin(c, n), h');
  }

  lemma WinAcks(c: Cluster, h: History, n: int)
    requires AcksHeld(c, h) && MatchesAcked(c, h) && Wins(c, h, n)
    requires Evolves(c, h, WithWin(c, n), RecordWin(h, c.nodes[n]))
    ensures AcksHeld(WithWin(c, n), RecordWin(h, c.nodes[n])) && MatchesAcked(WithWin(c, n), RecordWin(h, c.nodes[n]))
  {
    var c' := WithWin(c, n);
    var h' := RecordWin(h, c.nodes[n]);
    forall k | k in h'.acks
      ensures AckOk(c', h', k)
    {
      assert k in h.acks ==> AckOk(c, h, k);
    }
    forall m, p | m in c'.nodes && c'.nodes[m].role == Leader && p in c'.nodes[m].peers
      ensures MatchOk(h', c'.nodes[m], p)
    {
      assert m != n ==> MatchOk(h, c.nodes[m], p);
    }
  }

  lemma WinReplication(c: Cluster, h: History, n: int)
    requires Replication(c, h) && Wins(c, h, n) && h.leader.Keys == h.leaderLog.Keys
    ensures Replication(WithWin(c, n), RecordWin(h, c.nodes[n]))
  {
    hide LogsRooted, AppendMessages, AcksHeld, MatchesAcked;
    WinEvolves(c, h, n);
    WinLogs(c, h, n);
    WinAcks(c, h, n);
    MessagesAfter(c, h, WithWin(c, n), RecordWin(h, c.nodes[n]));
  }

  /** None of the new leader's entries is of its own term yet. */
  lemma WinOwn(c: Cluster, h: History, n: int, t: nat, i: nat)
    requires LogsRooted(c, h) && Wins(c, h, n) && Own(RecordWin(h, c.nodes[n]), t, i)
    ensures Own(h, t, i)
  {
    assert h.candidateLog[(n, c.nodes[n].currentTerm)] == c.nodes[n].log;
  }

  /** A majority's vote makes the new leader's log complete. */
  lemma WinnerComplete(c: Cluster, h: History, n: int, t: nat, i: nat)
    requires VotesRecorded(c, h) && VotesCounted(c, h) && VotesInformed(c, h) && Wins(c, h, n)
    requires Committable(c, h, t, i) && t < c.nodes[n].currentTerm
    ensures Agree(c.nodes[n].log, h.leaderLog[t], i + 1)
  {
    var u := c.nodes[n].currentTerm;
    QuorumsMeet(Supporters(c, h, t, i), h.counted[(n, u)], c.nodes.Keys);
    var v :| v in Supporters(c, h, t, i) && v in h.counted[(n, u)];
    assert CountOk(c, h, (n, u), v);
    assert VoteOk(c, h, (v, u));
    assert InformedAt(c, h, t, i, (v, u));
  }

  lemma WinComplete(c: Cluster, h: History, n: int)
    requires VotesRecorded(c, h) && VotesCounted(c, h) && VotesInformed(c, h) && Wins(c, h, n) && LogsRooted(c, h)
    requires LeadersComplete(c, h) && Evolves(c, h, WithWin(c, n), RecordWin(h, c.nodes[n]))
    ensures LeadersComplete(WithWin(c, n), RecordWin(h, c.nodes[n]))
  {
    hide LogsRooted, VotesRecorded, VotesCounted, VotesInformed;
    var c' := WithWin(c, n);
    var h' := RecordWin(h, c.nodes[n]);
    forall t: nat, i: nat, u: nat
      ensures CompleteAt(c', h', t, i, u)
    {
      if Committable(c', h', t, i) && t < u {
        WinOwn(c, h, n, t, i);
        CommittableBefore(c, h, c', h', t, i);
        assert CompleteAt(c, h, t, i, u);
        if u == c.nodes[n].currentTerm {
          WinnerComplete(c, h, n, t, i);
        }
      }
    }
  }

  lemma WinKept(c: Cluster, h: History, n: int)
    requires VotesInformed(c, h) && AcksRetained(c, h) && Wins(c, h, n) && LogsRooted(c, h) && AcksHeld(c, h)
    requires Evolves(c, h, WithWin(c, n), RecordWin(h, c.nodes[n]))
    ensures VotesInformed(WithWin(c, n), RecordWin(h, c.nodes[n]))
    ensures AcksRetained(WithWin(c, n), RecordWin(h, c.nodes[n]))
  {
    hide LogsRooted, AcksHeld;
    var c' := WithWin(c, n);
    var h' := RecordWin(h, c.nodes[n]);
    forall t: nat, i: nat, k: (int, nat)
      ensures InformedAt(c', h', t, i, k)
    {
      if Committable(c', h', t, i) {
        WinOwn(c, h, n, t, i);
        CommittableBefore(c, h, c', h', t, i);
        assert InformedAt(c, h, t, i, k);
      }
    }
    forall t: nat, i: nat, m: int
      ensures RetainedAt(c', h', t, i, m)
    {
      if Committable(c', h', t, i) {
        WinOwn(c, h, n, t, i);
        CommittableBefore(c, h, c', h', t, i);
        assert RetainedAt(c, h, t, i, m);
      }
    }
  }

  lemma WinCommitment(c: Cluster, h: History, n: int)
    requires VotesRecorded(c, h) && VotesCounted(c, h) && Replication(c, h) && Commitment(c, h) && Wins(c, h, n)
    ensures Commitment(WithWin(c, n), RecordWin(h, c.nodes[n]))
  {
    hide VotesRecorded, VotesCounted, LogsRooted, AcksHeld, MatchesAcked, AppendMessages,
      LeadersComplete, AcksRetained, VotesInformed, CommitsSafe, AppliedExactly;
    var c' := WithWin(c, n);
    var h' := RecordWin(h, c.nodes[n]);
    WinEvolves(c, h, n);
    WinComplete(c, h, n);
    WinKept(c, h, n);
    AppliedAfter(c, c', n);
    CommitsSafeAfter(c, h, c', h');
  }

  /** A candidate with a majority of votes becomes leader. */
  lemma WinKeeps(c: Cluster, h: History, n: int)
    requires Inv(c, h) && n in c.nodes
    requires c.nodes[n].role == Candidate && c.nodes[n].votesReceived >= Majority(c.nodes[n])
    ensures Inv(WithWin(c, n), RecordWin(h, c.nodes[n]))
  {
    hide VotesRecorded, VotesCounted, VoteMessages, LeadersElected, LogsRooted, AppendMessages, AcksHeld, MatchesAcked,
      Commitment;
    WinsNow(c, h, n);
    hide Elections, Replication;
    assert KnowsPeers(c.nodes[n], n, c.nodes.Keys);
    WinElections(c, h, n);
    WinReplication(c, h, n);
    WinCommitment(c, h, n);
    MembersAfter(c, WithWin(c, n), n);
  }

  lemma WinsNow(c: Cluster, h: History, n: int)
    requires Members(c) && VotesCounted(c, h) && LeadersElected(c, h) && LogsRooted(c, h) && n in c.nodes
    requires c.nodes[n].role == Candidate && c.nodes[n].votesReceived >= Majority(c.nodes[n])
    ensures Wins(c, h, n) && c.nodes[n].currentTerm > 0 && h.leader.Keys == h.leaderLog.Keys
  {
    CountedQuorum(c, h, n);
    NoLeaderYet(c, h, n);
    assert KnowsPeers(c.nodes[n], n, c.nodes.Keys);
    assert CandidateOk(h, n, c.nodes[n]);
    assert h.candidateLog[(n, c.nodes[n].currentTerm)] == c.nodes[n].log;
  }

  // ---------- Broadcasting ----------

  function WithCalls(c: Cluster, n: int): Cluster
    requires n in c.nodes
  {
    c.(appendRequests := c.appendRequests + Broadcast(c.nodes[n]))
  }

  /** The call to one peer carries a slice of the leader's log and a commit index within that slice. */
  lemma CallOk(c: Cluster, h: History, n: int, p: int)
    requires n in c.nodes && p in c.nodes[n].peers && c.nodes[n].role == Leader
    requires KnowsPeers(c.nodes[n], n, c.nodes.Keys) && InBounds(c.nodes[n])
    requires RoleOk(h, n, c.nodes[n]) && h.leader.Keys == h.leaderLog.Keys
    requires h.leaderLog[c.nodes[n].currentTerm] == c.nodes[n].log && AppliedOk(c.nodes[n])
    ensures AppendRequestOk(h, c.nodes.Keys, AppendRequestTo(c.nodes[n], p))
  {
  }

  lemma LeaderFacts(c: Cluster, h: History, n: int)
    requires LeadersElected(c, h) && n in c.nodes && c.nodes[n].role == Leader
    ensures RoleOk(h, n, c.nodes[n]) && h.leader.Keys == h.leaderLog.Keys == h.voters.Keys
    ensures LeaderOk(c, h, c.nodes[n].currentTerm) && h.leaderLog[c.nodes[n].currentTerm] == c.nodes[n].log
  {
    assert RoleOk(h, n, c.nodes[n]);
    assert LeaderOk(c, h, c.nodes[n].currentTerm);
  }

  lemma SendMessages(c: Cluster, h: History, n: int)
    requires Members(c) && LeadersElected(c, h) && AppendMessages(c, h) && AppliedExactly(c) && n in c.nodes
    ensures AppendMessages(WithCalls(c, n), h)
  {
    var c' := WithCalls(c, n);
    forall m | m in c'.appendRequests
      ensures AppendRequestOk(h, c'.nodes.Keys, m)
    {
      if m in c.appendRequests {
        assert AppendRequestOk(h, c.nodes.Keys, m);
      } else {
        var p :| p in c.nodes[n].peers && m == AppendRequestTo(c.nodes[n], p);
        assert KnowsPeers(c.nodes[n], n, c.nodes.Keys) && InBounds(c.nodes[n]) && AppliedOk(c.nodes[n]);
        LeaderFacts(c, h, n);
        CallOk(c, h, n, p);
      }
    }
    forall m | m in c'.appendResponses
      ensures AppendResponseOk(h, c'.nodes.Keys, m)
    {
      assert AppendResponseOk(h, c.nodes.Keys, m);
    }
  }

  lemma SendCommits(c: Cluster, h: History, n: int)
    requires LeadersElected(c, h) && CommitsSafe(c, h) && n in c.nodes
    ensures CommitsSafe(WithCalls(c, n), h)
  {
    var c' := WithCalls(c, n);
    forall m | m in c'.nodes
      ensures NodeCommitOk(c', h, m)
    {
      assert NodeCommitOk(c, h, m);
      CommitOkAfter(c, h, c', h, c.nodes[m].log, c.nodes[m].log, c.nodes[m].commitIndex,
        c.nodes[m].currentTerm, c.nodes[m].currentTerm);
    }
    RequestCommitsAfter(c, h, c', h);
    assert c.nodes[n].role == Leader ==> NodeCommitOk(c', h, n);
    forall m | m in c'.appendRequests
      ensures RequestCommitOk(c', h, m)
    {
      if m !in c.appendRequests {
        LeaderFacts(c, h, n);
      }
    }
  }

  /** A node broadcasts. */
  lemma SendKeeps(c: Cluster, h: History, n: int)
    requires Inv(c, h) && n in c.nodes
    ensures Inv(WithCalls(c, n), h)
  {
    hide VotesRecorded, VotesCounted, VoteMessages, LeadersElected, LogsRooted, AppendMessages, AcksHeld, MatchesAcked,
      LeadersComplete, AcksRetained, VotesInformed, CommitsSafe, AppliedExactly;
    var c' := WithCalls(c, n);
    VotesAfter(c, h, c', h, n);
    VoteMessagesAfter(c, h, c', h);
    LeadersAfter(c, h, c', h, n);
    SendMessages(c, h, n);
    RootedAfter(c, h, c', h);
    AcksHeldAfter(c, h, c', h, n);
    MatchesAfter(c, h, c', h, n);
    CompletenessAfter(c, h, c', h);
    VotesInformedAfter(c, h, c', h);
    SendCommits(c, h, n);
    AppliedAfter(c, c', n);
    MembersAfter(c, c', n);
  }

  // ---------- A client's command ----------

  function RecordSubmit(h: History, s: NodeState): History {
    h.(leaderLog := h.leaderLog[s.currentTerm := s.log],
       acks := h.acks[(s.id, s.currentTerm) := LastIndex(s.log)])
  }

  /** `s'` is leader `n` of `c` with one entry of its own term appended. */
  ghost predicate Submits(c: Cluster, h: History, n: int, s': NodeState) {
    && n in c.nodes && c.nodes[n].role == Leader && c.nodes[n].id == n
    && RoleOk(h, n, c.nodes[n]) && h.leader.Keys == h.leaderLog.Keys == h.voters.Keys
    && LeaderOk(c, h, c.nodes[n].currentTerm)
    && |s'.log| == |c.nodes[n].log| + 1
    && var e := s'.log[|c.nodes[n].log|];
    && e.index == |c.nodes[n].log| && e.term == c.nodes[n].currentTerm
    && s' == c.nodes[n].(log := c.nodes[n].log + [e])
  }

  lemma SubmitEvolves(c: Cluster, h: History, n: int, s': NodeState)
    requires Submits(c, h, n, s') && AcksHeld(c, h)
    ensures Evolves(c, h, WithNode(c, n, s'), RecordSubmit(h, s'))
  {
    var h' := RecordSubmit(h, s');
    assert WithNode(c, n, s').nodes.Keys == c.nodes.Keys;
    assert LogsGrow(h, h');
    forall m: int, t: nat
      ensures Ack(h, m, t) <= Ack(h', m, t)
      ensures Ack(h', m, t) > Ack(h, m, t) ==> m in c.nodes && c.nodes[m].currentTerm <= t
    {
      SubmitAckGrows(c, h, n, s', m, t);
    }
    hide AcksHeld, Submits, LogsGrow, Ack;
  }

  lemma SubmitAckGrows(c: Cluster, h: History, n: int, s': NodeState, m: int, t: nat)
    requires Submits(c, h, n, s') && AcksHeld(c, h)
    ensures Ack(h, m, t) <= Ack(RecordSubmit(h, s'), m, t)
    ensures Ack(RecordSubmit(h, s'), m, t) > Ack(h, m, t) ==> m == n && t == s'.currentTerm
  {
    assert (m, t) in h.acks ==> AckOk(c, h, (m, t));
  }

  lemma SubmitElections(c: Cluster, h: History, n: int, s': NodeState)
    requires Elections(c, h) && Submits(c, h, n, s')
    ensures Elections(WithNode(c, n, s'), RecordSubmit(h, s'))
  {
    var c' := WithNode(c, n, s');
    var h' := RecordSubmit(h, s');
    assert c'.nodes.Keys == c.nodes.Keys;
    VotesAfter(c, h, c', h', n);
    VoteMessagesAfter(c, h, c', h');
    hide VotesRecorded, VotesCounted, VoteMessages;
    forall t | t in h'.leader
      ensures LeaderOk(c', h', t)
    {
      assert LeaderOk(c, h, t);
    }
    forall m | m in c'.nodes
      ensures RoleOk(h', m, c'.nodes[m])
    {
      assert RoleOk(h, m, c.nodes[m]);
    }
  }

  lemma SubmitLogs(c: Cluster, h: History, n: int, s': NodeState)
    requires LogsRooted(c, h) && Submits(c, h, n, s') && LogsGrow(h, RecordSubmit(h, s'))
    ensures LogsRooted(WithNode(c, n, s'), RecordSubmit(h, s'))
  {
    var s := c.nodes[n];
    var h' := RecordSubmit(h, s');
    LogOkAfter(h, h', s.log, s.currentTerm, s.currentTerm);
    forall i | 0 < i < |s'.log|
      ensures RootedAt(h', s'.log, i)
    {
      assert i < |s.log| ==> RootedAt(h', s.log, i);
    }
    assert LogOk(h', s'.log, s'.currentTerm);
    hide LogsRooted;
    RootedAfter(c, h, WithNode(c, n, s'), h');
  }

  lemma SubmitAcks(c: Cluster, h: History, n: int, s': NodeState)
    requires AcksHeld(c, h) && MatchesAcked(c, h) && Submits(c, h, n, s')
    requires Evolves(c, h, WithNode(c, n, s'), RecordSubmit(h, s'))
    ensures AcksHeld(WithNode(c, n, s'), RecordSubmit(h, s')) && MatchesAcked(WithNode(c, n, s'), RecordSubmit(h, s'))
  {
    var c' := WithNode(c, n, s');
    var h' := RecordSubmit(h, s');
    forall k | k in h'.acks
      ensures AckOk(c', h', k)
    {
      assert k in h.acks ==> AckOk(c, h, k);
    }
    forall m, p | m in c'.nodes && c'.nodes[m].role == Leader && p in c'.nodes[m].peers
      ensures MatchOk(h', c'.nodes[m], p)
    {
      assert MatchOk(h, c.nodes[m], p);
    }
  }

  lemma SubmitReplication(c: Cluster, h: History, n: int, s': NodeState)
    requires Replication(c, h) && Submits(c, h, n, s')
    ensures Replication(WithNode(c, n, s'), RecordSubmit(h, s'))
  {
    hide LogsRooted, AppendMessages, AcksHeld, MatchesAcked;
    SubmitEvolves(c, h, n, s');
    SubmitLogs(c, h, n, s');
    SubmitAcks(c, h, n, s');
    MessagesAfter(c, h, WithNode(c, n, s'), RecordSubmit(h, s'));
    assert LeadersAck(RecordSubmit(h, s'));
  }

  /** A fresh entry of a term is not committable when a later term already has a leader. */
  lemma FreshNotCommittable(c: Cluster, h: History, n: int, s': NodeState, u: nat)
    requires VotesRecorded(c, h) && LeadersElected(c, h) && AcksHeld(c, h) && Submits(c, h, n, s')
    requires u in h.leaderLog && u > s'.currentTerm
    ensures !Committable(WithNode(c, n, s'), RecordSubmit(h, s'), s'.currentTerm, |c.nodes[n].log|)
  {
    var c' := WithNode(c, n, s');
    var h' := RecordSubmit(h, s');
    var t := s'.currentTerm;
    var i := |c.nodes[n].log|;
    assert c'.nodes.Keys == c.nodes.Keys;
    assert LeaderOk(c, h, u);
    forall v | v in h.voters[u]
      ensures v !in Supporters(c', h', t, i)
    {
      assert VoteOk(c, h, (v, u));
      assert (v, t) in h.acks ==> AckOk(c, h, (v, t));
    }
    if Committable(c', h', t, i) {
      QuorumsMeet(Supporters(c', h', t, i), h.voters[u], c.nodes.Keys);
    }
  }

  lemma SubmitComplete(c: Cluster, h: History, n: int, s': NodeState)
    requires VotesRecorded(c, h) && LeadersElected(c, h) && AcksHeld(c, h) && LeadersComplete(c, h) && Submits(c, h, n, s')
    requires Evolves(c, h, WithNode(c, n, s'), RecordSubmit(h, s'))
    ensures LeadersComplete(WithNode(c, n, s'), RecordSubmit(h, s'))
  {
    hide VotesRecorded, LeadersElected, AcksHeld, Submits, Evolves, CompleteAt;
    forall t: nat, i: nat, u: nat
      ensures CompleteAt(WithNode(c, n, s'), RecordSubmit(h, s'), t, i, u)
    {
      assert CompleteAt(c, h, t, i, u);
      SubmitCompleteAt(c, h, n, s', t, i, u);
    }
  }

  lemma SubmitCompleteAt(c: Cluster, h: History, n: int, s': NodeState, t: nat, i: nat, u: nat)
    requires VotesRecorded(c, h) && LeadersElected(c, h) && AcksHeld(c, h) && CompleteAt(c, h, t, i, u)
    requires Submits(c, h, n, s') && Evolves(c, h, WithNode(c, n, s'), RecordSubmit(h, s'))
    ensures CompleteAt(WithNode(c, n, s'), RecordSubmit(h, s'), t, i, u)
  {
    hide VotesRecorded, LeadersElected, AcksHeld, Committable;
    var c' := WithNode(c, n, s');
    var h' := RecordSubmit(h, s');
    if Committable(c', h', t, i) && u in h'.leaderLog && t < u {
      if Own(h, t, i) {
        CommittableBefore(c, h, c', h', t, i);
      } else {
        CommittableOwn(c', h', t, i);
        FreshNotCommittable(c, h, n, s', u);
      }
    }
  }

  lemma CommittableOwn(c: Cluster, h: History, t: nat, i: nat)
    requires Committable(c, h, t, i)
    ensures Own(h, t, i)
  {
  }

  lemma SubmitRetained(c: Cluster, h: History, n: int, s': NodeState)
    requires AcksHeld(c, h) && LeadersAck(h) && AcksRetained(c, h) && Submits(c, h, n, s')
    requires Evolves(c, h, WithNode(c, n, s'), RecordSubmit(h, s'))
    ensures AcksRetained(WithNode(c, n, s'), RecordSubmit(h, s'))
  {
    var c' := WithNode(c, n, s');
    var h' := RecordSubmit(h, s');
    var T := s'.currentTerm;
    assert h.leader[T] == n;
    forall t: nat, i: nat, m: int
      ensures RetainedAt(c', h', t, i, m)
    {
      if Committable(c', h', t, i) && m in c'.nodes && Ack(h', m, t) >= i {
        if Own(h, t, i) {
          CommittableBefore(c, h, c', h', t, i);
          assert RetainedAt(c, h, t, i, m);
        } else {
          assert (m, T) in h.acks ==> AckOk(c, h, (m, T));
          assert m == n;
        }
      }
    }
  }

  lemma SubmitInformed(c: Cluster, h: History, n: int, s': NodeState)
    requires VotesRecorded(c, h) && AcksHeld(c, h) && VotesInformed(c, h) && Submits(c, h, n, s')
    requires Evolves(c, h, WithNode(c, n, s'), RecordSubmit(h, s'))
    ensures VotesInformed(WithNode(c, n, s'), RecordSubmit(h, s'))
  {
    var c' := WithNode(c, n, s');
    var h' := RecordSubmit(h, s');
    var T := s'.currentTerm;
    forall t: nat, i: nat, k: (int, nat)
      ensures InformedAt(c', h', t, i, k)
    {
      if Committable(c', h', t, i) && k in h'.votes && t < k.1 && Ack(h', k.0, t) >= i {
        assert VoteOk(c, h, k);
        assert (k.0, T) in h.acks ==> AckOk(c, h, (k.0, T));
        CommittableBefore(c, h, c', h', t, i);
        assert InformedAt(c, h, t, i, k);
      }
    }
  }

  lemma SubmitApplied(c: Cluster, n: int, s': NodeState)
    requires AppliedExactly(c) && n in c.nodes && c.nodes[n].log <= s'.log && s' == c.nodes[n].(log := s'.log)
    ensures AppliedExactly(WithNode(c, n, s'))
    ensures forall m | m in c.nodes ::
      Agree(c.nodes[m].log, WithNode(c, n, s').nodes[m].log, c.nodes[m].commitIndex + 1)
  {
    forall m | m in c.nodes
      ensures AppliedOk(WithNode(c, n, s').nodes[m])
      ensures Agree(c.nodes[m].log, WithNode(c, n, s').nodes[m].log, c.nodes[m].commitIndex + 1)
    {
      var s := c.nodes[m];
      assert AppliedOk(s);
      assert m == n ==> s'.log[1..s.commitIndex + 1] == s.log[1..s.commitIndex + 1];
    }
  }

  lemma SubmitCommitment(c: Cluster, h: History, n: int, s': NodeState)
    requires VotesRecorded(c, h) && LeadersElected(c, h) && Replication(c, h) && Commitment(c, h) && Submits(c, h, n, s')
    ensures Commitment(WithNode(c, n, s'), RecordSubmit(h, s'))
  {
    hide VotesRecorded, LeadersElected, LogsRooted, AppendMessages, AcksHeld, MatchesAcked,
      LeadersComplete, AcksRetained, VotesInformed, CommitsSafe, AppliedExactly;
    SubmitEvolves(c, h, n, s');
    SubmitComplete(c, h, n, s');
    SubmitRetained(c, h, n, s');
    SubmitInformed(c, h, n, s');
    SubmitApplied(c, n, s');
    CommitsSafeAfter(c, h, WithNode(c, n, s'), RecordSubmit(h, s'));
  }

  /** A leader appends a client's command to its log. */
  lemma SubmitKeeps(c: Cluster, h: History, n: int, key: seq<byte>, value: seq<byte>, tombstone: bool)
    requires Inv(c, h) && n in c.nodes && c.nodes[n].role == Leader
    ensures Inv(WithNode(c, n, Submit(c.nodes[n], key, value, tombstone)),
                RecordSubmit(h, Submit(c.nodes[n], key, value, tombstone)))
  {
    hide VotesRecorded, VotesCounted, VoteMessages, LeadersElected, Replication, Commitment;
    var s' := Submit(c.nodes[n], key, value, tombstone);
    assert KnowsPeers(c.nodes[n], n, c.nodes.Keys) && InBounds(c.nodes[n]);
    LeaderFacts(c, h, n);
    SubmitReplication(c, h, n, s');
    SubmitCommitment(c, h, n, s');
    SubmitElections(c, h, n, s');
    MembersAfter(c, WithNode(c, n, s'), n);
  }
}
