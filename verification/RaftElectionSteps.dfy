/** Steps of an election keep the invariant: a new term, a candidacy, a vote given or refused, a vote counted. */
module RaftElectionSteps {
  import opened RaftTypes
  import opened RaftHandlers
  import opened RaftCluster
  import opened RaftInvariants
  import opened RaftEvolution

  /** A node moves to a later term. */
  lemma BumpKeeps(c: Cluster, h: History, n: int, term: nat)
    requires Inv(c, h) && n in c.nodes && term > c.nodes[n].currentTerm
    ensures Inv(WithNode(c, n, BecomeFollower(c.nodes[n], term)), h)
  {
    hide VotesRecorded, VotesCounted, VoteMessages, LeadersElected, Replication, Commitment;
    var c' := WithNode(c, n, BecomeFollower(c.nodes[n], term));
    assert c'.nodes.Keys == c.nodes.Keys;
    VotesAfter(c, h, c', h, n);
    VoteMessagesAfter(c, h, c', h);
    LeadersAfter(c, h, c', h, n);
    StorageKept(c, h, c', h, n);
    MembersAfter(c, c', n);
  }

  lemma MembersAfter(c: Cluster, c': Cluster, n: int)
    requires Members(c) && n in c.nodes && n in c'.nodes && c'.nodes == c.nodes[n := c'.nodes[n]]
    requires c'.nodes[n].id == c.nodes[n].id && c'.nodes[n].peers == c.nodes[n].peers && InBounds(c'.nodes[n])
    ensures Members(c')
  {
    assert c'.nodes.Keys == c.nodes.Keys;
    forall m | m in c'.nodes
      ensures KnowsPeers(c'.nodes[m], m, c'.nodes.Keys) && InBounds(c'.nodes[m])
    {
      assert KnowsPeers(c.nodes[m], m, c.nodes.Keys) && InBounds(c.nodes[m]);
    }
  }

  // ---------- Elections ----------

  function RecordElection(h: History, s: NodeState): History {
    h.(votes := h.votes[(s.id, s.currentTerm) := s.id],
       candidateLog := h.candidateLog[(s.id, s.currentTerm) := s.log],
       counted := h.counted[(s.id, s.currentTerm) := {s.id}])
  }

  function WithElection(c: Cluster, n: int): Cluster
    requires n in c.nodes
  {
    var s := BecomeCandidate(c.nodes[n]);
    WithNode(c, n, s).(voteRequests := c.voteRequests + VoteRequests(s))
  }

  /** A node has no votes and no elections in terms it has not reached. */
  lemma LaterTermsFresh(c: Cluster, h: History, n: int, t: nat)
    requires VotesRecorded(c, h) && n in c.nodes && t > c.nodes[n].currentTerm
    ensures (n, t) !in h.votes && (n, t) !in h.candidateLog
  {
    assert (n, t) in h.votes ==> VoteOk(c, h, (n, t));
    assert (n, t) in h.candidateLog ==> ElectionOk(c, h, (n, t));
  }

  lemma ElectRecorded(c: Cluster, h: History, n: int)
    requires VotesRecorded(c, h) && n in c.nodes && c.nodes[n].id == n
    ensures VotesRecorded(WithElection(c, n), RecordElection(h, BecomeCandidate(c.nodes[n])))
  {
    var c' := WithElection(c, n);
    var h' := RecordElection(h, BecomeCandidate(c.nodes[n]));
    LaterTermsFresh(c, h, n, c.nodes[n].currentTerm + 1);
    forall k | k in h'.candidateLog
      ensures ElectionOk(c', h', k)
    {
      assert k in h.candidateLog ==> ElectionOk(c, h, k);
    }
    forall k | k in h'.votes
      ensures VoteOk(c', h', k)
    {
      assert k in h.votes ==> VoteOk(c, h, k);
    }
    forall m | m in c'.nodes
      ensures VoteFieldOk(h', m, c'.nodes[m])
    {
      assert VoteFieldOk(h, m, c.nodes[m]);
    }
  }

  lemma ElectCounted(c: Cluster, h: History, n: int)
    requires VotesRecorded(c, h) && VotesCounted(c, h) && n in c.nodes && c.nodes[n].id == n
    ensures VotesCounted(WithElection(c, n), RecordElection(h, BecomeCandidate(c.nodes[n])))
  {
    var c' := WithElection(c, n);
    var h' := RecordElection(h, BecomeCandidate(c.nodes[n]));
    LaterTermsFresh(c, h, n, c.nodes[n].currentTerm + 1);
    forall k, v | k in h'.counted && v in h'.counted[k]
      ensures CountOk(c', h', k, v)
    {
      assert k in h.counted && v in h.counted[k] ==> CountOk(c, h, k, v);
    }
    forall m | m in c'.nodes
      ensures CandidateOk(h', m, c'.nodes[m])
    {
      assert CandidateOk(h, m, c.nodes[m]);
    }
  }

  lemma ElectMessages(c: Cluster, h: History, n: int)
    requires VotesRecorded(c, h) && VoteMessages(c, h) && n in c.nodes && KnowsPeers(c.nodes[n], n, c.nodes.Keys)
    ensures VoteMessages(WithElection(c, n), RecordElection(h, BecomeCandidate(c.nodes[n])))
  {
    var c' := WithElection(c, n);
    var h' := RecordElection(h, BecomeCandidate(c.nodes[n]));
    LaterTermsFresh(c, h, n, c.nodes[n].currentTerm + 1);
    hide VotesRecorded;
    assert c'.nodes.Keys == c.nodes.Keys;
    forall m | m in c'.voteRequests
      ensures VoteRequestOk(h', c'.nodes.Keys, m)
    {
      assert m in c.voteRequests ==> VoteRequestOk(h, c.nodes.Keys, m);
    }
    forall m | m in c'.voteResponses
      ensures VoteResponseOk(h', c'.nodes.Keys, m) && !(m.to == n && m.term == c'.nodes[n].currentTerm)
    {
      assert VoteResponseOk(h, c.nodes.Keys, m);
    }
  }

  lemma ElectInformed(c: Cluster, h: History, n: int)
    requires AcksRetained(c, h) && VotesInformed(c, h) && n in c.nodes && c.nodes[n].id == n
    requires (n, c.nodes[n].currentTerm + 1) !in h.candidateLog
    requires Evolves(c, h, WithElection(c, n), RecordElection(h, BecomeCandidate(c.nodes[n])))
    ensures VotesInformed(WithElection(c, n), RecordElection(h, BecomeCandidate(c.nodes[n])))
  {
    var c' := WithElection(c, n);
    var h' := RecordElection(h, BecomeCandidate(c.nodes[n]));
    forall t: nat, i: nat, k: (int, nat)
      ensures InformedAt(c', h', t, i, k)
    {
      if Committable(c', h', t, i) {
        CommittableBefore(c, h, c', h', t, i);
        assert InformedAt(c, h, t, i, k) && RetainedAt(c, h, t, i, n);
      }
    }
  }

  lemma ElectStorage(c: Cluster, h: History, n: int)
    requires VotesRecorded(c, h) && Replication(c, h) && Commitment(c, h) && n in c.nodes && c.nodes[n].id == n
    ensures Replication(WithElection(c, n), RecordElection(h, BecomeCandidate(c.nodes[n])))
    ensures Commitment(WithElection(c, n), RecordElection(h, BecomeCandidate(c.nodes[n])))
  {
    hide VotesRecorded, LogsRooted, AppendMessages, AcksHeld, MatchesAcked,
      LeadersComplete, AcksRetained, VotesInformed, CommitsSafe, AppliedExactly;
    var c' := WithElection(c, n);
    var h' := RecordElection(h, BecomeCandidate(c.nodes[n]));
    StorageAfter(c, h, c', h', n);
    NodeRooted(c, h, n, h');
    RootedAfter(c, h, c', h');
    LaterTermsFresh(c, h, n, c.nodes[n].currentTerm + 1);
    ElectInformed(c, h, n);
  }

  /** A node turns candidate in the next term, votes for itself and asks its peers. */
  lemma ElectKeeps(c: Cluster, h: History, n: int)
    requires Inv(c, h) && n in c.nodes
    ensures Inv(WithElection(c, n), RecordElection(h, BecomeCandidate(c.nodes[n])))
  {
    hide VotesRecorded, VotesCounted, VoteMessages, LeadersElected, Replication, Commitment;
    var c' := WithElection(c, n);
    var h' := RecordElection(h, BecomeCandidate(c.nodes[n]));
    assert KnowsPeers(c.nodes[n], n, c.nodes.Keys);
    assert c'.nodes.Keys == c.nodes.Keys;
    LaterTermsFresh(c, h, n, c.nodes[n].currentTerm + 1);
    ElectRecorded(c, h, n);
    ElectCounted(c, h, n);
    ElectMessages(c, h, n);
    LeadersAfter(c, h, c', h', n);
    ElectStorage(c, h, n);
    MembersAfter(c, c', n);
  }

  lemma NodeRooted(c: Cluster, h: History, n: int, h': History)
    requires LogsRooted(c, h) && LogsGrow(h, h') && n in c.nodes
    ensures LogOk(h', c.nodes[n].log, c.nodes[n].currentTerm)
  {
    LogOkAfter(h, h', c.nodes[n].log, c.nodes[n].currentTerm, c.nodes[n].currentTerm);
  }

  /** A log that a voter finds no staler than its own has everything committable the voter has. */
  lemma NewerLogHas(c: Cluster, h: History, own: Log, other: Log, t: nat, i: nat)
    requires LogsRooted(c, h) && LeadersComplete(c, h) && LeadersElected(c, h)
    requires Rooted(h, own) && Rooted(h, other) && Committable(c, h, t, i)
    requires Agree(own, h.leaderLog[t], i + 1) && UpToDate(LastIndex(other), LastTerm(other), own)
    ensures Agree(other, h.leaderLog[t], i + 1)
  {
    var s := LastTerm(own);
    var u := LastTerm(other);
    assert RootedAt(h, own, LastIndex(own));
    assert LogOk(h, h.leaderLog[s], s);
    assert own[i].term == t <= s;
    assert t > 0 by {
      assert LeaderOk(c, h, t);
    }
    assert RootedAt(h, other, LastIndex(other));
    if u > s {
      assert CompleteAt(c, h, t, i, u) && LogOk(h, h.leaderLog[t], t);
      assert LastIndex(other) > i;
    }
  }

  function RecordVote(h: History, v: int, t: nat, candidate: int): History {
    h.(votes := h.votes[(v, t) := candidate])
  }

  /** The cluster when `m` has been answered with `granted`. */
  function WithVote(c: Cluster, m: VoteRequest, granted: bool): Cluster
    requires m.to in c.nodes
  {
    var s := c.nodes[m.to];
    WithNode(c, m.to, if granted then s.(votedFor := m.args.candidateId) else s).(
      voteRequests := c.voteRequests - {m},
      voteResponses := c.voteResponses + {VoteResponse(m.to, m.from, m.args.term, RequestVoteReply(s.currentTerm, granted))})
  }

  lemma AnswerMessages(c: Cluster, h: History, m: VoteRequest, h': History, granted: bool)
    requires VoteMessages(c, h) && m in c.voteRequests
    requires h'.candidateLog == h.candidateLog && h'.counted == h.counted
    requires forall k | k in h.votes :: k in h'.votes && h'.votes[k] == h.votes[k]
    requires granted ==> (m.to, m.args.term) in h'.votes && h'.votes[(m.to, m.args.term)] == m.from
    requires m.to in c.nodes
    ensures VoteMessages(WithVote(c, m, granted), h')
  {
    var c' := WithVote(c, m, granted);
    assert VoteRequestOk(h, c.nodes.Keys, m);
    assert c'.nodes.Keys == c.nodes.Keys;
    forall a | a in c'.voteRequests
      ensures VoteRequestOk(h', c'.nodes.Keys, a)
      ensures !(a.from == m.from && a.to == m.to && a.args.term == m.args.term)
    {
      assert VoteRequestOk(h, c.nodes.Keys, a);
      assert a.from == m.from && a.to == m.to && a.args.term == m.args.term ==> a.args == m.args;
    }
    forall a | a in c'.voteResponses
      ensures VoteResponseOk(h', c'.nodes.Keys, a)
    {
      assert a in c.voteResponses ==> VoteResponseOk(h, c.nodes.Keys, a);
    }
  }

  lemma GrantRecorded(c: Cluster, h: History, m: VoteRequest)
    requires VotesRecorded(c, h) && NOBODY !in c.nodes && m.to in c.nodes && VoteRequestOk(h, c.nodes.Keys, m)
    requires Grants(c.nodes[m.to], m.args)
    ensures VotesRecorded(WithVote(c, m, true), RecordVote(h, m.to, m.args.term, m.from))
    ensures (m.to, m.args.term) in h.votes ==> h.votes[(m.to, m.args.term)] == m.from
  {
    var c' := WithVote(c, m, true);
    var h' := RecordVote(h, m.to, m.args.term, m.from);
    assert VoteFieldOk(h, m.to, c.nodes[m.to]);
    assert (m.to, m.args.term) in h.votes ==> VoteOk(c, h, (m.to, m.args.term));
    forall k | k in h'.candidateLog
      ensures ElectionOk(c', h', k)
    {
      assert k in h.candidateLog ==> ElectionOk(c, h, k);
    }
    forall k | k in h'.votes
      ensures VoteOk(c', h', k)
    {
      assert k in h.votes ==> VoteOk(c, h, k);
    }
    forall n | n in c'.nodes
      ensures VoteFieldOk(h', n, c'.nodes[n])
    {
      assert VoteFieldOk(h, n, c.nodes[n]);
    }
  }

  lemma GrantCounted(c: Cluster, h: History, m: VoteRequest)
    requires VotesCounted(c, h) && m.to in c.nodes
    requires (m.to, m.args.term) in h.votes ==> h.votes[(m.to, m.args.term)] == m.from
    ensures VotesCounted(WithVote(c, m, true), RecordVote(h, m.to, m.args.term, m.from))
  {
    var c' := WithVote(c, m, true);
    var h' := RecordVote(h, m.to, m.args.term, m.from);
    forall k, v | k in h'.counted && v in h'.counted[k]
      ensures CountOk(c', h', k, v)
    {
      assert k in h.counted && v in h.counted[k] ==> CountOk(c, h, k, v);
    }
    forall n | n in c'.nodes
      ensures CandidateOk(h', n, c'.nodes[n])
    {
      assert CandidateOk(h, n, c.nodes[n]);
    }
  }

  lemma GrantInformed(c: Cluster, h: History, m: VoteRequest)
    requires LogsRooted(c, h) && LeadersElected(c, h)
    requires LeadersComplete(c, h) && AcksRetained(c, h) && VotesInformed(c, h)
    requires m.to in c.nodes && VoteRequestOk(h, c.nodes.Keys, m) && Grants(c.nodes[m.to], m.args)
    requires Evolves(c, h, WithVote(c, m, true), RecordVote(h, m.to, m.args.term, m.from))
    ensures VotesInformed(WithVote(c, m, true), RecordVote(h, m.to, m.args.term, m.from))
  {
    var c' := WithVote(c, m, true);
    var h' := RecordVote(h, m.to, m.args.term, m.from);
    var log := h.candidateLog[(m.from, m.args.term)];
    forall t: nat, i: nat, k: (int, nat)
      ensures InformedAt(c', h', t, i, k)
    {
      if Committable(c', h', t, i) {
        CommittableBefore(c, h, c', h', t, i);
        assert InformedAt(c, h, t, i, k);
        if k == (m.to, m.args.term) && Ack(h, m.to, t) >= i {
          assert RetainedAt(c, h, t, i, m.to);
          assert LogOk(h, c.nodes[m.to].log, c.nodes[m.to].currentTerm);
          NewerLogHas(c, h, c.nodes[m.to].log, log, t, i);
        }
      }
    }
  }

  lemma GrantStorage(c: Cluster, h: History, m: VoteRequest)
    requires LeadersElected(c, h) && Replication(c, h) && Commitment(c, h)
    requires m.to in c.nodes && VoteRequestOk(h, c.nodes.Keys, m) && Grants(c.nodes[m.to], m.args)
    ensures Replication(WithVote(c, m, true), RecordVote(h, m.to, m.args.term, m.from))
    ensures Commitment(WithVote(c, m, true), RecordVote(h, m.to, m.args.term, m.from))
  {
    hide LeadersElected, LogsRooted, AppendMessages, AcksHeld, MatchesAcked,
      LeadersComplete, AcksRetained, VotesInformed, CommitsSafe, AppliedExactly;
    var c' := WithVote(c, m, true);
    var h' := RecordVote(h, m.to, m.args.term, m.from);
    StorageAfter(c, h, c', h', m.to);
    RootedAfter(c, h, c', h');
    GrantInformed(c, h, m);
  }

  /** A voter gives its vote. */
  lemma GrantKeeps(c: Cluster, h: History, m: VoteRequest)
    requires Inv(c, h) && m in c.voteRequests && m.to in c.nodes && Grants(c.nodes[m.to], m.args)
    ensures Inv(WithVote(c, m, true), RecordVote(h, m.to, m.args.term, m.from))
  {
    RequestOk(c, h, m);
    hide VotesRecorded, VotesCounted, VoteMessages, LeadersElected, Replication, Commitment;
    var c' := WithVote(c, m, true);
    var h' := RecordVote(h, m.to, m.args.term, m.from);
    assert InBounds(c.nodes[m.to]);
    assert c'.nodes.Keys == c.nodes.Keys;
    GrantRecorded(c, h, m);
    GrantCounted(c, h, m);
    AnswerMessages(c, h, m, h', true);
    LeadersAfter(c, h, c', h', m.to);
    GrantStorage(c, h, m);
    MembersAfter(c, c', m.to);
  }

  lemma RequestOk(c: Cluster, h: History, m: VoteRequest)
    requires VoteMessages(c, h) && m in c.voteRequests
    ensures VoteRequestOk(h, c.nodes.Keys, m)
  {
  }

  /** A voter refuses. */
  lemma DenyKeeps(c: Cluster, h: History, m: VoteRequest)
    requires Inv(c, h) && m in c.voteRequests && m.to in c.nodes
    ensures Inv(WithVote(c, m, false), h)
  {
    hide VotesRecorded, VotesCounted, VoteMessages, LeadersElected, Replication, Commitment;
    var c' := WithVote(c, m, false);
    assert c'.nodes == c.nodes;
    VotesAfter(c, h, c', h, m.to);
    AnswerMessages(c, h, m, h, false);
    LeadersAfter(c, h, c', h, m.to);
    StorageKept(c, h, c', h, m.to);
  }

  /** An answer is used up without effect. */
  lemma DiscardKeeps(c: Cluster, h: History, m: VoteResponse)
    requires Inv(c, h) && m.to in c.nodes
    ensures Inv(c.(voteResponses := c.voteResponses - {m}), h)
  {
    hide VotesRecorded, VotesCounted, VoteMessages, LeadersElected, Replication, Commitment;
    var c' := c.(voteResponses := c.voteResponses - {m});
    VotesAfter(c, h, c', h, m.to);
    VoteMessagesAfter(c, h, c', h);
    LeadersAfter(c, h, c', h, m.to);
    StorageKept(c, h, c', h, m.to);
  }

  function RecordCount(h: History, candidate: int, t: nat, v: int): History {
    h.(counted := h.counted[(candidate, t) := (if (candidate, t) in h.counted then h.counted[(candidate, t)] else {}) + {v}])
  }

  function WithCount(c: Cluster, m: VoteResponse): Cluster
    requires m.to in c.nodes
  {
    WithNode(c, m.to, c.nodes[m.to].(votesReceived := c.nodes[m.to].votesReceived + 1)).(
      voteResponses := c.voteResponses - {m})
  }

  lemma CountVotes(c: Cluster, h: History, m: VoteResponse)
    requires VotesRecorded(c, h) && VotesCounted(c, h) && m.to in c.nodes && VoteResponseOk(h, c.nodes.Keys, m)
    requires c.nodes[m.to].role == Candidate && c.nodes[m.to].currentTerm == m.term && m.reply.voteGranted
    ensures VotesRecorded(WithCount(c, m), RecordCount(h, m.to, m.term, m.from))
    ensures VotesCounted(WithCount(c, m), RecordCount(h, m.to, m.term, m.from))
  {
    var c' := WithCount(c, m);
    var h' := RecordCount(h, m.to, m.term, m.from);
    forall k | k in h'.candidateLog
      ensures ElectionOk(c', h', k)
    {
      assert k in h.candidateLog ==> ElectionOk(c, h, k);
    }
    forall k | k in h'.votes
      ensures VoteOk(c', h', k)
    {
      assert VoteOk(c, h, k);
    }
    forall k, v | k in h'.counted && v in h'.counted[k]
      ensures CountOk(c', h', k, v)
    {
      assert k in h.counted && v in h.counted[k] ==> CountOk(c, h, k, v);
    }
    forall n | n in c'.nodes
      ensures VoteFieldOk(h', n, c'.nodes[n]) && CandidateOk(h', n, c'.nodes[n])
    {
      assert VoteFieldOk(h, n, c.nodes[n]) && CandidateOk(h, n, c.nodes[n]);
    }
  }

  lemma CountMessages(c: Cluster, h: History, m: VoteResponse)
    requires VoteMessages(c, h) && m in c.voteResponses && m.to in c.nodes
    ensures VoteMessages(WithCount(c, m), RecordCount(h, m.to, m.term, m.from))
  {
    var c' := WithCount(c, m);
    var h' := RecordCount(h, m.to, m.term, m.from);
    assert c'.nodes.Keys == c.nodes.Keys;
    forall a | a in c'.voteRequests
      ensures VoteRequestOk(h', c'.nodes.Keys, a)
    {
      assert VoteRequestOk(h, c.nodes.Keys, a);
    }
    forall a | a in c'.voteResponses
      ensures VoteResponseOk(h', c'.nodes.Keys, a)
    {
      assert VoteResponseOk(h, c.nodes.Keys, a);
      assert VoteResponseOk(h, c.nodes.Keys, m);
    }
  }

  /** A candidate counts a vote. */
  lemma CountKeeps(c: Cluster, h: History, m: VoteResponse)
    requires Inv(c, h) && m in c.voteResponses && m.to in c.nodes
    requires c.nodes[m.to].role == Candidate && c.nodes[m.to].currentTerm == m.term && m.reply.voteGranted
    ensures Inv(WithCount(c, m), RecordCount(h, m.to, m.term, m.from))
  {
    ResponseOk(c, h, m);
    hide VotesRecorded, VotesCounted, VoteMessages, LeadersElected, Replication, Commitment;
    var c' := WithCount(c, m);
    var h' := RecordCount(h, m.to, m.term, m.from);
    assert InBounds(c.nodes[m.to]);
    assert c'.nodes.Keys == c.nodes.Keys;
    CountVotes(c, h, m);
    CountMessages(c, h, m);
    LeadersAfter(c, h, c', h', m.to);
    StorageKept(c, h, c', h', m.to);
    MembersAfter(c, c', m.to);
  }

  lemma ResponseOk(c: Cluster, h: History, m: VoteResponse)
    requires VoteMessages(c, h) && m in c.voteResponses
    ensures VoteResponseOk(h, c.nodes.Keys, m)
  {
  }
}
