/** How the history may grow in one step, and what survives any such growth. */
module RaftEvolution {
  import opened RaftTypes
  import opened RaftCluster
  import opened RaftInvariants
  import opened Quorum

  /** `b` is `a` with entries of term `t` appended. */
  predicate Grown(a: Log, b: Log, t: nat) {
    Agree(a, b, |a|) && forall j :: |a| <= j < |b| ==> b[j].term == t
  }

  ghost predicate LogsGrow(h: History, h': History) {
    forall t | t in h.leaderLog :: t in h'.leaderLog && Grown(h.leaderLog[t], h'.leaderLog[t], t)
  }

  /** Terms go up, leader logs get longer, and acknowledgements come only from nodes not past the term. */
  ghost predicate Evolves(c: Cluster, h: History, c': Cluster, h': History) {
    && c'.nodes.Keys == c.nodes.Keys
    && (forall n | n in c.nodes :: c.nodes[n].currentTerm <= c'.nodes[n].currentTerm)
    && LogsGrow(h, h')
    && (forall n: int, t: nat :: Ack(h, n, t) <= Ack(h', n, t))
    && (forall n: int, t: nat :: Ack(h', n, t) > Ack(h, n, t) ==> n in c.nodes && c.nodes[n].currentTerm <= t)
  }

  lemma RootedGrows(h: History, h': History, log: Log)
    requires Rooted(h, log) && LogsGrow(h, h')
    ensures Rooted(h', log)
  {
    forall i | 0 < i < |log|
      ensures RootedAt(h', log, i)
    {
      assert RootedAt(h, log, i);
    }
  }

  /** Committability is only ever lost. */
  lemma CommittableBefore(c: Cluster, h: History, c': Cluster, h': History, t: nat, i: nat)
    requires Evolves(c, h, c', h') && Own(h, t, i) && Committable(c', h', t, i)
    ensures Committable(c, h, t, i)
  {
    QuorumGrows(Supporters(c', h', t, i), Supporters(c, h, t, i), c.nodes.Keys);
  }

  /** Commitment is only ever gained. */
  lemma CommittedAfter(c: Cluster, h: History, c': Cluster, h': History, t: nat, i: nat)
    requires Evolves(c, h, c', h') && Committed(c, h, t, i)
    ensures Committed(c', h', t, i)
  {
    QuorumGrows(Holders(c, h, t, i), Holders(c', h', t, i), c.nodes.Keys);
  }

  lemma CommittedIsCommittable(c: Cluster, h: History, t: nat, i: nat)
    requires Committed(c, h, t, i)
    ensures Committable(c, h, t, i)
  {
    QuorumGrows(Holders(c, h, t, i), Supporters(c, h, t, i), c.nodes.Keys);
  }

  lemma CommitOkAfter(c: Cluster, h: History, c': Cluster, h': History, log: Log, log': Log, k: nat, limit: nat, limit': nat)
    requires Evolves(c, h, c', h') && CommitOk(c, h, log, k, limit)
    requires Agree(log, log', k + 1) && limit <= limit'
    ensures CommitOk(c', h', log', k, limit')
  {
    if k > 0 {
      var t: nat, i: nat :| CommittedBy(c, h, log, k, limit, t, i);
      CommittedAfter(c, h, c', h', t, i);
      assert CommittedBy(c', h', log', k, limit', t, i);
    }
  }

  /** Commit indices stay safe when logs keep what is below them and no new ones appear. */
  lemma CommitsSafeAfter(c: Cluster, h: History, c': Cluster, h': History)
    requires Evolves(c, h, c', h') && CommitsSafe(c, h)
    requires forall n | n in c.nodes ::
      c'.nodes[n].commitIndex == c.nodes[n].commitIndex &&
      Agree(c.nodes[n].log, c'.nodes[n].log, c.nodes[n].commitIndex + 1)
    requires c'.appendRequests == c.appendRequests
    ensures CommitsSafe(c', h')
  {
    forall n | n in c'.nodes
      ensures NodeCommitOk(c', h', n)
    {
      assert NodeCommitOk(c, h, n);
      CommitOkAfter(c, h, c', h', c.nodes[n].log, c'.nodes[n].log, c.nodes[n].commitIndex,
        c.nodes[n].currentTerm, c'.nodes[n].currentTerm);
    }
    RequestCommitsAfter(c, h, c', h');
  }

  lemma RequestCommitsAfter(c: Cluster, h: History, c': Cluster, h': History)
    requires Evolves(c, h, c', h') && CommitsSafe(c, h)
    ensures forall m {:trigger RequestCommitOk(c', h', m)} | m in c.appendRequests :: RequestCommitOk(c', h', m)
  {
    forall m | m in c.appendRequests
      ensures RequestCommitOk(c', h', m)
    {
      assert RequestCommitOk(c, h, m);
      CommitOkAfter(c, h, c', h', h.leaderLog[m.args.term], h'.leaderLog[m.args.term], m.args.leaderCommit,
        m.args.term, m.args.term);
    }
  }

  /** Leader completeness and retention survive when leader logs, node logs and acknowledgements stay as they are. */
  lemma CompletenessAfter(c: Cluster, h: History, c': Cluster, h': History)
    requires Evolves(c, h, c', h')
    requires LeadersComplete(c, h) && AcksRetained(c, h)
    requires h'.leaderLog == h.leaderLog && h'.acks == h.acks
    requires forall n | n in c.nodes :: c'.nodes[n].log == c.nodes[n].log
    ensures LeadersComplete(c', h') && AcksRetained(c', h')
  {
    forall t: nat, i: nat, u: nat
      ensures CompleteAt(c', h', t, i, u)
    {
      if Committable(c', h', t, i) {
        CommittableBefore(c, h, c', h', t, i);
        assert CompleteAt(c, h, t, i, u);
      }
    }
    forall t: nat, i: nat, n: int
      ensures RetainedAt(c', h', t, i, n)
    {
      if Committable(c', h', t, i) {
        CommittableBefore(c, h, c', h', t, i);
        assert RetainedAt(c, h, t, i, n);
      }
    }
  }

  lemma VotesInformedAfter(c: Cluster, h: History, c': Cluster, h': History)
    requires Evolves(c, h, c', h') && VotesInformed(c, h)
    requires h'.leaderLog == h.leaderLog && h'.acks == h.acks && h'.votes == h.votes && h'.candidateLog == h.candidateLog
    ensures VotesInformed(c', h')
  {
    forall t: nat, i: nat, k: (int, nat)
      ensures InformedAt(c', h', t, i, k)
    {
      if Committable(c', h', t, i) {
        CommittableBefore(c, h, c', h', t, i);
        assert InformedAt(c, h, t, i, k);
      }
    }
  }

  // ---------- One node changes ----------

  /** The node keeps its vote, or goes to a new term without one; it is a candidate only if it was and nothing changed. */
  predicate VotingKept(s: NodeState, s': NodeState) {
    && s'.id == s.id && s'.peers == s.peers
    && (if s'.currentTerm == s.currentTerm then s'.votedFor == s.votedFor
        else s'.currentTerm > s.currentTerm && s'.votedFor == NOBODY)
    && (s'.role == Candidate ==>
          s.role == Candidate && s'.currentTerm == s.currentTerm && s'.log == s.log && s'.votesReceived == s.votesReceived)
  }

  lemma VotesAfter(c: Cluster, h: History, c': Cluster, h': History, n: int)
    requires VotesRecorded(c, h) && VotesCounted(c, h)
    requires n in c.nodes && n in c'.nodes && c'.nodes == c.nodes[n := c'.nodes[n]]
    requires VotingKept(c.nodes[n], c'.nodes[n])
    requires h'.votes == h.votes && h'.candidateLog == h.candidateLog && h'.counted == h.counted
    ensures VotesRecorded(c', h') && VotesCounted(c', h')
  {
    RecordedAfter(c, h, c', h', n);
    hide VotesRecorded;
    forall m | m in c'.nodes
      ensures CandidateOk(h', m, c'.nodes[m])
    {
      assert CandidateOk(h, m, c.nodes[m]);
    }
    forall k, v | k in h'.counted && v in h'.counted[k]
      ensures CountOk(c', h', k, v)
    {
      assert CountOk(c, h, k, v);
    }
  }

  lemma RecordedAfter(c: Cluster, h: History, c': Cluster, h': History, n: int)
    requires VotesRecorded(c, h)
    requires n in c.nodes && n in c'.nodes && c'.nodes == c.nodes[n := c'.nodes[n]]
    requires VotingKept(c.nodes[n], c'.nodes[n])
    requires h'.votes == h.votes && h'.candidateLog == h.candidateLog && h'.counted == h.counted
    ensures VotesRecorded(c', h')
  {
    forall k | k in h'.votes
      ensures VoteOk(c', h', k)
    {
      assert VoteOk(c, h, k);
    }
    forall k | k in h'.candidateLog
      ensures ElectionOk(c', h', k)
    {
      assert ElectionOk(c, h, k);
    }
    forall m | m in c'.nodes
      ensures VoteFieldOk(h', m, c'.nodes[m])
    {
      assert VoteFieldOk(h, m, c.nodes[m]);
      if (m, c'.nodes[m].currentTerm) in h.votes {
        assert VoteOk(c, h, (m, c'.nodes[m].currentTerm));
      }
    }
  }

  /** Vote messages stay right when some of them disappear. */
  lemma VoteMessagesAfter(c: Cluster, h: History, c': Cluster, h': History)
    requires VoteMessages(c, h) && c'.nodes.Keys == c.nodes.Keys
    requires h'.votes == h.votes && h'.candidateLog == h.candidateLog && h'.counted == h.counted
    requires c'.voteRequests <= c.voteRequests && c'.voteResponses <= c.voteResponses
    ensures VoteMessages(c', h')
  {
    forall m | m in c'.voteRequests
      ensures VoteRequestOk(h', c'.nodes.Keys, m)
    {
      assert VoteRequestOk(h, c.nodes.Keys, m);
    }
    forall m | m in c'.voteResponses
      ensures VoteResponseOk(h', c'.nodes.Keys, m)
    {
      assert VoteResponseOk(h, c.nodes.Keys, m);
    }
  }

  /** The node goes to a new term as no leader, or stays in its term, where a leader keeps its role and its log. */
  predicate LeadingKept(s: NodeState, s': NodeState) {
    && s.currentTerm <= s'.currentTerm
    && (s'.role == Leader ==> s.role == Leader && s'.currentTerm == s.currentTerm)
    && (s.role == Leader && s'.currentTerm == s.currentTerm ==> s'.role == Leader && s'.log == s.log)
  }

  lemma LeadersAfter(c: Cluster, h: History, c': Cluster, h': History, n: int)
    requires LeadersElected(c, h)
    requires n in c.nodes && n in c'.nodes && c'.nodes == c.nodes[n := c'.nodes[n]]
    requires LeadingKept(c.nodes[n], c'.nodes[n])
    requires h'.leader == h.leader && h'.voters == h.voters && h'.leaderLog == h.leaderLog
    requires forall k | k in h.votes :: k in h'.votes && h'.votes[k] == h.votes[k]
    ensures LeadersElected(c', h')
  {
    assert c'.nodes.Keys == c.nodes.Keys;
    forall t | t in h'.leader
      ensures LeaderOk(c', h', t)
    {
      assert LeaderOk(c, h, t);
      assert RoleOk(h, n, c.nodes[n]);
    }
    forall m | m in c'.nodes
      ensures RoleOk(h', m, c'.nodes[m])
    {
      assert RoleOk(h, m, c.nodes[m]);
    }
  }

  /** The node keeps its log; a term it enters is new to it, and it keeps its bookkeeping if it leads. */
  predicate LogKept(s: NodeState, s': NodeState) {
    && s'.log == s.log && s.currentTerm <= s'.currentTerm
    && (s'.role == Leader ==>
          s.role == Leader && s'.currentTerm == s.currentTerm && s'.peers == s.peers && s'.matchIndex == s.matchIndex)
  }

  lemma LogOkAfter(h: History, h': History, log: Log, limit: nat, limit': nat)
    requires LogOk(h, log, limit) && LogsGrow(h, h') && limit <= limit'
    ensures LogOk(h', log, limit')
  {
    RootedGrows(h, h', log);
  }

  /** Logs stay rooted when each is one of the logs there were before, or is rooted itself. */
  lemma RootedAfter(c: Cluster, h: History, c': Cluster, h': History)
    requires LogsRooted(c, h) && LogsGrow(h, h')
    requires c'.nodes.Keys == c.nodes.Keys
    requires forall n | n in c.nodes ::
      c'.nodes[n].currentTerm >= c.nodes[n].currentTerm &&
      (c'.nodes[n].log == c.nodes[n].log || LogOk(h', c'.nodes[n].log, c'.nodes[n].currentTerm))
    requires forall t | t in h'.leaderLog ::
      (t in h.leaderLog && h'.leaderLog[t] == h.leaderLog[t]) || LogOk(h', h'.leaderLog[t], t)
    requires forall k | k in h'.candidateLog ::
      (k in h.candidateLog && h'.candidateLog[k] == h.candidateLog[k]) ||
      (k.1 > 0 && LogOk(h', h'.candidateLog[k], k.1 - 1))
    ensures LogsRooted(c', h')
  {
    forall n | n in c'.nodes
      ensures LogOk(h', c'.nodes[n].log, c'.nodes[n].currentTerm)
    {
      if c'.nodes[n].log == c.nodes[n].log {
        LogOkAfter(h, h', c.nodes[n].log, c.nodes[n].currentTerm, c'.nodes[n].currentTerm);
      }
    }
    forall t | t in h'.leaderLog
      ensures LogOk(h', h'.leaderLog[t], t)
    {
      if t in h.leaderLog && h'.leaderLog[t] == h.leaderLog[t] {
        LogOkAfter(h, h', h.leaderLog[t], t, t);
      }
    }
    forall k | k in h'.candidateLog
      ensures k.1 > 0 && LogOk(h', h'.candidateLog[k], k.1 - 1)
    {
      if k in h.candidateLog && h'.candidateLog[k] == h.candidateLog[k] {
        LogOkAfter(h, h', h.candidateLog[k], k.1 - 1, k.1 - 1);
      }
    }
  }

  lemma AcksHeldAfter(c: Cluster, h: History, c': Cluster, h': History, n: int)
    requires AcksHeld(c, h)
    requires n in c.nodes && n in c'.nodes && c'.nodes == c.nodes[n := c'.nodes[n]]
    requires LogKept(c.nodes[n], c'.nodes[n])
    requires h'.leaderLog == h.leaderLog && h'.acks == h.acks
    ensures AcksHeld(c', h')
  {
    forall k | k in h'.acks
      ensures AckOk(c', h', k)
    {
      assert AckOk(c, h, k);
    }
  }

  lemma MatchesAfter(c: Cluster, h: History, c': Cluster, h': History, n: int)
    requires MatchesAcked(c, h)
    requires n in c.nodes && n in c'.nodes && c'.nodes == c.nodes[n := c'.nodes[n]]
    requires LogKept(c.nodes[n], c'.nodes[n]) && h'.acks == h.acks
    ensures MatchesAcked(c', h')
  {
    forall m, p | m in c'.nodes && c'.nodes[m].role == Leader && p in c'.nodes[m].peers
      ensures MatchOk(h', c'.nodes[m], p)
    {
      assert MatchOk(h, c.nodes[m], p);
    }
  }

  /** Calls and answers stay right as leader logs and acknowledgements grow. */
  lemma MessagesAfter(c: Cluster, h: History, c': Cluster, h': History)
    requires AppendMessages(c, h) && c'.nodes.Keys == c.nodes.Keys && LogsGrow(h, h')
    requires forall t | t in h.leader :: t in h'.leader && h'.leader[t] == h.leader[t]
    requires forall n: int, t: nat :: Ack(h, n, t) <= Ack(h', n, t)
    requires c'.appendRequests == c.appendRequests && c'.appendResponses == c.appendResponses
    ensures AppendMessages(c', h')
  {
    forall m | m in c'.appendRequests
      ensures AppendRequestOk(h', c'.nodes.Keys, m)
    {
      assert AppendRequestOk(h, c.nodes.Keys, m);
    }
    forall m | m in c'.appendResponses
      ensures AppendResponseOk(h', c'.nodes.Keys, m)
    {
      assert AppendResponseOk(h, c.nodes.Keys, m);
    }
  }

  predicate CommitKept(s: NodeState, s': NodeState) {
    s'.commitIndex == s.commitIndex && s'.lastApplied == s.lastApplied && s'.applied == s.applied
  }

  lemma AppliedAfter(c: Cluster, c': Cluster, n: int)
    requires AppliedExactly(c)
    requires n in c.nodes && n in c'.nodes && c'.nodes == c.nodes[n := c'.nodes[n]]
    requires c'.nodes[n].log == c.nodes[n].log && CommitKept(c.nodes[n], c'.nodes[n])
    ensures AppliedExactly(c')
    ensures forall m | m in c.nodes ::
      c'.nodes[m].commitIndex == c.nodes[m].commitIndex &&
      Agree(c.nodes[m].log, c'.nodes[m].log, c.nodes[m].commitIndex + 1)
  {
    forall m | m in c.nodes
      ensures AppliedOk(c'.nodes[m]) && c'.nodes[m].commitIndex == c.nodes[m].commitIndex
      ensures Agree(c.nodes[m].log, c'.nodes[m].log, c.nodes[m].commitIndex + 1)
    {
      assert AppliedOk(c.nodes[m]);
    }
  }

  /** What is stored and committed is untouched when one node keeps its log, its commit index and its matches. */
  lemma StorageAfter(c: Cluster, h: History, c': Cluster, h': History, n: int)
    requires AppendMessages(c, h) && AcksHeld(c, h) && LeadersAck(h) && MatchesAcked(c, h)
    requires LeadersComplete(c, h) && AcksRetained(c, h) && CommitsSafe(c, h) && AppliedExactly(c)
    requires n in c.nodes && n in c'.nodes && c'.nodes == c.nodes[n := c'.nodes[n]]
    requires LogKept(c.nodes[n], c'.nodes[n]) && CommitKept(c.nodes[n], c'.nodes[n])
    requires h'.leader == h.leader && h'.leaderLog == h.leaderLog && h'.acks == h.acks
    requires c'.appendRequests == c.appendRequests && c'.appendResponses == c.appendResponses
    ensures AppendMessages(c', h') && AcksHeld(c', h') && LeadersAck(h') && MatchesAcked(c', h')
    ensures LeadersComplete(c', h') && AcksRetained(c', h') && CommitsSafe(c', h') && AppliedExactly(c')
    ensures Evolves(c, h, c', h')
  {
    hide AcksHeld, MatchesAcked, AppendMessages, LeadersComplete, AcksRetained, CommitsSafe, AppliedExactly;
    assert c'.nodes.Keys == c.nodes.Keys;
    MessagesAfter(c, h, c', h');
    AcksHeldAfter(c, h, c', h', n);
    MatchesAfter(c, h, c', h', n);
    CompletenessAfter(c, h, c', h');
    AppliedAfter(c, c', n);
    CommitsSafeAfter(c, h, c', h');
  }

  /** The same, when elections stand as they are too. */
  lemma StorageKept(c: Cluster, h: History, c': Cluster, h': History, n: int)
    requires Replication(c, h) && Commitment(c, h)
    requires n in c.nodes && n in c'.nodes && c'.nodes == c.nodes[n := c'.nodes[n]]
    requires LogKept(c.nodes[n], c'.nodes[n]) && CommitKept(c.nodes[n], c'.nodes[n])
    requires h'.leader == h.leader && h'.leaderLog == h.leaderLog && h'.acks == h.acks
    requires h'.candidateLog == h.candidateLog && h'.votes == h.votes
    requires c'.appendRequests == c.appendRequests && c'.appendResponses == c.appendResponses
    ensures Replication(c', h') && Commitment(c', h')
  {
    hide LogsRooted, AcksHeld, MatchesAcked, AppendMessages,
      LeadersComplete, AcksRetained, VotesInformed, CommitsSafe, AppliedExactly;
    StorageAfter(c, h, c', h', n);
    RootedAfter(c, h, c', h');
    VotesInformedAfter(c, h, c', h');
  }
}
