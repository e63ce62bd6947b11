/**
 * The safety of Raft over whole runs. The theorems speak of the states of a run only; positions `i` and `j` are
 * any two moments of it, in any order unless stated.
 */
module RaftSafety {
  import opened RaftTypes
  import opened RaftHandlers
  import opened RaftCluster
  import opened RaftInvariants
  import opened RaftEvolution
  import opened RaftLeaderSteps
  import opened RaftReplicationSteps
  import opened RaftRuns

  predicate Leads(c: Cluster, n: int, t: nat) {
    n in c.nodes && c.nodes[n].role == Leader && c.nodes[n].currentTerm == t
  }

  // ---------- What the invariant says of a single state ----------

  lemma MemberNow(c: Cluster, h: History, n: int)
    requires Inv(c, h) && n in c.nodes
    ensures KnowsPeers(c.nodes[n], n, c.nodes.Keys) && InBounds(c.nodes[n])
  {
    hide Elections, Replication, Commitment;
  }

  lemma LeaderNow(c: Cluster, h: History, n: int, t: nat)
    requires Inv(c, h) && Leads(c, n, t)
    ensures t in h.leader && h.leader[t] == n && t in h.leaderLog && h.leaderLog[t] == c.nodes[n].log
  {
    hide VotesRecorded, VotesCounted, VoteMessages, LeadersElected, Replication, Commitment;
    LeaderFacts(c, h, n);
  }

  lemma LogNow(c: Cluster, h: History, n: int)
    requires Inv(c, h) && n in c.nodes
    ensures LogOk(h, c.nodes[n].log, c.nodes[n].currentTerm)
  {
    hide Members, Elections, AppendMessages, AcksHeld, MatchesAcked, Commitment;
  }

  lemma AppliedNow(c: Cluster, h: History, n: int)
    requires Inv(c, h) && n in c.nodes
    ensures AppliedOk(c.nodes[n])
  {
    hide Members, Elections, Replication, LeadersComplete, AcksRetained, VotesInformed, CommitsSafe;
  }

  // ---------- Election safety ----------

  /** At most one node is ever leader of a term. */
  lemma ElectionSafety(run: seq<Cluster>, acts: seq<Action>, i: nat, j: nat, a: int, b: int, t: nat)
    requires Behaves(run, acts) && i < |run| && j < |run|
    requires Leads(run[i], a, t) && Leads(run[j], b, t)
    ensures a == b
  {
    hide Inv, Behaves;
    RunInv(run, acts, i);
    RunInv(run, acts, j);
    LeaderNow(run[i], HistoryAt(run, acts, i), a, t);
    LeaderNow(run[j], HistoryAt(run, acts, j), b, t);
    if i <= j {
      RunGrows(run, acts, i, j);
    } else {
      RunGrows(run, acts, j, i);
    }
  }

  lemma VoteNow(c: Cluster, h: History, n: int)
    requires Inv(c, h) && n in c.nodes
    ensures VoteFieldOk(h, n, c.nodes[n])
  {
    hide Members, VotesCounted, VoteMessages, LeadersElected, Replication, Commitment;
  }

  /** A node gives at most one vote in a term. */
  lemma OneVotePerTerm(run: seq<Cluster>, acts: seq<Action>, i: nat, j: nat, n: int)
    requires Behaves(run, acts) && i <= j < |run| && n in run[i].nodes && n in run[j].nodes
    requires run[i].nodes[n].currentTerm == run[j].nodes[n].currentTerm && run[i].nodes[n].votedFor != NOBODY
    ensures run[j].nodes[n].votedFor == run[i].nodes[n].votedFor
  {
    hide Inv, Behaves;
    RunInv(run, acts, i);
    RunInv(run, acts, j);
    RunGrows(run, acts, i, j);
    VoteNow(run[i], HistoryAt(run, acts, i), n);
    VoteNow(run[j], HistoryAt(run, acts, j), n);
  }

  // ---------- Log matching ----------

  /** Two logs with the same term at an index hold the same entries through that index, at any two moments. */
  lemma LogMatching(run: seq<Cluster>, acts: seq<Action>, i: nat, j: nat, a: int, b: int, k: nat)
    requires Behaves(run, acts) && i <= j < |run| && a in run[i].nodes && b in run[j].nodes
    requires k < |run[i].nodes[a].log| && k < |run[j].nodes[b].log|
    requires run[i].nodes[a].log[k].term == run[j].nodes[b].log[k].term
    ensures run[i].nodes[a].log[..k + 1] == run[j].nodes[b].log[..k + 1]
  {
    hide Inv, Behaves;
    var h, h' := HistoryAt(run, acts, i), HistoryAt(run, acts, j);
    RunInv(run, acts, i);
    RunInv(run, acts, j);
    RunGrows(run, acts, i, j);
    LogNow(run[i], h, a);
    LogNow(run[j], h', b);
    RootedGrows(h, h', run[i].nodes[a].log);
    TermsMatch(h', run[i].nodes[a].log, run[j].nodes[b].log, k);
  }

  /** A leader only appends to its log during its term. */
  lemma LeaderAppendOnly(run: seq<Cluster>, acts: seq<Action>, i: nat, j: nat, n: int, t: nat)
    requires Behaves(run, acts) && i <= j < |run| && Leads(run[i], n, t) && Leads(run[j], n, t)
    ensures run[i].nodes[n].log <= run[j].nodes[n].log
  {
    hide Inv, Behaves;
    RunInv(run, acts, i);
    RunInv(run, acts, j);
    RunGrows(run, acts, i, j);
    LeaderNow(run[i], HistoryAt(run, acts, i), n, t);
    LeaderNow(run[j], HistoryAt(run, acts, j), n, t);
  }

  // ---------- Leader completeness ----------

  /** Where a later history has a leader's log reach beyond an earlier one, the rest is of the leader's own term. */
  lemma CommitSeenAt(c: Cluster, h: History, c': Cluster, h': History, log: Log, k: nat, limit: nat)
    requires Grows(c, h, c', h') && CommitOk(c, h, log, k, limit)
    ensures CommitOk(c', h', log, k, limit)
  {
    if k > 0 {
      var t: nat, i: nat :| CommittedBy(c, h, log, k, limit, t, i);
      HoldersGrow(c, h, c', h', t, i);
      assert CommittedBy(c', h', log, k, limit, t, i);
    }
  }

  lemma HoldersGrow(c: Cluster, h: History, c': Cluster, h': History, t: nat, i: nat)
    requires Grows(c, h, c', h') && Committed(c, h, t, i)
    ensures Committed(c', h', t, i)
  {
    Quorum.QuorumGrows(Holders(c, h, t, i), Holders(c', h', t, i), c.nodes.Keys);
  }

  lemma CommitNow(c: Cluster, h: History, n: int)
    requires Inv(c, h) && n in c.nodes
    ensures CommitOk(c, h, c.nodes[n].log, c.nodes[n].commitIndex, c.nodes[n].currentTerm)
    ensures TermsAtMost(c.nodes[n].log, c.nodes[n].currentTerm) && c.nodes[n].log[0] == DUMMY
  {
    LogNow(c, h, n);
    hide Members, Elections, Replication, LeadersComplete, AcksRetained, VotesInformed, AppliedExactly;
    assert NodeCommitOk(c, h, n);
  }

  lemma CompleteNow(c: Cluster, h: History, log: Log, k: nat, limit: nat, u: nat)
    requires Inv(c, h) && CommitOk(c, h, log, k, limit) && limit <= u && u in h.leaderLog && log[0] == DUMMY
    ensures Agree(log, h.leaderLog[u], k + 1)
  {
    hide Members, Elections, AppendMessages, AcksHeld, MatchesAcked, AcksRetained, VotesInformed, CommitsSafe, AppliedExactly;
    assert LogOk(h, h.leaderLog[u], u);
    CommitInLeader(c, h, log, k, limit, u);
  }

  /** Everything a node of term t ever counts as committed is in the log of every leader of every later term. */
  lemma LeaderCompleteness(run: seq<Cluster>, acts: seq<Action>, i: nat, j: nat, a: int, b: int, u: nat)
    requires Behaves(run, acts) && i < |run| && j < |run| && a in run[i].nodes
    requires Leads(run[j], b, u) && run[i].nodes[a].currentTerm < u
    ensures run[i].nodes[a].commitIndex < |run[i].nodes[a].log|
    ensures run[i].nodes[a].log[..run[i].nodes[a].commitIndex + 1] <= run[j].nodes[b].log
  {
    hide Inv, Behaves;
    var m := if i <= j then j else i;
    var hi, hj, hm := HistoryAt(run, acts, i), HistoryAt(run, acts, j), HistoryAt(run, acts, m);
    var s, leader := run[i].nodes[a], run[j].nodes[b];
    RunInv(run, acts, i);
    RunInv(run, acts, j);
    RunInv(run, acts, m);
    RunGrows(run, acts, i, m);
    RunGrows(run, acts, j, m);
    CommitNow(run[i], hi, a);
    LeaderNow(run[j], hj, b, u);
    CommitSeenAt(run[i], hi, run[m], hm, s.log, s.commitIndex, s.currentTerm);
    assert Grown(leader.log, hm.leaderLog[u], u);
    CompleteNow(run[m], hm, s.log, s.commitIndex, s.currentTerm, u);
    assert |leader.log| <= s.commitIndex ==> s.log[|leader.log|].term == u;
  }

  // ---------- State machine safety ----------

  lemma {:induction false} MessagesAre(log: Log, k: nat)
    requires k < |log| && forall x :: 0 < x < |log| ==> log[x].index == x
    ensures |Messages(log[1..k + 1])| == k
    ensures forall x :: 0 < x <= k ==> Messages(log[1..k + 1])[x - 1] == ToMessage(log[x])
  {
    if k > 0 {
      MessagesAre(log, k - 1);
      assert log[1..k + 1][..k - 1] == log[1..k];
    }
  }

  /**
   * What a node has sent to its state machine is its log from index 1 to lastApplied: message for message the term,
   * key, value and tombstone of the entry, under the entry's position.
   */
  lemma AppliedIsLog(run: seq<Cluster>, acts: seq<Action>, i: nat, n: int)
    requires Behaves(run, acts) && i < |run| && n in run[i].nodes
    ensures var s := run[i].nodes[n];
            && s.lastApplied == s.commitIndex == |s.applied| < |s.log|
            && (forall x :: 0 <= x < |s.applied| ==>
                  s.applied[x].commandIndex == s.log[x + 1].index == x + 1
                  && s.applied[x].commandTerm == s.log[x + 1].term && s.applied[x].key == s.log[x + 1].key
                  && s.applied[x].value == s.log[x + 1].value && s.applied[x].tombstone == s.log[x + 1].tombstone)
  {
    hide Inv, Behaves;
    var s, h := run[i].nodes[n], HistoryAt(run, acts, i);
    RunInv(run, acts, i);
    LogNow(run[i], h, n);
    AppliedNow(run[i], h, n);
    forall x | 0 < x < |s.log|
      ensures s.log[x].index == x
    {
      assert RootedAt(h, s.log, x);
    }
    MessagesAre(s.log, s.commitIndex);
    forall x | 0 <= x < |s.applied|
      ensures s.applied[x] == ToMessage(s.log[x + 1]) && s.log[x + 1].index == x + 1
    {
      assert s.log[x + 1].index == x + 1;
    }
  }

  lemma CommonLeader(c: Cluster, h: History, a: int, b: int)
    requires Inv(c, h) && a in c.nodes && b in c.nodes
    ensures var p, q := c.nodes[a], c.nodes[b];
            Agree(p.log, q.log, 1 + if p.commitIndex <= q.commitIndex then p.commitIndex else q.commitIndex)
  {
    CommitNow(c, h, a);
    CommitNow(c, h, b);
    var p, q := c.nodes[a], c.nodes[b];
    if p.commitIndex > 0 && q.commitIndex > 0 {
      var t: nat, i: nat :| CommittedBy(c, h, p.log, p.commitIndex, p.currentTerm, t, i);
      var u: nat, j: nat :| CommittedBy(c, h, q.log, q.commitIndex, q.currentTerm, u, j);
      assert CommittedBy(c, h, p.log, p.commitIndex, t, t, i);
      assert CommittedBy(c, h, q.log, q.commitIndex, u, u, j);
      var w := if t <= u then u else t;
      CompleteNow(c, h, p.log, p.commitIndex, t, w);
      CompleteNow(c, h, q.log, q.commitIndex, u, w);
    }
  }

  /** In one state, what two nodes have applied agrees as far as both reach. */
  lemma AppliedComparable(run: seq<Cluster>, acts: seq<Action>, i: nat, a: int, b: int)
    requires Behaves(run, acts) && i < |run| && a in run[i].nodes && b in run[i].nodes
    ensures run[i].nodes[a].applied <= run[i].nodes[b].applied || run[i].nodes[b].applied <= run[i].nodes[a].applied
  {
    hide Inv, Behaves, Messages;
    var h := HistoryAt(run, acts, i);
    RunInv(run, acts, i);
    CommonLeader(run[i], h, a, b);
    AppliedIsLog(run, acts, i, a);
    AppliedIsLog(run, acts, i, b);
  }

  /** What any two nodes have applied at any two moments is the same, up to one having applied more. */
  lemma StateMachineSafety(run: seq<Cluster>, acts: seq<Action>, i: nat, j: nat, a: int, b: int)
    requires Behaves(run, acts) && i <= j < |run| && a in run[i].nodes && b in run[j].nodes
    ensures run[i].nodes[a].applied <= run[j].nodes[b].applied || run[j].nodes[b].applied <= run[i].nodes[a].applied
  {
    hide Inv, Behaves;
    RunGrows(run, acts, i, j);
    AppliedComparable(run, acts, j, a, b);
  }

  /** Commit indices never fall and committed entries are never truncated or replaced. */
  lemma CommittedStays(run: seq<Cluster>, acts: seq<Action>, i: nat, j: nat, n: int)
    requires Behaves(run, acts) && i <= j < |run| && n in run[i].nodes
    ensures n in run[j].nodes && run[i].nodes[n].commitIndex < |run[i].nodes[n].log|
    ensures run[i].nodes[n].commitIndex <= run[j].nodes[n].commitIndex < |run[j].nodes[n].log|
    ensures run[i].nodes[n].log[1..run[i].nodes[n].commitIndex + 1] ==
            run[j].nodes[n].log[1..run[i].nodes[n].commitIndex + 1]
  {
    hide Inv, Behaves;
    RunGrows(run, acts, i, j);
    AppliedIsLog(run, acts, i, n);
    AppliedIsLog(run, acts, j, n);
    var s, s' := run[i].nodes[n], run[j].nodes[n];
    forall x | 0 < x <= s.commitIndex
      ensures s.log[x] == s'.log[x]
    {
      assert s.applied[x - 1] == s'.applied[x - 1];
    }
  }
}
