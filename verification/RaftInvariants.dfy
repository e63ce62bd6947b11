/**
 * What holds in every reachable state of a cluster. The statements lean on a `History` of the run so far: who
 * voted for whom, which logs candidates and leaders had, and what followers acknowledged.
 */
module RaftInvariants {
  import opened RaftTypes
  import opened RaftHandlers
  import opened RaftCluster
  import opened Quorum

  /**
   * `votes` maps (voter, term) to the candidate; `candidateLog` and `counted` map (candidate, term) to the log it
   * stood with and the voters counted so far; `leader`, `voters` and `leaderLog` map a term to its leader, the
   * majority that elected it and the longest log it has had; `acks` maps (node, term) to the highest index the
   * node has accepted from the leader of the term.
   */
  datatype History = History(
    votes: map<(int, nat), int>,
    candidateLog: map<(int, nat), Log>,
    counted: map<(int, nat), set<int>>,
    leader: map<nat, int>,
    voters: map<nat, set<int>>,
    leaderLog: map<nat, Log>,
    acks: map<(int, nat), nat>)

  const NO_HISTORY := History(map[], map[], map[], map[], map[], map[], map[])

  function Ack(h: History, n: int, t: nat): nat {
    if (n, t) in h.acks then h.acks[(n, t)] else 0
  }

  // ---------- Logs ----------

  /** The two logs have the same first `k` entries. */
  predicate Agree(a: seq<LogEntry>, b: seq<LogEntry>, k: nat) {
    k <= |a| && k <= |b| && forall j :: 0 <= j < k ==> a[j] == b[j]
  }

  predicate TermsAtMost(log: Log, t: nat) {
    forall j :: 0 <= j < |log| ==> log[j].term <= t
  }

  /** Entry `i`, of term t, sits in the log of t's leader at the same place and after the same entries. */
  predicate RootedAt(h: History, log: Log, i: nat)
    requires i < |log|
  {
    log[i].index == i && log[i].term in h.leaderLog && Agree(log, h.leaderLog[log[i].term], i + 1)
  }

  /** Every entry of `log` came from the leader of its term, together with all before it. */
  predicate Rooted(h: History, log: Log) {
    log[0] == DUMMY && forall i :: 0 < i < |log| ==> RootedAt(h, log, i)
  }

  predicate LogOk(h: History, log: Log, limit: nat) {
    Rooted(h, log) && TermsAtMost(log, limit)
  }

  ghost predicate LogsRooted(c: Cluster, h: History) {
    && (forall n {:trigger LogOk(h, c.nodes[n].log, c.nodes[n].currentTerm)} | n in c.nodes ::
          LogOk(h, c.nodes[n].log, c.nodes[n].currentTerm))
    && (forall t {:trigger LogOk(h, h.leaderLog[t], t)} | t in h.leaderLog :: LogOk(h, h.leaderLog[t], t))
    && (forall k {:trigger h.candidateLog[k]} | k in h.candidateLog :: k.1 > 0 && LogOk(h, h.candidateLog[k], k.1 - 1))
  }

  // ---------- Membership and leader bookkeeping ----------

  ghost predicate Members(c: Cluster) {
    && NOBODY !in c.nodes
    && (forall n {:trigger KnowsPeers(c.nodes[n], n, c.nodes.Keys)} | n in c.nodes :: KnowsPeers(c.nodes[n], n, c.nodes.Keys))
    && (forall n {:trigger InBounds(c.nodes[n])} | n in c.nodes :: InBounds(c.nodes[n]))
  }

  // ---------- Elections ----------

  /** The node's vote is the one history has for its current term. */
  predicate VoteFieldOk(h: History, n: int, s: NodeState) {
    s.votedFor == if (n, s.currentTerm) in h.votes then h.votes[(n, s.currentTerm)] else NOBODY
  }

  predicate VoteOk(c: Cluster, h: History, k: (int, nat))
    requires k in h.votes
  {
    && k.0 in c.nodes && k.1 <= c.nodes[k.0].currentTerm
    && h.votes[k] in c.nodes && (h.votes[k], k.1) in h.candidateLog
  }

  predicate ElectionOk(c: Cluster, h: History, k: (int, nat)) {
    k.0 in c.nodes && k.1 <= c.nodes[k.0].currentTerm && k in h.counted
  }

  ghost predicate VotesRecorded(c: Cluster, h: History) {
    && (forall n {:trigger VoteFieldOk(h, n, c.nodes[n])} | n in c.nodes :: VoteFieldOk(h, n, c.nodes[n]))
    && (forall k {:trigger VoteOk(c, h, k)} | k in h.votes :: VoteOk(c, h, k))
    && (forall k {:trigger ElectionOk(c, h, k)} | k in h.candidateLog :: ElectionOk(c, h, k))
  }

  /** A candidate stands with the log it asked for votes with, and its counter is the number of distinct voters. */
  predicate CandidateOk(h: History, n: int, s: NodeState) {
    s.role == Candidate ==>
      && (n, s.currentTerm) in h.candidateLog && (n, s.currentTerm) in h.counted
      && h.candidateLog[(n, s.currentTerm)] == s.log
      && |h.counted[(n, s.currentTerm)]| == s.votesReceived
  }

  /** `v` is one of the voters counted in election `k`, and did vote there. */
  predicate CountOk(c: Cluster, h: History, k: (int, nat), v: int) {
    v in c.nodes && (v, k.1) in h.votes && h.votes[(v, k.1)] == k.0
  }

  ghost predicate VotesCounted(c: Cluster, h: History) {
    && (forall n {:trigger CandidateOk(h, n, c.nodes[n])} | n in c.nodes :: CandidateOk(h, n, c.nodes[n]))
    && (forall k, v {:trigger CountOk(c, h, k, v)} | k in h.counted && v in h.counted[k] :: CountOk(c, h, k, v))
  }

  predicate VoteRequestOk(h: History, ids: set<int>, m: VoteRequest) {
    && m.from in ids && m.to in ids && m.args.candidateId == m.from
    && (m.from, m.args.term) in h.candidateLog && (m.from, m.args.term) in h.counted
    && m.args.lastLogIndex == LastIndex(h.candidateLog[(m.from, m.args.term)])
    && m.args.lastLogTerm == LastTerm(h.candidateLog[(m.from, m.args.term)])
    && m.to !in h.counted[(m.from, m.args.term)]
  }

  predicate VoteResponseOk(h: History, ids: set<int>, m: VoteResponse) {
    && m.from in ids && m.to in ids
    && (m.to, m.term) in h.candidateLog && (m.to, m.term) in h.counted
    && m.from !in h.counted[(m.to, m.term)]
    && (m.reply.voteGranted ==> (m.from, m.term) in h.votes && h.votes[(m.from, m.term)] == m.to)
  }

  /** Of the call to one voter in one election, at most one trace exists: the call, its answer, or its count. */
  ghost predicate VoteMessages(c: Cluster, h: History) {
    && (forall m {:trigger VoteRequestOk(h, c.nodes.Keys, m)} | m in c.voteRequests :: VoteRequestOk(h, c.nodes.Keys, m))
    && (forall m {:trigger VoteResponseOk(h, c.nodes.Keys, m)} | m in c.voteResponses :: VoteResponseOk(h, c.nodes.Keys, m))
    && (forall a, b | a in c.voteRequests && b in c.voteResponses ::
          !(a.from == b.to && a.to == b.from && a.args.term == b.term))
    && (forall a, b | a in c.voteResponses && b in c.voteResponses ::
          a.from == b.from && a.to == b.to && a.term == b.term ==> a == b)
  }

  /** The leader of term `t` was elected by a majority and owns the term's log. */
  ghost predicate LeaderOk(c: Cluster, h: History, t: nat)
    requires t in h.leader && t in h.voters && t in h.leaderLog
  {
    && t > 0 && h.leader[t] in c.nodes && IsQuorum(h.voters[t], c.nodes.Keys)
    && t <= c.nodes[h.leader[t]].currentTerm
    && (c.nodes[h.leader[t]].currentTerm == t ==>
          c.nodes[h.leader[t]].role == Leader && c.nodes[h.leader[t]].log == h.leaderLog[t])
    && forall v | v in h.voters[t] :: (v, t) in h.votes && h.votes[(v, t)] == h.leader[t]
  }

  predicate RoleOk(h: History, n: int, s: NodeState) {
    s.role == Leader ==> s.currentTerm in h.leader && h.leader[s.currentTerm] == n
  }

  ghost predicate LeadersElected(c: Cluster, h: History) {
    && h.leader.Keys == h.voters.Keys == h.leaderLog.Keys
    && (forall t {:trigger LeaderOk(c, h, t)} | t in h.leader :: LeaderOk(c, h, t))
    && (forall n {:trigger RoleOk(h, n, c.nodes[n])} | n in c.nodes :: RoleOk(h, n, c.nodes[n]))
  }

  // ---------- Replication ----------

  /** What an AppendEntries call carries is a slice of the log of its term's leader. */
  predicate AppendRequestOk(h: History, ids: set<int>, m: AppendRequest) {
    && m.from in ids && m.to in ids && m.from != m.to
    && m.args.term in h.leader && m.args.term in h.leaderLog && h.leader[m.args.term] == m.from
    && var log := h.leaderLog[m.args.term];
    && m.args.prevLogIndex + |m.args.entries| < |log|
    && m.args.prevLogTerm == log[m.args.prevLogIndex].term
    && (forall j :: 0 <= j < |m.args.entries| ==> m.args.entries[j] == log[m.args.prevLogIndex + 1 + j])
    && m.args.leaderCommit <= m.args.prevLogIndex + |m.args.entries|
  }

  predicate AppendResponseOk(h: History, ids: set<int>, m: AppendResponse) {
    && m.from in ids && m.to in ids && m.from != m.to
    && (m.reply.success ==>
          && m.term in h.leader && m.term in h.leaderLog && h.leader[m.term] == m.to
          && m.prevIndex + m.count < |h.leaderLog[m.term]|
          && m.prevIndex + m.count <= Ack(h, m.from, m.term))
  }

  ghost predicate AppendMessages(c: Cluster, h: History) {
    && (forall m {:trigger AppendRequestOk(h, c.nodes.Keys, m)} | m in c.appendRequests ::
          AppendRequestOk(h, c.nodes.Keys, m))
    && (forall m {:trigger AppendResponseOk(h, c.nodes.Keys, m)} | m in c.appendResponses ::
          AppendResponseOk(h, c.nodes.Keys, m))
  }

  /** While a node stays in a term, its log keeps agreeing with the leader's through what it acknowledged. */
  predicate AckOk(c: Cluster, h: History, k: (int, nat))
    requires k in h.acks
  {
    && k.0 in c.nodes && k.1 in h.leaderLog && h.acks[k] < |h.leaderLog[k.1]| && k.1 <= c.nodes[k.0].currentTerm
    && (k.1 == c.nodes[k.0].currentTerm ==> Agree(c.nodes[k.0].log, h.leaderLog[k.1], h.acks[k] + 1))
  }

  ghost predicate AcksHeld(c: Cluster, h: History) {
    forall k {:trigger AckOk(c, h, k)} | k in h.acks :: AckOk(c, h, k)
  }

  ghost predicate LeadersAck(h: History) {
    forall t {:trigger h.leader[t]} | t in h.leader && t in h.leaderLog ::
      Ack(h, h.leader[t], t) == LastIndex(h.leaderLog[t])
  }

  /** What a leader believes a peer holds, the peer acknowledged in the leader's term. */
  predicate MatchOk(h: History, s: NodeState, p: int) {
    Lookup(s.matchIndex, p) <= Ack(h, p, s.currentTerm)
  }

  ghost predicate MatchesAcked(c: Cluster, h: History) {
    forall n, p {:trigger MatchOk(h, c.nodes[n], p)} | n in c.nodes && c.nodes[n].role == Leader && p in c.nodes[n].peers ::
      MatchOk(h, c.nodes[n], p)
  }

  // ---------- Commitment ----------

  /** Entry `i` of the log of term `t` was created in that term. */
  predicate Own(h: History, t: nat, i: nat) {
    t in h.leaderLog && 0 < i < |h.leaderLog[t]| && h.leaderLog[t][i].term == t
  }

  function Holders(c: Cluster, h: History, t: nat, i: nat): set<int> {
    set n | n in c.nodes && Ack(h, n, t) >= i
  }

  /** Nodes that hold index `i` of term `t`'s log, or may still accept it because they are not past the term. */
  function Supporters(c: Cluster, h: History, t: nat, i: nat): set<int> {
    set n | n in c.nodes && (Ack(h, n, t) >= i || c.nodes[n].currentTerm <= t)
  }

  predicate Committed(c: Cluster, h: History, t: nat, i: nat) {
    Own(h, t, i) && IsQuorum(Holders(c, h, t, i), c.nodes.Keys)
  }

  /** The entry is committed or may still become so. */
  predicate Committable(c: Cluster, h: History, t: nat, i: nat) {
    Own(h, t, i) && IsQuorum(Supporters(c, h, t, i), c.nodes.Keys)
  }

  predicate CompleteAt(c: Cluster, h: History, t: nat, i: nat, u: nat) {
    Committable(c, h, t, i) && u in h.leaderLog && t < u ==> Agree(h.leaderLog[u], h.leaderLog[t], i + 1)
  }

  /** A leader of a later term has every entry that is, or may still become, committed in an earlier one. */
  ghost predicate LeadersComplete(c: Cluster, h: History) {
    forall t: nat, i: nat, u: nat {:trigger CompleteAt(c, h, t, i, u)} :: CompleteAt(c, h, t, i, u)
  }

  predicate RetainedAt(c: Cluster, h: History, t: nat, i: nat, n: int) {
    Committable(c, h, t, i) && n in c.nodes && Ack(h, n, t) >= i ==> Agree(c.nodes[n].log, h.leaderLog[t], i + 1)
  }

  /** A node that acknowledged such an entry still has it. */
  ghost predicate AcksRetained(c: Cluster, h: History) {
    forall t: nat, i: nat, n: int {:trigger RetainedAt(c, h, t, i, n)} :: RetainedAt(c, h, t, i, n)
  }

  predicate InformedAt(c: Cluster, h: History, t: nat, i: nat, k: (int, nat)) {
    Committable(c, h, t, i) && k in h.votes && t < k.1 && Ack(h, k.0, t) >= i ==>
      (h.votes[k], k.1) in h.candidateLog && Agree(h.candidateLog[(h.votes[k], k.1)], h.leaderLog[t], i + 1)
  }

  /** A node that acknowledged such an entry votes later only for candidates that have it. */
  ghost predicate VotesInformed(c: Cluster, h: History) {
    forall t: nat, i: nat, k: (int, nat) {:trigger InformedAt(c, h, t, i, k)} :: InformedAt(c, h, t, i, k)
  }

  /** Index `k` of `log` lies within what entry `i` of term `t` <= `limit` commits. */
  predicate CommittedBy(c: Cluster, h: History, log: Log, k: nat, limit: nat, t: nat, i: nat) {
    t <= limit && Committed(c, h, t, i) && k <= i && Agree(log, h.leaderLog[t], k + 1)
  }

  ghost predicate CommitOk(c: Cluster, h: History, log: Log, k: nat, limit: nat) {
    k < |log| && (k == 0 || exists t: nat, i: nat :: CommittedBy(c, h, log, k, limit, t, i))
  }

  /** Everything below a commit index, a node's own or one on its way to a follower, is committed. */
  ghost predicate CommitsSafe(c: Cluster, h: History) {
    && (forall n {:trigger NodeCommitOk(c, h, n)} | n in c.nodes :: NodeCommitOk(c, h, n))
    && (forall m {:trigger RequestCommitOk(c, h, m)} | m in c.appendRequests :: RequestCommitOk(c, h, m))
  }

  ghost predicate NodeCommitOk(c: Cluster, h: History, n: int)
    requires n in c.nodes
  {
    CommitOk(c, h, c.nodes[n].log, c.nodes[n].commitIndex, c.nodes[n].currentTerm)
  }

  ghost predicate RequestCommitOk(c: Cluster, h: History, m: AppendRequest) {
    m.args.term in h.leaderLog && CommitOk(c, h, h.leaderLog[m.args.term], m.args.leaderCommit, m.args.term)
  }

  /** What a node has sent to its state machine is its log from index 1 through its commit index. */
  predicate AppliedOk(s: NodeState) {
    s.lastApplied == s.commitIndex < |s.log| && s.applied == Messages(s.log[1..s.commitIndex + 1])
  }

  ghost predicate AppliedExactly(c: Cluster) {
    forall n {:trigger AppliedOk(c.nodes[n])} | n in c.nodes :: AppliedOk(c.nodes[n])
  }

  // ---------- All together ----------

  ghost predicate Elections(c: Cluster, h: History) {
    VotesRecorded(c, h) && VotesCounted(c, h) && VoteMessages(c, h) && LeadersElected(c, h)
  }

  ghost predicate Replication(c: Cluster, h: History) {
    LogsRooted(c, h) && AppendMessages(c, h) && AcksHeld(c, h) && LeadersAck(h) && MatchesAcked(c, h)
  }

  ghost predicate Commitment(c: Cluster, h: History) {
    LeadersComplete(c, h) && AcksRetained(c, h) && VotesInformed(c, h) && CommitsSafe(c, h) && AppliedExactly(c)
  }

  ghost predicate Inv(c: Cluster, h: History) {
    Members(c) && Elections(c, h) && Replication(c, h) && Commitment(c, h)
  }
}
