/**
 * What every step does in every reachable state, in the terms of the protocol: who is elected, when a vote is given,
 * when a call is accepted, what is committed and what is sent. None of it is said through the functions that
 * compute it.
 */
module RaftExact {
  import opened Bytes
  import opened RaftTypes
  import opened RaftHandlers
  import opened RaftCluster
  import opened RaftInvariants
  import opened RaftMerge
  import opened RaftLeaderSteps
  import opened RaftReplicationSteps
  import opened RaftRuns
  import opened RaftSafety
  import opened RaftBookkeeping

  // ---------- Reachable states ----------

  ghost predicate Ends(run: seq<Cluster>, acts: seq<Action>, c: Cluster) {
    Behaves(run, acts) && run[|run| - 1] == c
  }

  /** Some run comes to `c`. */
  ghost predicate Reachable(c: Cluster) {
    exists run, acts :: Ends(run, acts, c)
  }

  lemma Known(c: Cluster) returns (h: History)
    requires Reachable(c)
    ensures Inv(c, h)
  {
    hide Inv, Behaves, HistoryAt;
    var run, acts :| Ends(run, acts, c);
    assert |run| > 0 by { assert Behaves(run, acts); RunLength(run, acts); }
    h := HistoryAt(run, acts, |run| - 1);
    RunInv(run, acts, |run| - 1);
  }

  lemma RunLength(run: seq<Cluster>, acts: seq<Action>)
    requires Behaves(run, acts)
    ensures |run| == |acts| + 1
  {
  }

  lemma ReachableNext(c: Cluster, a: Action)
    requires Reachable(c) && Enabled(c, a)
    ensures Reachable(Step(c, a))
  {
    hide Step, Enabled, Initial;
    var run, acts :| Ends(run, acts, c);
    var run', acts' := run + [Step(c, a)], acts + [a];
    forall k | 0 <= k < |acts'|
      ensures Enabled(run'[k], acts'[k]) && run'[k + 1] == Step(run'[k], acts'[k])
    {
      if k < |acts| {
        assert Enabled(run[k], acts[k]) && run[k + 1] == Step(run[k], acts[k]);
      }
    }
    assert Ends(run', acts', Step(c, a));
  }

  lemma PeersAre(c: Cluster, n: int)
    requires Reachable(c) && n in c.nodes
    ensures c.nodes[n].id == n && |c.nodes.Keys| == |c.nodes[n].peers| + 1 && Distinct(c.nodes[n].peers)
    ensures forall p :: p in c.nodes[n].peers <==> p in c.nodes && p != n
  {
    hide Inv;
    var h := Known(c);
    MemberNow(c, h, n);
    ClusterSize(c.nodes[n], n, c.nodes.Keys);
  }

  /** The node that takes the step. */
  function Actor(a: Action): int {
    match a
    case Timeout(n) => n
    case DeliverVoteRequest(m) => m.to
    case DeliverVoteResponse(m) => m.to
    case Heartbeat(n) => n
    case DeliverAppendRequest(m) => m.to
    case DeliverAppendResponse(m) => m.to
    case ClientSubmit(n, _, _, _) => n
  }

  /** A step changes no node but the one that takes it. */
  lemma OthersStay(c: Cluster, a: Action)
    requires Enabled(c, a)
    ensures Actor(a) in c.nodes && Step(c, a).nodes.Keys == c.nodes.Keys
    ensures forall m | m in c.nodes && m != Actor(a) :: Step(c, a).nodes[m] == c.nodes[m]
  {
    assert c.nodes.Keys + {Actor(a)} == c.nodes.Keys;
  }

  // ---------- What a leader sends ----------

  /** The call with everything behind the peer's next index, and the leader's commit index, is on its way. */
  predicate Sent(c: Cluster, n: int, p: int) {
    && n in c.nodes && p in c.nodes[n].nextIndex
    && var s, next := c.nodes[n], c.nodes[n].nextIndex[p];
    && 1 <= next <= |s.log|
    && AppendRequest(n, p, AppendEntriesArgs(s.currentTerm, n, next - 1, s.log[next - 1].term, s.log[next..],
                                             s.commitIndex)) in c.appendRequests
  }

  lemma BroadcastSent(c: Cluster, n: int, p: int)
    requires n in c.nodes && c.nodes[n].role == Leader && InBounds(c.nodes[n]) && c.nodes[n].id == n
    requires p in c.nodes[n].peers && Broadcast(c.nodes[n]) <= c.appendRequests
    ensures Sent(c, n, p)
  {
    var s := c.nodes[n];
    assert AppendRequestTo(s, p) in Broadcast(s);
  }

  /** A heartbeat of a leader goes to every other node, and changes nothing else. */
  lemma HeartbeatSends(c: Cluster, n: int)
    requires Reachable(c) && n in c.nodes
    ensures Step(c, Heartbeat(n)).nodes == c.nodes
    ensures c.nodes[n].role == Leader ==> forall p | p in c.nodes && p != n :: Sent(Step(c, Heartbeat(n)), n, p)
  {
    hide Inv, Sent, InBounds;
    PeersAre(c, n);
    var h := Known(c);
    MemberNow(c, h, n);
    var c' := Step(c, Heartbeat(n));
    assert c'.nodes == c.nodes;
    if c.nodes[n].role == Leader {
      forall p | p in c.nodes && p != n
        ensures Sent(c', n, p)
      {
        BroadcastSent(c', n, p);
      }
    }
  }

  /** A leader puts the command at the end of its log and sends it to every other node; no other node takes it. */
  lemma CommandTaken(c: Cluster, n: int, key: seq<byte>, value: seq<byte>, tombstone: bool)
    requires Reachable(c) && n in c.nodes
    ensures var s, c' := c.nodes[n], Step(c, ClientSubmit(n, key, value, tombstone));
            && n in c'.nodes
            && (s.role != Leader ==> c'.nodes == c.nodes)
            && (s.role == Leader ==>
                  && c'.nodes[n] == s.(log := c'.nodes[n].log)
                  && c'.nodes[n].log == s.log + [LogEntry(|s.log|, s.currentTerm, key, value, tombstone)]
                  && forall p | p in c.nodes && p != n :: Sent(c', n, p))
  {
    hide Inv, Sent, InBounds;
    var a := ClientSubmit(n, key, value, tombstone);
    var c' := Step(c, a);
    PeersAre(c, n);
    ReachableNext(c, a);
    if c.nodes[n].role == Leader {
      var h' := Known(c');
      MemberNow(c', h', n);
      forall p | p in c.nodes && p != n
        ensures Sent(c', n, p)
      {
        BroadcastSent(c', n, p);
      }
    } else {
      assert c'.nodes == c.nodes;
    }
  }

  // ---------- Elections ----------

  /** Standing for election: the next term, a vote for itself, and a request to every other node. */
  lemma ElectionCalled(c: Cluster, n: int)
    requires Reachable(c) && n in c.nodes && c.nodes[n].role != Leader
    ensures var s, c' := c.nodes[n], Step(c, Timeout(n));
            && n in c'.nodes
            && var s' := c'.nodes[n];
            && s'.currentTerm == s.currentTerm + 1 && s'.votedFor == n && s'.votesReceived == 1
            && s'.log == s.log && s'.commitIndex == s.commitIndex && s'.applied == s.applied
            && s'.role == (if |c.nodes.Keys| == 1 then Leader else Candidate)
            && forall p | p in c.nodes && p != n ::
                 VoteRequest(n, p, RequestVoteArgs(s.currentTerm + 1, n, |s.log| - 1, s.log[|s.log| - 1].term))
                   in c'.voteRequests
  {
    hide SetAll, Broadcast;
    PeersAre(c, n);
    var s' := Step(c, Timeout(n)).nodes[n];
    forall p | p in c.nodes && p != n
      ensures VoteRequestTo(s', p) in VoteRequests(s')
    {
    }
  }

  /**
   * The vote a node gives: for a term that is not past, if it has not voted otherwise in that term, to a candidate
   * whose last entry is of a later term than its own, or of the same term and no less far on.
   */
  lemma VoteAnswered(c: Cluster, m: VoteRequest) returns (r: VoteResponse)
    requires Reachable(c) && m in c.voteRequests && m.to in c.nodes
    ensures var s, c' := c.nodes[m.to], Step(c, DeliverVoteRequest(m));
            && m.to in c'.nodes
            && var s', last := c'.nodes[m.to], |s.log| - 1;
            && c'.voteRequests == c.voteRequests - {m} && c'.voteResponses == c.voteResponses + {r}
            && r.from == m.to && r.to == m.from && r.term == m.args.term
            && r.reply.term == s'.currentTerm == (if m.args.term > s.currentTerm then m.args.term else s.currentTerm)
            && (r.reply.voteGranted <==>
                  && m.args.term >= s.currentTerm
                  && (m.args.term > s.currentTerm || s.votedFor == -1 || s.votedFor == m.from)
                  && (m.args.lastLogTerm > s.log[last].term ||
                      (m.args.lastLogTerm == s.log[last].term && m.args.lastLogIndex >= last)))
            && s'.votedFor == (if r.reply.voteGranted then m.from
                               else if m.args.term > s.currentTerm then -1 else s.votedFor)
            && s'.role == (if m.args.term > s.currentTerm then Follower else s.role)
            && s'.log == s.log && s'.commitIndex == s.commitIndex && s'.applied == s.applied
  {
    hide Inv;
    var h := Known(c);
    AskKnown(c, h, m);
    var reply := HandleRequestVote(c.nodes[m.to], m.args).1;
    r := VoteResponse(m.to, m.from, m.args.term, reply);
  }

  lemma AskKnown(c: Cluster, h: History, m: VoteRequest)
    requires Inv(c, h) && m in c.voteRequests
    ensures m.args.candidateId == m.from
  {
    hide Members, VotesRecorded, VotesCounted, LeadersElected, Replication, Commitment;
    assert VoteRequestOk(h, c.nodes.Keys, m);
  }

  /** Node `n` of `c` stands in term `t` with a log that ends in an entry of the given index and term. */
  predicate StandsWith(c: Cluster, n: int, args: RequestVoteArgs) {
    && n in c.nodes && c.nodes[n].currentTerm == args.term && args.candidateId == n
    && args.lastLogIndex == |c.nodes[n].log| - 1 && args.lastLogTerm == c.nodes[n].log[|c.nodes[n].log| - 1].term
  }

  lemma NewRequest(c: Cluster, a: Action, m: VoteRequest)
    requires Reachable(c) && Enabled(c, a) && m in Step(c, a).voteRequests && m !in c.voteRequests
    ensures StandsWith(Step(c, a), m.from, m.args)
  {
    hide SetAll, Broadcast, Reachable;
    match a
    case Timeout(n) => PeersAre(c, n);
    case _ =>
  }

  /** Every vote request in flight tells the end of the log its sender stood with. */
  lemma {:induction false} RequestsTell(run: seq<Cluster>, acts: seq<Action>, i: nat, m: VoteRequest)
    requires Behaves(run, acts) && i < |run| && m in run[i].voteRequests
    ensures exists x :: 0 <= x <= i && StandsWith(run[x], m.from, m.args)
    decreases i
  {
    hide Step, Enabled, StandsWith, Reachable;
    if i > 0 {
      if m in run[i - 1].voteRequests {
        RequestsTell(run, acts, i - 1, m);
      } else {
        PrefixReaches(run, acts, i - 1);
        NewRequest(run[i - 1], acts[i - 1], m);
      }
    }
  }

  lemma PrefixReaches(run: seq<Cluster>, acts: seq<Action>, i: nat)
    requires Behaves(run, acts) && i < |run|
    ensures Reachable(run[i])
  {
    hide Step, Enabled, Initial;
    forall k | 0 <= k < i
      ensures Enabled(run[..i + 1][k], acts[..i][k]) && run[..i + 1][k + 1] == Step(run[..i + 1][k], acts[..i][k])
    {
      assert Enabled(run[k], acts[k]) && run[k + 1] == Step(run[k], acts[k]);
    }
    assert Ends(run[..i + 1], acts[..i], run[i]);
  }

  /** No candidate has the votes of more than half of the nodes. */
  ghost predicate UnderHalf(c: Cluster) {
    forall n | n in c.nodes && c.nodes[n].role == Candidate :: 2 * c.nodes[n].votesReceived <= |c.nodes.Keys|
  }

  lemma UnderHalfKept(c: Cluster, a: Action)
    requires Reachable(c) && UnderHalf(c) && Enabled(c, a)
    ensures UnderHalf(Step(c, a))
  {
    hide Reachable, Step, Enabled;
    var n := Actor(a);
    OthersStay(c, a);
    PeersAre(c, n);
    var s, s' := c.nodes[n], Step(c, a).nodes[n];
    if a.Timeout? {
      StandsUnder(c, n);
    } else if a.DeliverVoteResponse? {
      CountsUnder(c, a.vr);
    } else {
      CountKept(c, a);
    }
  }

  lemma StandsUnder(c: Cluster, n: int)
    requires n in c.nodes && Enabled(c, Timeout(n)) && |c.nodes.Keys| == |c.nodes[n].peers| + 1
    ensures var s' := Step(c, Timeout(n)).nodes[n];
            s'.role == Candidate ==> 2 * s'.votesReceived <= |c.nodes.Keys|
  {
    hide SetAll, Broadcast, VoteRequests;
  }

  lemma CountsUnder(c: Cluster, m: VoteResponse)
    requires Enabled(c, DeliverVoteResponse(m)) && |c.nodes.Keys| == |c.nodes[m.to].peers| + 1
    requires c.nodes[m.to].role == Candidate ==> 2 * c.nodes[m.to].votesReceived <= |c.nodes.Keys|
    ensures var s' := Step(c, DeliverVoteResponse(m)).nodes[m.to];
            s'.role == Candidate ==> 2 * s'.votesReceived <= |c.nodes.Keys|
  {
    hide SetAll, Broadcast;
  }

  /** No other step starts a candidacy or counts a vote. */
  lemma CountKept(c: Cluster, a: Action)
    requires Enabled(c, a) && !a.Timeout? && !a.DeliverVoteResponse?
    ensures var s, s' := c.nodes[Actor(a)], Step(c, a).nodes[Actor(a)];
            s'.role == Candidate ==> s.role == Candidate && s'.votesReceived == s.votesReceived
  {
    hide SetAll, Broadcast, Merge, Messages, CommitPoint, VoteRequests, Consistent, UpToDate;
  }

  lemma {:induction false} UnderHalfAlways(run: seq<Cluster>, acts: seq<Action>, i: nat)
    requires Behaves(run, acts) && i < |run|
    ensures UnderHalf(run[i])
  {
    hide Step, Enabled, Reachable;
    if i > 0 {
      UnderHalfAlways(run, acts, i - 1);
      PrefixReaches(run, acts, i - 1);
      UnderHalfKept(run[i - 1], acts[i - 1]);
    }
  }

  /** In every state of every run, a node that is still a candidate has at most half of the votes. */
  lemma CandidateBound(c: Cluster, n: int)
    requires Reachable(c) && n in c.nodes && c.nodes[n].role == Candidate
    ensures 2 * c.nodes[n].votesReceived <= |c.nodes.Keys|
  {
    hide Behaves;
    var run, acts :| Ends(run, acts, c);
    RunLength(run, acts);
    UnderHalfAlways(run, acts, |run| - 1);
  }

  /**
   * The answer to a vote request: one that is out of date changes nothing, a later term ends the candidacy, a vote is
   * counted, and the candidate becomes leader exactly when it has the votes of more than half of the nodes. It then
   * believes every other node's log to be as long as its own, and says so.
   */
  lemma VoteCounted(c: Cluster, m: VoteResponse)
    requires Reachable(c) && m in c.voteResponses && m.to in c.nodes
    ensures var s, c' := c.nodes[m.to], Step(c, DeliverVoteResponse(m));
            && m.to in c'.nodes && c'.voteRequests == c.voteRequests && c'.voteResponses == c.voteResponses - {m}
            && var s' := c'.nodes[m.to];
            && s'.log == s.log && s'.commitIndex == s.commitIndex && s'.applied == s.applied
            && (s.role != Candidate || s.currentTerm != m.term ==> s' == s)
            && (s.role == Candidate && s.currentTerm == m.term ==>
                  && (m.reply.term > s.currentTerm ==>
                        s'.role == Follower && s'.currentTerm == m.reply.term && s'.votedFor == -1)
                  && (m.reply.term <= s.currentTerm && !m.reply.voteGranted ==> s' == s)
                  && (m.reply.term <= s.currentTerm && m.reply.voteGranted ==>
                        && s'.currentTerm == s.currentTerm && s'.votesReceived == s.votesReceived + 1
                        && s'.role == (if 2 * s'.votesReceived > |c.nodes.Keys| then Leader else Candidate)
                        && (s'.role == Leader ==> forall p | p in c.nodes && p != m.to ::
                              && p in s'.nextIndex && s'.nextIndex[p] == |s.log|
                              && p in s'.matchIndex && s'.matchIndex[p] == 0 && Sent(c', m.to, p))))
  {
    hide Sent, InBounds, Broadcast, Inv;
    var a := DeliverVoteResponse(m);
    var s, c' := c.nodes[m.to], Step(c, a);
    PeersAre(c, m.to);
    if s.role == Candidate && c'.nodes[m.to].role == Leader {
      ReachableNext(c, a);
      var h' := Known(c');
      MemberNow(c', h', m.to);
      forall p | p in c.nodes && p != m.to
        ensures Sent(c', m.to, p)
      {
        BroadcastSent(c', m.to, p);
      }
    }
  }

  // ---------- Followers ----------

  /** The log holds `entries` right behind index `prev`. */
  predicate Holds(log: Log, prev: nat, entries: seq<LogEntry>) {
    prev + |entries| < |log| && log[prev + 1..prev + 1 + |entries|] == entries
  }

  /** Merging what the leader sent: nothing to do, or exactly the sent entries behind the place they belong. */
  lemma MergedIs(c: Cluster, h: History, m: AppendRequest)
    requires Accepts(c, h, m)
    ensures var log, prev := c.nodes[m.to].log, m.args.prevLogIndex;
            RaftReplicationSteps.Merged(c, m) ==
              if Holds(log, prev, m.args.entries) then log else log[..prev + 1] + m.args.entries
  {
    hide Merge;
    var log, whole, idx, entries := c.nodes[m.to].log, h.leaderLog[m.args.term], m.args.prevLogIndex + 1, m.args.entries;
    TermsMatch(h, log, whole, m.args.prevLogIndex);
    if Holds(log, m.args.prevLogIndex, entries) {
      forall k: nat
        ensures !Conflict(log, idx, entries, k)
      {
        if k < |entries| {
          assert log[idx..idx + |entries|][k] == entries[k];
        }
      }
      MergeWithoutConflict(log, idx, entries);
    } else {
      forall j | 0 <= j < |log| && j < |whole| && log[j].term == whole[j].term
        ensures log[j] == whole[j]
      {
        TermsMatch(h, log, whole, j);
      }
      MergeFromLeader(log, idx, entries, whole);
      assert log[..idx] + entries == whole[..idx + |entries|];
    }
  }

  /**
   * A call is accepted exactly when its term is not past and the entry before its entries is in the log. The log then
   * is as before if it held the entries already, and otherwise ends with them; the commit index is the leader's if
   * that is higher. A refused call changes neither.
   */
  lemma CallAnswered(c: Cluster, m: AppendRequest) returns (r: AppendResponse)
    requires Reachable(c) && m in c.appendRequests && m.to in c.nodes
    ensures var s, c' := c.nodes[m.to], Step(c, DeliverAppendRequest(m));
            && m.to in c'.nodes
            && var s', prev := c'.nodes[m.to], m.args.prevLogIndex;
            && c'.appendResponses == c.appendResponses + {r} && c'.appendRequests == c.appendRequests
            && r.from == m.to && r.to == m.from && r.term == m.args.term
            && r.prevIndex == prev && r.count == |m.args.entries|
            && r.reply.term == s'.currentTerm == (if m.args.term > s.currentTerm then m.args.term else s.currentTerm)
            && (r.reply.success <==>
                  m.args.term >= s.currentTerm && prev < |s.log| && s.log[prev].term == m.args.prevLogTerm)
            && s'.role == (if m.args.term >= s.currentTerm then Follower else s.role)
            && s'.votedFor == (if m.args.term > s.currentTerm then -1 else s.votedFor)
            && (!r.reply.success ==> s'.log == s.log && s'.commitIndex == s.commitIndex && s'.applied == s.applied)
            && (r.reply.success ==>
                  && s'.log == (if Holds(s.log, prev, m.args.entries) then s.log
                                else s.log[..prev + 1] + m.args.entries)
                  && s'.commitIndex ==
                       (if m.args.leaderCommit > s.commitIndex then m.args.leaderCommit else s.commitIndex))
  {
    hide Inv, Merge, Messages, Holds;
    var h := Known(c);
    CallKnown(c, h, m);
    var reply := HandleAppendEntries(c.nodes[m.to], m.args).1;
    r := AppendResponse(m.to, m.from, m.args.term, m.args.prevLogIndex, |m.args.entries|, reply);
    if reply.success {
      var c1 := WithNode(c, m.to, Observe(c.nodes[m.to], m.args.term));
      ObserveKeeps(c, h, m.to, m.args.term);
      AcceptedStep(c1, h, m);
      MergedIs(c1, h, m);
    }
  }

  // ---------- What a leader makes of an answer ----------

  /** The other nodes the leader knows to hold its log through index `i`. */
  function Matching(s: NodeState, i: nat): set<int> {
    set p | p in s.peers && p in s.matchIndex && s.matchIndex[p] >= i
  }

  /** Entry `i` is of the leader's own term, and it and the others it knows of make more than half of the nodes. */
  predicate Decided(s: NodeState, i: nat, size: nat) {
    i < |s.log| && s.log[i].term == s.currentTerm && 2 * (1 + |Matching(s, i)|) > size
  }

  lemma ReplicatedIs(s: NodeState, i: nat)
    requires Distinct(s.peers) && InBounds(s) && s.role == Leader
    ensures Replicated(s, i) <==> Decided(s, i, |s.peers| + 1)
  {
    MatchCountIs(s.matchIndex, s.peers, i);
    assert (set p | p in s.peers && Lookup(s.matchIndex, p) >= i) == Matching(s, i);
  }

  /** After an accepted call the leader's commit index is the highest that is decided, or stays where it is. */
  lemma AdvanceIs(s: NodeState, size: nat)
    requires size == |s.peers| + 1 && Distinct(s.peers) && InBounds(s) && s.role == Leader && s.commitIndex < |s.log|
    ensures var s' := AdvanceCommit(s);
            && s' == s.(commitIndex := s'.commitIndex, lastApplied := s'.lastApplied, applied := s'.applied)
            && (s'.commitIndex == s.commitIndex || (s.commitIndex < s'.commitIndex && Decided(s, s'.commitIndex, size)))
            && (forall i :: s.commitIndex < i < |s.log| && Decided(s, i, size) ==> i <= s'.commitIndex)
  {
    hide Messages, Replicated, Decided, InBounds;
    var k := CommitPoint(s, LastIndex(s.log));
    ReplicatedIs(s, k);
    forall i | s.commitIndex < i < |s.log| && Decided(s, i, size)
      ensures i <= AdvanceCommit(s).commitIndex
    {
      ReplicatedIs(s, i);
    }
  }

  /**
   * The answer to a call: one from another term changes nothing, a later term ends the leadership, a refusal moves
   * the next index back by one but not below 1. An acceptance sets the indices to what the call reached, and the
   * commit index to the highest entry of the leader's own term that more than half of the nodes are known to hold.
   */
  lemma AnswerCounted(c: Cluster, m: AppendResponse)
    requires Reachable(c) && m in c.appendResponses && m.to in c.nodes
    ensures var s, c' := c.nodes[m.to], Step(c, DeliverAppendResponse(m));
            && m.to in c'.nodes && c'.appendRequests == c.appendRequests
            && var s', p, size := c'.nodes[m.to], m.from, |c.nodes.Keys|;
            && s'.log == s.log
            && (s.role != Leader || s.currentTerm != m.term ==> s' == s)
            && (s.role == Leader && s.currentTerm == m.term ==>
                  && p in s.nextIndex && p in s.matchIndex
                  && (m.reply.term > s.currentTerm ==>
                        s'.role == Follower && s'.currentTerm == m.reply.term && s'.votedFor == -1)
                  && (m.reply.term <= s.currentTerm && !m.reply.success ==>
                        s' == s.(nextIndex := s.nextIndex[p := if s.nextIndex[p] > 1 then s.nextIndex[p] - 1 else 1]))
                  && (m.reply.term <= s.currentTerm && m.reply.success ==>
                        && s'.role == Leader && s'.currentTerm == s.currentTerm
                        && s'.matchIndex == s.matchIndex[p := m.prevIndex + m.count]
                        && s'.nextIndex == s.nextIndex[p := m.prevIndex + m.count + 1]
                        && (s'.commitIndex == s.commitIndex ||
                            (s.commitIndex < s'.commitIndex && Decided(s', s'.commitIndex, size)))
                        && forall i :: s.commitIndex < i < |s.log| && Decided(s', i, size) ==> i <= s'.commitIndex))
  {
    hide Inv, InBounds, CommitPoint, Messages, Replicated, Matching;
    var s, a := c.nodes[m.to], DeliverAppendResponse(m);
    var h := Known(c);
    MemberNow(c, h, m.to);
    PeersAre(c, m.to);
    AnswerKnown(c, h, m);
    if s.role == Leader && s.currentTerm == m.term {
      Recorded(s, m.from);
      if m.reply.term <= s.currentTerm && m.reply.success {
        AppliedNow(c, h, m.to);
        AnswerFits(c, h, m);
        var s1 := RecordMatch(s, m.from, m.prevIndex, m.count);
        var s', size := AdvanceCommit(s1), |c.nodes.Keys|;
        AdvanceIs(s1, size);
        SameMatching(s', s1, s'.commitIndex);
        forall i | s.commitIndex < i < |s.log| && Decided(s', i, size)
          ensures i <= s'.commitIndex
        {
          SameMatching(s', s1, i);
          assert Decided(s1, i, size);
        }
      }
    }
  }

  lemma SameMatching(s: NodeState, s1: NodeState, i: nat)
    requires s.peers == s1.peers && s.matchIndex == s1.matchIndex
    ensures Matching(s, i) == Matching(s1, i)
  {
  }

  lemma AnswerKnown(c: Cluster, h: History, m: AppendResponse)
    requires Inv(c, h) && m in c.appendResponses
    ensures m.from in c.nodes && m.from != m.to
  {
    hide Members, Elections, LogsRooted, AcksHeld, MatchesAcked, Commitment;
    assert AppendResponseOk(h, c.nodes.Keys, m);
  }

  lemma Recorded(s: NodeState, p: int)
    requires InBounds(s) && s.role == Leader && p in s.peers
    ensures p in s.nextIndex && p in s.matchIndex && 1 <= s.nextIndex[p]
  {
  }

  lemma AnswerFits(c: Cluster, h: History, m: AppendResponse)
    requires Inv(c, h) && m in c.appendResponses && m.to in c.nodes && m.reply.success
    requires c.nodes[m.to].role == Leader && c.nodes[m.to].currentTerm == m.term && m.from in c.nodes[m.to].peers
    ensures InBounds(RecordMatch(c.nodes[m.to], m.from, m.prevIndex, m.count))
  {
    hide VotesRecorded, VotesCounted, VoteMessages, LeadersElected, LogsRooted, AcksHeld, MatchesAcked, Commitment;
    LeaderNow(c, h, m.to, m.term);
    assert AppendResponseOk(h, c.nodes.Keys, m);
    assert InBounds(c.nodes[m.to]);
  }
}
