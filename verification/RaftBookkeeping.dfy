/** What holds of calls in flight, of vote counters and of a leader's records of its peers, over whole runs. */
module RaftBookkeeping {
  import opened RaftTypes
  import opened RaftHandlers
  import opened RaftCluster
  import opened RaftInvariants
  import opened RaftEvolution
  import opened RaftReplicationSteps
  import opened RaftRuns
  import opened RaftSafety

  /** What the call carries is a stretch of `log`. */
  predicate IsSlice(args: AppendEntriesArgs, log: Log) {
    && LastSent(args) < |log| && log[args.prevLogIndex].term == args.prevLogTerm
    && args.entries == log[args.prevLogIndex + 1..LastSent(args) + 1]
  }

  /** The call carries, for `m.to`, a stretch of the log of node `n` as it leads the call's term in `c`. */
  predicate SentFrom(c: Cluster, n: int, m: AppendRequest) {
    Leads(c, n, m.args.term) && m.from == n != m.to && IsSlice(m.args, c.nodes[n].log)
  }

  lemma HeartbeatIsSlice(s: NodeState, p: int)
    requires s.role == Leader && InBounds(s) && p in s.peers
    ensures IsSlice(AppendRequestTo(s, p).args, s.log)
  {
    assert 1 <= s.nextIndex[p] <= |s.log|;
  }

  /** A call that a step adds is one its sender broadcasts as leader. */
  lemma NewCall(c: Cluster, a: Action, m: AppendRequest)
    requires Enabled(c, a) && m in Step(c, a).appendRequests && m !in c.appendRequests
    ensures exists n :: n in Step(c, a).nodes && m in Broadcast(Step(c, a).nodes[n])
  {
    var c' := Step(c, a);
    match a
    case Timeout(n) =>
      assert m in Broadcast(c'.nodes[n]);
    case DeliverVoteRequest(r) =>
    case DeliverVoteResponse(r) =>
      assert m in Broadcast(c'.nodes[r.to]);
    case Heartbeat(n) =>
      assert m in Broadcast(c'.nodes[n]);
    case DeliverAppendRequest(r) =>
    case DeliverAppendResponse(r) =>
    case ClientSubmit(n, key, value, tombstone) =>
      assert m in Broadcast(c'.nodes[n]);
  }

  lemma BroadcastIsSlice(c: Cluster, h: History, n: int, m: AppendRequest)
    requires Inv(c, h) && n in c.nodes && m in Broadcast(c.nodes[n])
    ensures SentFrom(c, n, m)
  {
    hide Inv, InBounds, IsSlice;
    MemberNow(c, h, n);
    var p :| p in c.nodes[n].peers && m == AppendRequestTo(c.nodes[n], p);
    HeartbeatIsSlice(c.nodes[n], p);
  }

  /**
   * Every call in flight, however long delayed, was sent by the leader of its term at some moment of the run as a
   * stretch of that leader's log, and asks the follower to commit no further than it reaches.
   */
  lemma {:induction false} CallsAreSlices(run: seq<Cluster>, acts: seq<Action>, i: nat, m: AppendRequest)
    requires Behaves(run, acts) && i < |run| && m in run[i].appendRequests
    ensures m.args.leaderCommit <= LastSent(m.args)
    ensures exists x, n :: 0 <= x <= i && SentFrom(run[x], n, m)
    decreases i
  {
    hide Inv, Step, Enabled, SentFrom, Broadcast;
    RunInv(run, acts, i);
    CallKnown(run[i], HistoryAt(run, acts, i), m);
    if i > 0 {
      if m in run[i - 1].appendRequests {
        CallsAreSlices(run, acts, i - 1, m);
      } else {
        NewCall(run[i - 1], acts[i - 1], m);
        var n :| n in run[i].nodes && m in Broadcast(run[i].nodes[n]);
        BroadcastIsSlice(run[i], HistoryAt(run, acts, i), n, m);
      }
    }
  }

  /** It stays a stretch of the leader's log for as long as that node leads the term. */
  lemma CallsStaySlices(run: seq<Cluster>, acts: seq<Action>, i: nat, j: nat, m: AppendRequest, n: int)
    requires Behaves(run, acts) && i <= j < |run| && m in run[i].appendRequests && Leads(run[j], n, m.args.term)
    ensures SentFrom(run[j], n, m)
  {
    hide Inv, Behaves;
    RunInv(run, acts, i);
    RunInv(run, acts, j);
    RunGrows(run, acts, i, j);
    CallKnown(run[i], HistoryAt(run, acts, i), m);
    LeaderNow(run[j], HistoryAt(run, acts, j), n, m.args.term);
    assert Grown(HistoryAt(run, acts, i).leaderLog[m.args.term], HistoryAt(run, acts, j).leaderLog[m.args.term], m.args.term);
  }

  lemma AcceptedStep(c: Cluster, h: History, m: AppendRequest)
    requires Inv(c, h) && m in c.appendRequests && m.to in c.nodes && c.nodes[m.to].currentTerm == m.args.term
    requires Consistent(c.nodes[m.to].log, m.args.prevLogIndex, m.args.prevLogTerm)
    ensures Accepted(c, h, m)
  {
    hide VotesRecorded, VotesCounted, VoteMessages, LeadersElected, LogsRooted, AppendMessages, AcksHeld, MatchesAcked,
      LeadersComplete, AcksRetained, VotesInformed, CommitsSafe, AppliedExactly;
    AcceptsNow(c, h, m);
    AcceptedNow(c, h, m);
  }

  /**
   * An accepted call raises the follower's commit index to exactly the leader's, never past what the call covers,
   * and leaves everything the follower had committed in place.
   */
  lemma FollowerCommitExact(run: seq<Cluster>, acts: seq<Action>, k: nat, m: AppendRequest)
    requires Behaves(run, acts) && k < |acts| && acts[k] == DeliverAppendRequest(m)
    requires m.to in run[k].nodes && HandleAppendEntries(run[k].nodes[m.to], m.args).1.success
    ensures m.to in run[k + 1].nodes
    ensures var s, s' := run[k].nodes[m.to], run[k + 1].nodes[m.to];
            && s'.commitIndex == (if m.args.leaderCommit > s.commitIndex then m.args.leaderCommit else s.commitIndex)
            && (s'.commitIndex > s.commitIndex ==> s'.commitIndex <= LastSent(m.args))
            && LastSent(m.args) < |s'.log| && s.commitIndex < |s.log|
            && s.log[..s.commitIndex + 1] <= s'.log
  {
    hide Inv, Merge, Messages;
    var c, h := run[k], HistoryAt(run, acts, k);
    assert Enabled(c, acts[k]) && run[k + 1] == Step(c, acts[k]);
    RunInv(run, acts, k);
    hide Behaves;
    CallKnown(c, h, m);
    var c1 := WithNode(c, m.to, Observe(c.nodes[m.to], m.args.term));
    ObserveKeeps(c, h, m.to, m.args.term);
    AcceptedStep(c1, h, m);
  }

  // ---------- Vote counters ----------

  predicate VotedFor(c: Cluster, v: int, candidate: int, t: nat) {
    v in c.nodes && c.nodes[v].currentTerm == t && c.nodes[v].votedFor == candidate
  }

  /** A vote that a step adds to the history is the one the voter then holds. */
  lemma NewVote(c: Cluster, h: History, a: Action, k: (int, nat))
    requires Inv(c, h) && Enabled(c, a) && k in NextHistory(c, h, a).votes && k !in h.votes
    ensures VotedFor(Step(c, a), k.0, NextHistory(c, h, a).votes[k], k.1)
  {
    hide Inv, Grows;
    StepKeeps(c, h, a);
    match a
    case Timeout(n) =>
      TimeoutVotes(c, h, n);
      VoteNow(Step(c, a), NextHistory(c, h, a), n);
    case DeliverVoteRequest(m) =>
      VoteNow(Step(c, a), NextHistory(c, h, a), m.to);
    case DeliverVoteResponse(m) =>
    case Heartbeat(n) =>
    case DeliverAppendRequest(m) =>
    case DeliverAppendResponse(m) =>
    case ClientSubmit(n, key, value, tombstone) =>
  }

  /** Every vote in the history was cast at some moment of the run. */
  lemma {:induction false} VoteWasCast(run: seq<Cluster>, acts: seq<Action>, i: nat, k: (int, nat))
    requires Behaves(run, acts) && i < |run| && k in HistoryAt(run, acts, i).votes
    ensures exists x :: 0 <= x <= i && VotedFor(run[x], k.0, HistoryAt(run, acts, i).votes[k], k.1)
    decreases i
  {
    hide Inv, Step, NextHistory, Enabled, Initial;
    if i > 0 {
      var h := HistoryAt(run, acts, i - 1);
      RunInv(run, acts, i - 1);
      RunGrows(run, acts, i - 1, i);
      if k in h.votes {
        VoteWasCast(run, acts, i - 1, k);
      } else {
        NewVote(run[i - 1], h, acts[i - 1], k);
      }
    }
  }

  lemma CandidateNow(c: Cluster, h: History, n: int)
    requires Inv(c, h) && n in c.nodes && c.nodes[n].role == Candidate
    ensures CandidateOk(h, n, c.nodes[n])
    ensures forall v | v in h.counted[(n, c.nodes[n].currentTerm)] :: CountOk(c, h, (n, c.nodes[n].currentTerm), v)
  {
    hide Members, VotesRecorded, VoteMessages, LeadersElected, Replication, Commitment;
    assert CandidateOk(h, n, c.nodes[n]);
  }

  /** A candidate's counter is the number of distinct nodes that voted for it in its term. */
  lemma CounterIsVoters(run: seq<Cluster>, acts: seq<Action>, i: nat, n: int) returns (voters: set<int>)
    requires Behaves(run, acts) && i < |run| && n in run[i].nodes && run[i].nodes[n].role == Candidate
    ensures |voters| == run[i].nodes[n].votesReceived && voters <= run[i].nodes.Keys
    ensures forall v | v in voters ::
              exists x :: 0 <= x <= i && VotedFor(run[x], v, n, run[i].nodes[n].currentTerm)
  {
    hide Inv, Behaves;
    var h, t := HistoryAt(run, acts, i), run[i].nodes[n].currentTerm;
    RunInv(run, acts, i);
    CandidateNow(run[i], h, n);
    voters := h.counted[(n, t)];
    forall v | v in voters
      ensures v in run[i].nodes && exists x :: 0 <= x <= i && VotedFor(run[x], v, n, t)
    {
      assert CountOk(run[i], h, (n, t), v);
      VoteWasCast(run, acts, i, (v, t));
    }
  }

  // ---------- A leader's records ----------

  lemma RecordsNow(c: Cluster, h: History, n: int, p: int)
    requires Inv(c, h) && n in c.nodes && c.nodes[n].role == Leader && p in c.nodes[n].peers
    ensures p in c.nodes && InBounds(c.nodes[n]) && MatchOk(h, c.nodes[n], p)
    ensures (p, c.nodes[n].currentTerm) in h.acks ==> AckOk(c, h, (p, c.nodes[n].currentTerm))
  {
    hide Elections, LogsRooted, AppendMessages, Commitment;
    assert KnowsPeers(c.nodes[n], n, c.nodes.Keys) && InBounds(c.nodes[n]) && MatchOk(h, c.nodes[n], p);
  }

  /**
   * A leader's next and match indices stay inside its log, and while a peer is in the leader's term its log agrees
   * with the leader's through the match index, however old the answer that set it.
   */
  lemma LeaderBookkeeping(run: seq<Cluster>, acts: seq<Action>, i: nat, n: int, p: int)
    requires Behaves(run, acts) && i < |run| && n in run[i].nodes && run[i].nodes[n].role == Leader
    requires p in run[i].nodes[n].peers
    ensures var s := run[i].nodes[n];
            && p in run[i].nodes && p in s.nextIndex && p in s.matchIndex
            && 1 <= s.nextIndex[p] <= |s.log| && s.matchIndex[p] < |s.log|
            && (run[i].nodes[p].currentTerm == s.currentTerm ==>
                  s.matchIndex[p] < |run[i].nodes[p].log| &&
                  run[i].nodes[p].log[..s.matchIndex[p] + 1] == s.log[..s.matchIndex[p] + 1])
  {
    hide Inv, Behaves;
    var c, h := run[i], HistoryAt(run, acts, i);
    RunInv(run, acts, i);
    RecordsNow(c, h, n, p);
    LeaderNow(c, h, n, c.nodes[n].currentTerm);
    LogNow(c, h, n);
    LogNow(c, h, p);
  }

  // ---------- A cluster of one ----------

  ghost predicate Alone(c: Cluster, n: int) {
    && c.nodes.Keys == {n} && c.nodes[n].peers == [] && c.nodes[n].id == n
    && c.nodes[n].commitIndex == 0 && c.nodes[n].applied == []
    && c.appendRequests == {} && c.appendResponses == {}
  }

  lemma AloneStays(c: Cluster, a: Action, n: int)
    requires Alone(c, n) && Enabled(c, a)
    ensures Alone(Step(c, a), n)
  {
    assert forall m :: m in c.nodes ==> m == n;
    assert Step(c, a).nodes.Keys == {n};
  }

  lemma MemberOf(s: seq<int>)
    ensures s != [] ==> exists p :: p in s
  {
    if s != [] {
      var p := s[0];
      assert p in s;
    }
  }

  /** A node without peers never commits or applies anything. */
  lemma {:induction false} AloneNeverCommits(run: seq<Cluster>, acts: seq<Action>, i: nat, n: int)
    requires Behaves(run, acts) && i < |run| && run[0].nodes.Keys == {n}
    ensures run[i].nodes.Keys == {n} && run[i].nodes[n].commitIndex == 0 && run[i].nodes[n].applied == []
    ensures Alone(run[i], n)
  {
    if i == 0 {
      assert n in run[0].nodes;
      assert run[0].nodes[n].peers == [] by {
        assert KnowsPeers(run[0].nodes[n], n, run[0].nodes.Keys);
        MemberOf(run[0].nodes[n].peers);
      }
    } else {
      AloneNeverCommits(run, acts, i - 1, n);
      AloneStays(run[i - 1], acts[i - 1], n);
    }
  }
}
