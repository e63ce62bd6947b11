/** Every step of the cluster keeps the invariant, so it holds all along every run. */
module RaftRuns {
  import opened Bytes
  import opened RaftTypes
  import opened RaftHandlers
  import opened RaftCluster
  import opened RaftInvariants
  import opened RaftEvolution
  import opened RaftElectionSteps
  import opened RaftLeaderSteps
  import opened RaftReplicationSteps

  /** What later states and histories add to earlier ones. */
  ghost predicate Grows(c: Cluster, h: History, c': Cluster, h': History) {
    && c'.nodes.Keys == c.nodes.Keys
    && (forall t | t in h.leader :: t in h'.leader && h'.leader[t] == h.leader[t])
    && LogsGrow(h, h')
    && (forall k | k in h.votes :: k in h'.votes && h'.votes[k] == h.votes[k])
    && (forall n: int, t: nat :: Ack(h, n, t) <= Ack(h', n, t))
    && (forall n | n in c.nodes :: c.nodes[n].applied <= c'.nodes[n].applied)
  }

  lemma GrowsReflexive(c: Cluster, h: History)
    ensures Grows(c, h, c, h)
  {
  }

  lemma GrowsTransitive(c: Cluster, h: History, c1: Cluster, h1: History, c2: Cluster, h2: History)
    requires Grows(c, h, c1, h1) && Grows(c1, h1, c2, h2)
    ensures Grows(c, h, c2, h2)
  {
    forall t | t in h.leaderLog
      ensures t in h2.leaderLog && Grown(h.leaderLog[t], h2.leaderLog[t], t)
    {
      assert Grown(h.leaderLog[t], h1.leaderLog[t], t) && Grown(h1.leaderLog[t], h2.leaderLog[t], t);
    }
  }

  // ---------- One action at a time ----------

  function TimeoutHistory(h: History, s: NodeState): History {
    var h1 := RecordElection(h, BecomeCandidate(s));
    if 1 >= Majority(s) then RecordWin(h1, BecomeCandidate(s)) else h1
  }

  lemma TimeoutVotes(c: Cluster, h: History, n: int)
    requires Inv(c, h) && n in c.nodes
    ensures (n, c.nodes[n].currentTerm + 1) !in h.votes && c.nodes[n].id == n
  {
    hide VotesRecorded, VotesCounted, VoteMessages, LeadersElected, Replication, Commitment;
    LaterTermsFresh(c, h, n, c.nodes[n].currentTerm + 1);
    assert KnowsPeers(c.nodes[n], n, c.nodes.Keys);
  }

  lemma TimeoutKeeps(c: Cluster, h: History, n: int)
    requires Inv(c, h) && n in c.nodes
    ensures Inv(StepTimeout(c, n), TimeoutHistory(h, c.nodes[n]))
    ensures Grows(c, h, StepTimeout(c, n), TimeoutHistory(h, c.nodes[n]))
  {
    hide Inv;
    TimeoutVotes(c, h, n);
    ElectKeeps(c, h, n);
    if 1 >= Majority(c.nodes[n]) {
      LoneWinKeeps(c, h, n);
    } else {
      assert WithElection(c, n) == StepTimeout(c, n);
    }
  }

  lemma ElectGrows(c: Cluster, h: History, n: int)
    requires n in c.nodes && (n, c.nodes[n].currentTerm + 1) !in h.votes && c.nodes[n].id == n
    ensures Grows(c, h, WithElection(c, n), RecordElection(h, BecomeCandidate(c.nodes[n])))
  {
  }

  /** A node without peers wins as soon as it stands. */
  lemma LoneWinKeeps(c: Cluster, h: History, n: int)
    requires Inv(c, h) && n in c.nodes && 1 >= Majority(c.nodes[n])
    requires Inv(WithElection(c, n), RecordElection(h, BecomeCandidate(c.nodes[n])))
    requires (n, c.nodes[n].currentTerm + 1) !in h.votes && c.nodes[n].id == n
    ensures Inv(StepTimeout(c, n), TimeoutHistory(h, c.nodes[n]))
    ensures Grows(c, h, StepTimeout(c, n), TimeoutHistory(h, c.nodes[n]))
  {
    hide Inv, Grows, Broadcast, SetAll;
    var c1, h1 := WithElection(c, n), RecordElection(h, BecomeCandidate(c.nodes[n]));
    ElectGrows(c, h, n);
    WinKeeps(c1, h1, n);
    WinGrows(c1, h1, n);
    var c2, h2 := WithWin(c1, n), RecordWin(h1, c1.nodes[n]);
    GrowsTransitive(c, h, c1, h1, c2, h2);
    SendKeeps(c2, h2, n);
    assert WithCalls(c2, n).nodes == StepTimeout(c, n).nodes;
    assert VoteRequests(c2.nodes[n]) == VoteRequests(c1.nodes[n]);
    assert WithCalls(c2, n) == StepTimeout(c, n);
    SendGrows(c, h, c2, h2, n);
  }

  /** Sending changes no node. */
  lemma SendGrows(c: Cluster, h: History, c': Cluster, h': History, n: int)
    requires Grows(c, h, c', h') && n in c'.nodes
    ensures Grows(c, h, WithCalls(c', n), h')
  {
  }

  lemma WinGrows(c: Cluster, h: History, n: int)
    requires Inv(c, h) && n in c.nodes
    requires c.nodes[n].role == Candidate && c.nodes[n].votesReceived >= Majority(c.nodes[n])
    ensures Grows(c, h, WithWin(c, n), RecordWin(h, c.nodes[n]))
  {
    hide VotesRecorded, VotesCounted, VoteMessages, LeadersElected, LogsRooted, AppendMessages, AcksHeld, MatchesAcked,
      Commitment;
    WinsNow(c, h, n);
    WinEvolves(c, h, n);
  }

  function VoteRequestHistory(h: History, s: NodeState, m: VoteRequest): History {
    if Grants(Observe(s, m.args.term), m.args) then RecordVote(h, m.to, m.args.term, m.from) else h
  }

  lemma ObserveKeeps(c: Cluster, h: History, n: int, term: nat)
    requires Inv(c, h) && n in c.nodes
    ensures Inv(WithNode(c, n, Observe(c.nodes[n], term)), h)
  {
    if term > c.nodes[n].currentTerm {
      BumpKeeps(c, h, n, term);
    } else {
      assert WithNode(c, n, c.nodes[n]).nodes == c.nodes;
    }
  }

  lemma GrantVotes(c: Cluster, h: History, m: VoteRequest)
    requires Inv(c, h) && m in c.voteRequests && m.to in c.nodes && Grants(c.nodes[m.to], m.args)
    ensures (m.to, m.args.term) in h.votes ==> h.votes[(m.to, m.args.term)] == m.from
  {
    hide VotesRecorded, VotesCounted, VoteMessages, LeadersElected, Replication, Commitment;
    RequestOk(c, h, m);
    GrantRecorded(c, h, m);
  }

  lemma VoteRequestKeeps(c: Cluster, h: History, m: VoteRequest)
    requires Inv(c, h) && m in c.voteRequests && m.to in c.nodes
    ensures Inv(StepVoteRequest(c, m), VoteRequestHistory(h, c.nodes[m.to], m))
    ensures Grows(c, h, StepVoteRequest(c, m), VoteRequestHistory(h, c.nodes[m.to], m))
  {
    hide Inv;
    var o := Observe(c.nodes[m.to], m.args.term);
    var c1 := WithNode(c, m.to, o);
    ObserveKeeps(c, h, m.to, m.args.term);
    if Grants(o, m.args) {
      GrantVotes(c1, h, m);
      GrantKeeps(c1, h, m);
      assert WithVote(c1, m, true).nodes == StepVoteRequest(c, m).nodes;
    } else {
      DenyKeeps(c1, h, m);
      assert WithVote(c1, m, false).nodes == StepVoteRequest(c, m).nodes;
    }
  }

  function VoteResponseHistory(h: History, s: NodeState, m: VoteResponse): History {
    if s.role == Candidate && s.currentTerm == m.term && m.reply.term <= s.currentTerm && m.reply.voteGranted then
      var h1 := RecordCount(h, m.to, m.term, m.from);
      if s.votesReceived + 1 >= Majority(s) then RecordWin(h1, s) else h1
    else h
  }

  lemma CountGrows(c: Cluster, h: History, m: VoteResponse)
    requires m.to in c.nodes
    ensures Grows(c, h, WithCount(c, m), RecordCount(h, m.to, m.term, m.from))
  {
  }

  /** A granted vote is counted, and may win the election. */
  lemma VoteCountedKeeps(c: Cluster, h: History, m: VoteResponse)
    requires Inv(c, h) && m in c.voteResponses && m.to in c.nodes && m.reply.voteGranted
    requires c.nodes[m.to].role == Candidate && c.nodes[m.to].currentTerm == m.term >= m.reply.term
    ensures Inv(StepVoteResponse(c, m), VoteResponseHistory(h, c.nodes[m.to], m))
    ensures Grows(c, h, StepVoteResponse(c, m), VoteResponseHistory(h, c.nodes[m.to], m))
  {
    hide Inv, Broadcast, SetAll, LogsGrow;
    var s, c' := c.nodes[m.to], StepVoteResponse(c, m);
    CountKeeps(c, h, m);
    var c1, h1 := WithCount(c, m), RecordCount(h, m.to, m.term, m.from);
    CountGrows(c, h, m);
    if s.votesReceived + 1 >= Majority(s) {
      WinKeeps(c1, h1, m.to);
      WinGrows(c1, h1, m.to);
      var c2 := WithWin(c1, m.to);
      GrowsTransitive(c, h, c1, h1, c2, RecordWin(h1, c1.nodes[m.to]));
      SendKeeps(c2, RecordWin(h1, c1.nodes[m.to]), m.to);
      assert WithCalls(c2, m.to).nodes == c'.nodes;
      assert WithCalls(c2, m.to) == c';
    } else {
      assert c1 == c';
    }
  }

  lemma VoteResponseKeeps(c: Cluster, h: History, m: VoteResponse)
    requires Inv(c, h) && m in c.voteResponses && m.to in c.nodes
    ensures Inv(StepVoteResponse(c, m), VoteResponseHistory(h, c.nodes[m.to], m))
    ensures Grows(c, h, StepVoteResponse(c, m), VoteResponseHistory(h, c.nodes[m.to], m))
  {
    hide Inv;
    var s := c.nodes[m.to];
    if s.role == Candidate && s.currentTerm == m.term && m.reply.term <= s.currentTerm && m.reply.voteGranted {
      VoteCountedKeeps(c, h, m);
    } else {
      var c1 := c.(voteResponses := c.voteResponses - {m});
      DiscardKeeps(c, h, m);
      if s.role == Candidate && s.currentTerm == m.term && m.reply.term > s.currentTerm {
        BumpKeeps(c1, h, m.to, m.reply.term);
      } else {
        assert c1.nodes == StepVoteResponse(c, m).nodes;
      }
    }
  }

  function AppendRequestHistory(h: History, s: NodeState, m: AppendRequest): History {
    var o := Observe(s, m.args.term);
    if o.currentTerm == m.args.term && Consistent(o.log, m.args.prevLogIndex, m.args.prevLogTerm) then AckedBy(h, m) else h
  }

  lemma CallKnown(c: Cluster, h: History, m: AppendRequest)
    requires Inv(c, h) && m in c.appendRequests
    ensures AppendRequestOk(h, c.nodes.Keys, m)
  {
    hide Members, Elections, LogsRooted, AcksHeld, MatchesAcked, Commitment;
  }

  /** What the handler does to the node, before its answer joins the network. */
  lemma AppendHandled(c: Cluster, h: History, m: AppendRequest)
    requires Inv(c, h) && m in c.appendRequests && m.to in c.nodes
    ensures var c2 := WithNode(c, m.to, HandleAppendEntries(c.nodes[m.to], m.args).0);
            var h' := AppendRequestHistory(h, c.nodes[m.to], m);
            && Inv(c2, h') && Grows(c, h, c2, h')
            && (HandleAppendEntries(c.nodes[m.to], m.args).1.success ==> Ack(h', m.to, m.args.term) >= LastSent(m.args))
  {
    hide Inv;
    var s, s' := c.nodes[m.to], HandleAppendEntries(c.nodes[m.to], m.args).0;
    var o := Observe(s, m.args.term);
    var c1 := WithNode(c, m.to, o);
    ObserveKeeps(c, h, m.to, m.args.term);
    if o.currentTerm == m.args.term {
      if Consistent(o.log, m.args.prevLogIndex, m.args.prevLogTerm) {
        AcceptKeeps(c1, h, m);
      } else {
        FollowKeeps(c1, h, m);
      }
    }
    assert WithNode(c1, m.to, s').nodes == WithNode(c, m.to, s').nodes;
  }

  lemma AppendRequestKeeps(c: Cluster, h: History, m: AppendRequest)
    requires Inv(c, h) && m in c.appendRequests && m.to in c.nodes
    ensures Inv(StepAppendRequest(c, m), AppendRequestHistory(h, c.nodes[m.to], m))
    ensures Grows(c, h, StepAppendRequest(c, m), AppendRequestHistory(h, c.nodes[m.to], m))
  {
    hide Inv, HandleAppendEntries, AppendRequestHistory;
    CallKnown(c, h, m);
    var (s, reply) := HandleAppendEntries(c.nodes[m.to], m.args);
    AppendHandled(c, h, m);
    AnswerKeeps(WithNode(c, m.to, s), AppendRequestHistory(h, c.nodes[m.to], m),
      AppendResponse(m.to, m.from, m.args.term, m.args.prevLogIndex, |m.args.entries|, reply));
  }

  lemma AppendResponseKeeps(c: Cluster, h: History, m: AppendResponse)
    requires Inv(c, h) && m in c.appendResponses && m.to in c.nodes
    ensures Inv(StepAppendResponse(c, m), h)
    ensures Grows(c, h, StepAppendResponse(c, m), h)
  {
    hide Inv;
    var s := c.nodes[m.to];
    var s' := HandleAppendReply(s, m.from, m.term, m.prevIndex, m.count, m.reply);
    if s.role != Leader || s.currentTerm != m.term {
      assert WithNode(c, m.to, s').nodes == c.nodes;
    } else if m.reply.term > s.currentTerm {
      BumpKeeps(c, h, m.to, m.reply.term);
    } else if m.reply.success {
      MatchKeeps(c, h, m);
      var c1 := WithNode(c, m.to, RecordMatch(s, m.from, m.prevIndex, m.count));
      AdvanceKeeps(c1, h, m.to);
      assert WithNode(c1, m.to, s').nodes == WithNode(c, m.to, s').nodes;
    } else {
      BackOffKeeps(c, h, m.to, m.from);
    }
  }

  function SubmitHistory(h: History, s: NodeState, s': NodeState): History {
    if s.role == Leader then RecordSubmit(h, s') else h
  }

  lemma ClientSubmitKeeps(c: Cluster, h: History, n: int, key: seq<byte>, value: seq<byte>, tombstone: bool)
    requires Inv(c, h) && n in c.nodes
    ensures var s' := Submit(c.nodes[n], key, value, tombstone);
            Inv(StepSubmit(c, n, key, value, tombstone), SubmitHistory(h, c.nodes[n], s')) &&
            Grows(c, h, StepSubmit(c, n, key, value, tombstone), SubmitHistory(h, c.nodes[n], s'))
  {
    var s, s' := c.nodes[n], Submit(c.nodes[n], key, value, tombstone);
    var h' := SubmitHistory(h, s, s');
    if s.role == Leader {
      SubmitKeeps(c, h, n, key, value, tombstone);
      SubmitGrows(c, h, n, key, value, tombstone);
    } else {
      assert WithNode(c, n, s').nodes == c.nodes;
    }
    hide Inv;
    SendKeeps(WithNode(c, n, s'), h', n);
    assert WithCalls(WithNode(c, n, s'), n) == StepSubmit(c, n, key, value, tombstone);
  }

  lemma SubmitGrows(c: Cluster, h: History, n: int, key: seq<byte>, value: seq<byte>, tombstone: bool)
    requires Inv(c, h) && n in c.nodes && c.nodes[n].role == Leader
    ensures Grows(c, h, WithNode(c, n, Submit(c.nodes[n], key, value, tombstone)),
                  RecordSubmit(h, Submit(c.nodes[n], key, value, tombstone)))
  {
    hide VotesRecorded, VotesCounted, VoteMessages, LeadersElected, LogsRooted, AppendMessages, AcksHeld, MatchesAcked,
      Commitment;
    LeaderFacts(c, h, n);
    assert KnowsPeers(c.nodes[n], n, c.nodes.Keys);
    SubmitEvolves(c, h, n, Submit(c.nodes[n], key, value, tombstone));
  }

  // ---------- Runs ----------

  ghost function NextHistory(c: Cluster, h: History, a: Action): History
    requires Enabled(c, a)
  {
    match a
    case Timeout(n) => TimeoutHistory(h, c.nodes[n])
    case DeliverVoteRequest(m) => VoteRequestHistory(h, c.nodes[m.to], m)
    case DeliverVoteResponse(m) => VoteResponseHistory(h, c.nodes[m.to], m)
    case Heartbeat(n) => h
    case DeliverAppendRequest(m) => AppendRequestHistory(h, c.nodes[m.to], m)
    case DeliverAppendResponse(m) => h
    case ClientSubmit(n, key, value, tombstone) =>
      SubmitHistory(h, c.nodes[n], Submit(c.nodes[n], key, value, tombstone))
  }

  lemma StepKeeps(c: Cluster, h: History, a: Action)
    requires Inv(c, h) && Enabled(c, a)
    ensures Inv(Step(c, a), NextHistory(c, h, a)) && Grows(c, h, Step(c, a), NextHistory(c, h, a))
  {
    hide Inv;
    match a
    case Timeout(n) => TimeoutKeeps(c, h, n);
    case DeliverVoteRequest(m) => VoteRequestKeeps(c, h, m);
    case DeliverVoteResponse(m) => VoteResponseKeeps(c, h, m);
    case Heartbeat(n) =>
      SendKeeps(c, h, n);
      assert WithCalls(c, n) == Step(c, a) by {
        assert WithCalls(c, n).nodes == Step(c, a).nodes;
      }
    case DeliverAppendRequest(m) => AppendRequestKeeps(c, h, m);
    case DeliverAppendResponse(m) => AppendResponseKeeps(c, h, m);
    case ClientSubmit(n, key, value, tombstone) => ClientSubmitKeeps(c, h, n, key, value, tombstone);
  }

  lemma InitialInv(c: Cluster)
    requires Initial(c)
    ensures Inv(c, NO_HISTORY)
  {
    assert Elections(c, NO_HISTORY) && Replication(c, NO_HISTORY);
    assert CommitsSafe(c, NO_HISTORY);
    forall t: nat, i: nat
      ensures !Committable(c, NO_HISTORY, t, i)
    {
    }
  }

  /** The history of the run when it reaches state `k`. */
  ghost function HistoryAt(run: seq<Cluster>, acts: seq<Action>, k: nat): History
    requires Behaves(run, acts) && k < |run|
  {
    if k == 0 then NO_HISTORY else NextHistory(run[k - 1], HistoryAt(run, acts, k - 1), acts[k - 1])
  }

  lemma {:induction false} RunInv(run: seq<Cluster>, acts: seq<Action>, k: nat)
    requires Behaves(run, acts) && k < |run|
    ensures Inv(run[k], HistoryAt(run, acts, k))
  {
    hide Inv, NextHistory, Step, Enabled, Initial;
    if k == 0 {
      InitialInv(run[0]);
    } else {
      RunInv(run, acts, k - 1);
      StepKeeps(run[k - 1], HistoryAt(run, acts, k - 1), acts[k - 1]);
    }
  }

  lemma {:induction false} RunGrows(run: seq<Cluster>, acts: seq<Action>, i: nat, j: nat)
    requires Behaves(run, acts) && i <= j < |run|
    ensures Grows(run[i], HistoryAt(run, acts, i), run[j], HistoryAt(run, acts, j))
  {
    hide Inv, Grows, NextHistory, Step, Enabled, Initial;
    if i == j {
      GrowsReflexive(run[i], HistoryAt(run, acts, i));
    } else {
      RunGrows(run, acts, i, j - 1);
      RunInv(run, acts, j - 1);
      StepKeeps(run[j - 1], HistoryAt(run, acts, j - 1), acts[j - 1]);
      GrowsTransitive(run[i], HistoryAt(run, acts, i), run[j - 1], HistoryAt(run, acts, j - 1),
        run[j], HistoryAt(run, acts, j));
    }
  }
}
