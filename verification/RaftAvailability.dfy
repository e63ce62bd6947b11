/**
 * What a majority can always still do: from every reachable state, whatever was lost or delayed before, and without a
 * step of any other node, it can elect a leader, repair its logs, and commit and apply a command.
 */
module RaftAvailability {
  import opened Bytes
  import opened RaftTypes
  import opened RaftHandlers
  import opened RaftCluster
  import opened RaftInvariants
  import opened RaftReplicationSteps
  import opened RaftRuns
  import opened RaftSafety
  import opened RaftExact
  import RaftLeaderSteps
  import opened Quorum

  // ---------- Paths ----------

  ghost predicate PathBy(run: seq<Cluster>, acts: seq<Action>, c: Cluster, c': Cluster, q: set<int>) {
    && |run| == |acts| + 1 && run[0] == c && run[|run| - 1] == c'
    && forall k :: 0 <= k < |acts| ==>
         Enabled(run[k], acts[k]) && run[k + 1] == Step(run[k], acts[k]) && Actor(acts[k]) in q
  }

  /** Steps of nodes of `q` alone lead from `c` to `c'`. */
  ghost predicate Path(c: Cluster, c': Cluster, q: set<int>) {
    exists run, acts :: PathBy(run, acts, c, c', q)
  }

  lemma PathNext(b: Cluster, c: Cluster, q: set<int>, a: Action)
    requires Path(b, c, q) && Enabled(c, a) && Actor(a) in q
    ensures Path(b, Step(c, a), q)
  {
    hide Step, Enabled, Actor;
    var run, acts :| PathBy(run, acts, b, c, q);
    var run', acts' := run + [Step(c, a)], acts + [a];
    forall k | 0 <= k < |acts'|
      ensures Enabled(run'[k], acts'[k]) && run'[k + 1] == Step(run'[k], acts'[k]) && Actor(acts'[k]) in q
    {
      if k < |acts| {
        assert Enabled(run[k], acts[k]) && run[k + 1] == Step(run[k], acts[k]) && Actor(acts[k]) in q;
      }
    }
    assert PathBy(run', acts', b, Step(c, a), q);
  }

  lemma {:induction false} PathOutside(run: seq<Cluster>, acts: seq<Action>, c: Cluster, c': Cluster, q: set<int>, k: nat)
    requires PathBy(run, acts, c, c', q) && k < |run|
    ensures run[k].nodes.Keys == c.nodes.Keys
    ensures forall m | m in c.nodes && m !in q :: run[k].nodes[m] == c.nodes[m]
  {
    hide Step, Enabled, Actor;
    if k > 0 {
      PathOutside(run, acts, c, c', q, k - 1);
      assert Enabled(run[k - 1], acts[k - 1]) && run[k] == Step(run[k - 1], acts[k - 1]) && Actor(acts[k - 1]) in q;
      OthersStay(run[k - 1], acts[k - 1]);
    }
  }

  /** Every node outside `q` is left as it was. */
  lemma OutsideStays(c: Cluster, c': Cluster, q: set<int>)
    requires Path(c, c', q)
    ensures c'.nodes.Keys == c.nodes.Keys && forall m | m in c.nodes && m !in q :: c'.nodes[m] == c.nodes[m]
  {
    hide PathBy;
    var run, acts :| PathBy(run, acts, c, c', q);
    assert |run| > 0 && run[|run| - 1] == c' by { PathEnds(run, acts, c, c', q); }
    PathOutside(run, acts, c, c', q, |run| - 1);
  }

  lemma PathEnds(run: seq<Cluster>, acts: seq<Action>, c: Cluster, c': Cluster, q: set<int>)
    requires PathBy(run, acts, c, c', q)
    ensures |run| > 0 && run[|run| - 1] == c'
  {
  }

  /** A reachable state on a path of `q` from `b`. */
  ghost predicate On(b: Cluster, c: Cluster, q: set<int>) {
    Reachable(c) && Path(b, c, q) && c.nodes.Keys == b.nodes.Keys && q <= c.nodes.Keys
  }

  lemma OnStart(b: Cluster, q: set<int>)
    requires Reachable(b) && q <= b.nodes.Keys
    ensures On(b, b, q)
  {
    hide Reachable;
    assert PathBy([b], [], b, b, q);
  }

  lemma OnNext(b: Cluster, c: Cluster, q: set<int>, a: Action)
    requires On(b, c, q) && Enabled(c, a) && Actor(a) in q
    ensures On(b, Step(c, a), q)
  {
    hide Step, Enabled, Actor, Reachable, Path;
    ReachableNext(c, a);
    PathNext(b, c, q, a);
    OthersStay(c, a);
  }

  // ---------- Logs in one state ----------

  /** A log that ends in `a` may be elected by a node whose log ends in `b`. */
  predicate NoStaler(a: Log, b: Log) {
    a[|a| - 1].term > b[|b| - 1].term || (a[|a| - 1].term == b[|b| - 1].term && |a| >= |b|)
  }

  /** Where two logs have the same term they are the same up to there; they always are at index 0. */
  lemma SameThrough(c: Cluster, n: int, p: int, k: nat)
    requires Reachable(c) && n in c.nodes && p in c.nodes && k < |c.nodes[n].log| && k < |c.nodes[p].log|
    ensures c.nodes[n].log[k].term == c.nodes[p].log[k].term ==> c.nodes[n].log[..k + 1] == c.nodes[p].log[..k + 1]
    ensures c.nodes[n].log[0] == c.nodes[p].log[0]
  {
    hide Inv;
    var h := Known(c);
    LogNow(c, h, n);
    LogNow(c, h, p);
    if c.nodes[n].log[k].term == c.nodes[p].log[k].term {
      TermsMatch(h, c.nodes[n].log, c.nodes[p].log, k);
    }
  }

  lemma LeaderRecords(c: Cluster, n: int, p: int, t: nat)
    requires Reachable(c) && Leads(c, n, t) && p in c.nodes && p != n
    ensures p in c.nodes[n].nextIndex && p in c.nodes[n].matchIndex && 1 <= c.nodes[n].nextIndex[p] <= |c.nodes[n].log|
    ensures c.nodes[n].commitIndex < |c.nodes[n].log|
  {
    hide Inv, Reachable;
    PeersAre(c, n);
    var h := Known(c);
    MemberNow(c, h, n);
    AppliedNow(c, h, n);
  }

  // ---------- An election ----------

  function RequestOf(n: int, p: int, t: nat, log: Log): VoteRequest {
    VoteRequest(n, p, RequestVoteArgs(t, n, |log| - 1, log[|log| - 1].term))
  }

  /** A voter that can be won over. */
  predicate Willing(c: Cluster, n: int, p: int, t: nat, log: Log) {
    && p in c.nodes && p != n && NoStaler(log, c.nodes[p].log)
    && c.nodes[p].currentTerm < t && RequestOf(n, p, t, log) in c.voteRequests
  }

  /** Node `n` stands in term `t` with the votes of the first `k` of `ps`; the others can be won over. */
  ghost predicate Standing(c: Cluster, n: int, t: nat, log: Log, ps: seq<int>, k: nat) {
    && n in c.nodes && c.nodes[n].role == Candidate && c.nodes[n].currentTerm == t && c.nodes[n].log == log
    && k <= |ps| && c.nodes[n].votesReceived == 1 + k && Distinct(ps)
    && (forall x | 0 <= x < k :: ps[x] in c.nodes && ps[x] != n && c.nodes[ps[x]].currentTerm <= t)
    && (forall x | k <= x < |ps| :: Willing(c, n, ps[x], t, log))
  }

  /** Node `n` leads term `t`, and none of `ps` is past it. */
  ghost predicate Serving(c: Cluster, n: int, t: nat, log: Log, ps: seq<int>) {
    && Leads(c, n, t) && c.nodes[n].log == log
    && forall x | 0 <= x < |ps| :: ps[x] in c.nodes && ps[x] != n && c.nodes[ps[x]].currentTerm <= t
  }

  predicate AllIn(ps: seq<int>, q: set<int>) {
    forall x | 0 <= x < |ps| :: ps[x] in q
  }

  lemma NextVote(b: Cluster, c: Cluster, q: set<int>, n: int, t: nat, log: Log, ps: seq<int>, k: nat)
    returns (c': Cluster)
    requires On(b, c, q) && Standing(c, n, t, log, ps, k) && k < |ps| && n in q && AllIn(ps, q)
    ensures On(b, c', q) && (Serving(c', n, t, log, ps) || Standing(c', n, t, log, ps, k + 1))
  {
    hide On, Step, NoStaler;
    assert Reachable(c) by { OnFacts(b, c, q); }
    var p := ps[k];
    assert Willing(c, n, p, t, log);
    var m := RequestOf(n, p, t, log);
    var a := DeliverVoteRequest(m);
    var r := VoteAnswered(c, m);
    var c1 := Step(c, a);
    OthersStay(c, a);
    OnNext(b, c, q, a);
    assert r.reply.voteGranted by { WillingVotes(log, c.nodes[p].log); }
    assert Reachable(c1) by { OnFacts(b, c1, q); }
    VoteCounted(c1, r);
    var a' := DeliverVoteResponse(r);
    c' := Step(c1, a');
    OthersStay(c1, a');
    OnNext(b, c1, q, a');
    forall x | k < x < |ps|
      ensures Willing(c', n, ps[x], t, log)
    {
      assert Willing(c, n, ps[x], t, log);
    }
  }

  lemma OnFacts(b: Cluster, c: Cluster, q: set<int>)
    requires On(b, c, q)
    ensures Reachable(c) && c.nodes.Keys == b.nodes.Keys && q <= c.nodes.Keys
  {
  }

  lemma WillingVotes(a: Log, b: Log)
    requires NoStaler(a, b)
    ensures a[|a| - 1].term > b[|b| - 1].term || (a[|a| - 1].term == b[|b| - 1].term && |a| - 1 >= |b| - 1)
  {
  }

  /** With voters enough for a majority, the election is won before they are all asked or when they are. */
  lemma {:induction false} Win(b: Cluster, c: Cluster, q: set<int>, n: int, t: nat, log: Log, ps: seq<int>, k: nat)
    returns (c': Cluster)
    requires On(b, c, q) && Standing(c, n, t, log, ps, k) && n in q && AllIn(ps, q)
    requires 2 * (1 + |ps|) > |b.nodes.Keys|
    ensures On(b, c', q) && Serving(c', n, t, log, ps)
    decreases |ps| - k
  {
    hide On, Serving, Willing;
    OnFacts(b, c, q);
    CandidateBound(c, n);
    c' := NextVote(b, c, q, n, t, log, ps, k);
    if !Serving(c', n, t, log, ps) {
      c' := Win(b, c', q, n, t, log, ps, k + 1);
    }
  }

  /** Node `n` may stand with `ps` as its voters: its term is not behind theirs and neither is its log. */
  ghost predicate Ready(c: Cluster, n: int, ps: seq<int>) {
    && n in c.nodes && c.nodes[n].role != Leader && Distinct(ps)
    && forall x | 0 <= x < |ps| ::
         && ps[x] in c.nodes && ps[x] != n
         && c.nodes[ps[x]].currentTerm <= c.nodes[n].currentTerm && NoStaler(c.nodes[n].log, c.nodes[ps[x]].log)
  }

  lemma Elect(b: Cluster, c: Cluster, q: set<int>, n: int, ps: seq<int>) returns (c': Cluster)
    requires On(b, c, q) && Ready(c, n, ps) && n in q && AllIn(ps, q)
    requires 2 * (1 + |ps|) > |b.nodes.Keys| >= 2
    ensures On(b, c', q) && Serving(c', n, c.nodes[n].currentTerm + 1, c.nodes[n].log, ps)
  {
    hide On, Step, NoStaler;
    OnFacts(b, c, q);
    var a, t, log := Timeout(n), c.nodes[n].currentTerm + 1, c.nodes[n].log;
    ElectionCalled(c, n);
    OthersStay(c, a);
    OnNext(b, c, q, a);
    var c1 := Step(c, a);
    forall x | 0 <= x < |ps|
      ensures Willing(c1, n, ps[x], t, log)
    {
      assert RequestOf(n, ps[x], t, log) in c1.voteRequests;
    }
    c' := Win(b, c1, q, n, t, log, ps, 0);
  }

  // ---------- Repairing a log ----------

  /** Peer `p` has the leader's whole log, and the leader knows it. */
  predicate Repaired(c: Cluster, n: int, p: int, log: Log, commit: nat) {
    && n in c.nodes && p in c.nodes && p in c.nodes[n].matchIndex && c.nodes[n].matchIndex[p] == |log| - 1
    && log <= c.nodes[p].log && c.nodes[p].commitIndex >= commit
  }

  /** Whatever is decided is committed. */
  ghost predicate UpToCommit(c: Cluster, n: int) {
    n in c.nodes &&
    forall i | 0 <= i < |c.nodes[n].log| && Decided(c.nodes[n], i, |c.nodes.Keys|) :: i <= c.nodes[n].commitIndex
  }

  /** Nothing the leader knows of another peer than `p` is lost, nor is any node but the two touched. */
  ghost predicate OnlyAbout(c: Cluster, c': Cluster, n: int, p: int) {
    && c'.nodes.Keys == c.nodes.Keys && n in c.nodes
    && c'.nodes[n].commitIndex >= c.nodes[n].commitIndex
    && (forall r | r in c.nodes && r != n && r != p :: c'.nodes[r] == c.nodes[r])
    && (forall r | r in c.nodes[n].matchIndex && r != p ::
          r in c'.nodes[n].matchIndex && c'.nodes[n].matchIndex[r] == c.nodes[n].matchIndex[r])
  }

  function CallTo(c: Cluster, n: int, p: int): AppendRequest
    requires n in c.nodes && p in c.nodes[n].nextIndex && 1 <= c.nodes[n].nextIndex[p] <= |c.nodes[n].log|
  {
    var s, next := c.nodes[n], c.nodes[n].nextIndex[p];
    AppendRequest(n, p, AppendEntriesArgs(s.currentTerm, n, next - 1, s.log[next - 1].term, s.log[next..], s.commitIndex))
  }

  /** The leader calls the peer; `c2` is the state in which the peer has answered with `r`. */
  lemma Call(b: Cluster, c: Cluster, q: set<int>, n: int, p: int, t: nat) returns (c2: Cluster, r: AppendResponse)
    requires On(b, c, q) && Leads(c, n, t) && n in q && p in q && p != n && p in c.nodes
    requires p in c.nodes[n].nextIndex && 1 <= c.nodes[n].nextIndex[p] <= |c.nodes[n].log|
    ensures On(b, c2, q) && c2.nodes.Keys == c.nodes.Keys && r in c2.appendResponses
    ensures forall x | x in c.nodes && x != p :: c2.nodes[x] == c.nodes[x]
    ensures r.from == p && r.to == n && r.term == t
    ensures r.prevIndex == c.nodes[n].nextIndex[p] - 1 && r.prevIndex + r.count == |c.nodes[n].log| - 1
    ensures r.reply.term == c2.nodes[p].currentTerm
    ensures c.nodes[p].currentTerm > t ==>
              !r.reply.success && c2.nodes[p].log == c.nodes[p].log && r.reply.term > t
    ensures c.nodes[p].currentTerm <= t ==> c2.nodes[p].currentTerm == t && c2.nodes[p].role == Follower
    ensures r.reply.success ==> c.nodes[n].log <= c2.nodes[p].log
    ensures r.reply.success ==> c2.nodes[p].log == c.nodes[p].log || c2.nodes[p].log == c.nodes[n].log
    ensures r.reply.success ==> c2.nodes[p].commitIndex >= c.nodes[n].commitIndex
    ensures !r.reply.success ==> c2.nodes[p].log == c.nodes[p].log && c2.nodes[p].commitIndex == c.nodes[p].commitIndex
    ensures !r.reply.success && c.nodes[p].currentTerm <= t ==> c.nodes[n].nextIndex[p] > 1
  {
    hide On, Step;
    OnFacts(b, c, q);
    HeartbeatSends(c, n);
    OnNext(b, c, q, Heartbeat(n));
    var c1 := Step(c, Heartbeat(n));
    OnFacts(b, c1, q);
    var m := CallTo(c, n, p);
    assert Sent(c1, n, p);
    assert m in c1.appendRequests;
    var prev := m.args.prevLogIndex;
    if prev < |c.nodes[p].log| {
      SameThrough(c, n, p, prev);
    }
    SameThrough(c, n, p, 0);
    r := CallAnswered(c1, m);
    var a := DeliverAppendRequest(m);
    OthersStay(c1, a);
    OnNext(b, c1, q, a);
    c2 := Step(c1, a);
    if r.reply.success {
      BehindPrefix(c.nodes[n].log, c.nodes[p].log, prev, c2.nodes[p].log);
    }
  }

  lemma BehindPrefix(whole: Log, log: Log, prev: nat, merged: Log)
    requires prev < |log| && prev < |whole| && whole[..prev + 1] == log[..prev + 1]
    requires var entries := whole[prev + 1..];
             merged == if Holds(log, prev, entries) then log else log[..prev + 1] + entries
    ensures whole <= merged && (merged == log || merged == whole)
  {
    assert whole == whole[..prev + 1] + whole[prev + 1..];
    if Holds(log, prev, whole[prev + 1..]) {
      assert log[..|whole|] == log[..prev + 1] + log[prev + 1..|whole|];
    }
  }

  /** One call after another until the peer has the leader's log. */
  lemma {:induction false} Repair(b: Cluster, c: Cluster, q: set<int>, n: int, t: nat, log: Log, ps: seq<int>, x: nat)
    returns (c': Cluster)
    requires On(b, c, q) && Serving(c, n, t, log, ps) && n in q && AllIn(ps, q) && x < |ps|
    requires ps[x] in c.nodes[n].nextIndex
    ensures On(b, c', q) && Serving(c', n, t, log, ps) && OnlyAbout(c, c', n, ps[x])
    ensures Repaired(c', n, ps[x], log, c.nodes[n].commitIndex) && UpToCommit(c', n)
    decreases c.nodes[n].nextIndex[ps[x]]
  {
    hide On, Step, Decided;
    OnFacts(b, c, q);
    var p := ps[x];
    assert p in q && p in c.nodes && p != n;
    LeaderRecords(c, n, p, t);
    var c2, r := Call(b, c, q, n, p, t);
    OnFacts(b, c2, q);
    var a := DeliverAppendResponse(r);
    AnswerCounted(c2, r);
    OthersStay(c2, a);
    OnNext(b, c2, q, a);
    c' := Step(c2, a);
    assert Serving(c', n, t, log, ps);
    if !r.reply.success {
      var c3 := c';
      assert OnlyAbout(c, c3, n, p);
      c' := Repair(b, c3, q, n, t, log, ps, x);
    }
  }

  /** The first `k` of `ps` are repaired. */
  ghost predicate RepairedFirst(c: Cluster, n: int, ps: seq<int>, log: Log, commit: nat, k: nat) {
    k <= |ps| && n in c.nodes && c.nodes[n].commitIndex >= commit
    && forall x | 0 <= x < k :: Repaired(c, n, ps[x], log, commit)
  }

  lemma {:induction false} RepairAll(b: Cluster, c: Cluster, q: set<int>, n: int, t: nat, log: Log, ps: seq<int>,
                                     commit: nat, k: nat) returns (c': Cluster)
    requires On(b, c, q) && Serving(c, n, t, log, ps) && n in q && AllIn(ps, q) && Distinct(ps)
    requires RepairedFirst(c, n, ps, log, commit, k) && (k > 0 ==> UpToCommit(c, n))
    ensures On(b, c', q) && Serving(c', n, t, log, ps) && RepairedFirst(c', n, ps, log, commit, |ps|)
    ensures |ps| > 0 ==> UpToCommit(c', n)
    decreases |ps| - k
  {
    hide On, Decided, Path, UpToCommit;
    c' := c;
    if k < |ps| {
      OnFacts(b, c, q);
      LeaderRecords(c, n, ps[k], t);
      var c1 := Repair(b, c, q, n, t, log, ps, k);
      forall x | 0 <= x <= k
        ensures Repaired(c1, n, ps[x], log, commit)
      {
        if x < k {
          assert Repaired(c, n, ps[x], log, commit) && ps[x] != ps[k];
        }
      }
      c' := RepairAll(b, c1, q, n, t, log, ps, commit, k + 1);
    }
  }

  lemma Covers(a: set<int>, ps: seq<int>)
    requires Distinct(ps) && forall x | 0 <= x < |ps| :: ps[x] in a
    ensures |a| >= |ps|
  {
    var members := set p | p in ps;
    RaftLeaderSteps.DistinctSize(ps);
    SubsetCard(members, a);
  }

  /** With a majority repaired, the leader's last entry is committed, if it is of the leader's own term. */
  lemma LastCommitted(c: Cluster, n: int, t: nat, log: Log, ps: seq<int>, commit: nat)
    requires Reachable(c) && Serving(c, n, t, log, ps) && RepairedFirst(c, n, ps, log, commit, |ps|) && UpToCommit(c, n)
    requires Distinct(ps) && 2 * (1 + |ps|) > |c.nodes.Keys| && log[|log| - 1].term == t
    ensures c.nodes[n].commitIndex >= |log| - 1
  {
    hide Reachable;
    PeersAre(c, n);
    var s, last := c.nodes[n], |log| - 1;
    forall x | 0 <= x < |ps|
      ensures ps[x] in Matching(s, last)
    {
      assert Repaired(c, n, ps[x], log, commit);
    }
    Covers(Matching(s, last), ps);
    assert Decided(s, last, |c.nodes.Keys|);
  }

  /** Node `p` has applied the command as the `i`-th, in term `t`. */
  predicate HasApplied(c: Cluster, p: int, i: nat, t: nat, key: seq<byte>, value: seq<byte>, tombstone: bool) {
    && p in c.nodes && 0 < i <= |c.nodes[p].applied|
    && c.nodes[p].applied[i - 1] == ApplyMsg(i, t, key, value, tombstone)
  }

  lemma AppliedIn(c: Cluster, p: int, log: Log, key: seq<byte>, value: seq<byte>, tombstone: bool)
    requires Reachable(c) && p in c.nodes && |log| > 1 && log <= c.nodes[p].log && c.nodes[p].commitIndex >= |log| - 1
    requires var e := log[|log| - 1]; e.key == key && e.value == value && e.tombstone == tombstone
    ensures HasApplied(c, p, |log| - 1, log[|log| - 1].term, key, value, tombstone)
  {
    hide Behaves;
    var run, acts :| Ends(run, acts, c);
    RunLength(run, acts);
    AppliedIsLog(run, acts, |run| - 1, p);
    assert c.nodes[p].log[|log| - 1] == log[|log| - 1];
  }

  /** A node that is ready is elected, takes the command, commits it, and all of its voters apply it. */
  lemma Serve(b: Cluster, c: Cluster, q: set<int>, n: int, ps: seq<int>, key: seq<byte>, value: seq<byte>, tombstone: bool)
    returns (c': Cluster)
    requires On(b, c, q) && Ready(c, n, ps) && n in q && AllIn(ps, q)
    requires 2 * (1 + |ps|) > |b.nodes.Keys| >= 2
    ensures var t, i := c.nodes[n].currentTerm + 1, |c.nodes[n].log|;
            && On(b, c', q) && Leads(c', n, t)
            && c'.nodes[n].log == c.nodes[n].log + [LogEntry(i, t, key, value, tombstone)]
            && c'.nodes[n].commitIndex == i && HasApplied(c', n, i, t, key, value, tombstone)
            && forall x | 0 <= x < |ps| :: HasApplied(c', ps[x], i, t, key, value, tombstone)
  {
    hide On, Step, Path, UpToCommit, HasApplied;
    var t, i := c.nodes[n].currentTerm + 1, |c.nodes[n].log|;
    var c1 := Elect(b, c, q, n, ps);
    OnFacts(b, c1, q);
    var a := ClientSubmit(n, key, value, tombstone);
    CommandTaken(c1, n, key, value, tombstone);
    OthersStay(c1, a);
    OnNext(b, c1, q, a);
    var c2 := Step(c1, a);
    var log: Log := c.nodes[n].log + [LogEntry(i, t, key, value, tombstone)];
    assert Serving(c2, n, t, log, ps);
    var c3 := RepairAll(b, c2, q, n, t, log, ps, 0, 0);
    OnFacts(b, c3, q);
    LastCommitted(c3, n, t, log, ps, 0);
    c' := RepairAll(b, c3, q, n, t, log, ps, i, 0);
    OnFacts(b, c', q);
    LeaderRecords(c', n, ps[0], t);
    AppliedIn(c', n, log, key, value, tombstone);
    forall x | 0 <= x < |ps|
      ensures HasApplied(c', ps[x], i, t, key, value, tombstone)
    {
      assert Repaired(c', n, ps[x], log, i);
      AppliedIn(c', ps[x], log, key, value, tombstone);
    }
  }

  // ---------- Getting ready ----------

  /** Standing again and again takes a node to any term. */
  lemma {:induction false} Climb(b: Cluster, c: Cluster, q: set<int>, n: int, t: nat) returns (c': Cluster)
    requires On(b, c, q) && n in q && n in c.nodes && c.nodes[n].role != Leader && |b.nodes.Keys| >= 2
    ensures On(b, c', q) && c'.nodes.Keys == c.nodes.Keys
    ensures c'.nodes[n].role != Leader && c'.nodes[n].currentTerm >= t && c'.nodes[n].log == c.nodes[n].log
    ensures forall m | m in c.nodes && m != n :: c'.nodes[m] == c.nodes[m]
    decreases if c.nodes[n].currentTerm >= t then 0 else t - c.nodes[n].currentTerm
  {
    hide On, Step;
    c' := c;
    if c.nodes[n].currentTerm < t {
      OnFacts(b, c, q);
      var a := Timeout(n);
      ElectionCalled(c, n);
      OthersStay(c, a);
      OnNext(b, c, q, a);
      c' := Climb(b, Step(c, a), q, n, t);
    }
  }

  /** No log of `q` is ahead of that of `n`. */
  ghost predicate Foremost(c: Cluster, n: int, q: set<int>) {
    n in q && q <= c.nodes.Keys && forall r | r in q :: NoStaler(c.nodes[n].log, c.nodes[r].log)
  }

  /** A leader can be made to stand down: it hears of a later term, or of one that another node then calls. */
  lemma StandDown(b: Cluster, c: Cluster, q: set<int>, n: int, p: int) returns (c': Cluster)
    requires On(b, c, q) && Foremost(c, n, q) && c.nodes[n].role == Leader && p in q && p != n
    ensures On(b, c', q) && Foremost(c', n, q) && c'.nodes[n].role != Leader && c'.nodes[n].log == c.nodes[n].log
  {
    hide On, Step;
    OnFacts(b, c, q);
    var t := c.nodes[n].currentTerm;
    LeaderRecords(c, n, p, t);
    var c2, r := Call(b, c, q, n, p, t);
    OnFacts(b, c2, q);
    assert Foremost(c2, n, q);
    if c.nodes[p].currentTerm > t {
      var a := DeliverAppendResponse(r);
      AnswerCounted(c2, r);
      OthersStay(c2, a);
      OnNext(b, c2, q, a);
      c' := Step(c2, a);
      assert forall m | m in q && m != n :: c'.nodes[m].log == c2.nodes[m].log;
    } else {
      c' := Depose(b, c2, q, n, p, t);
    }
  }

  lemma Depose(b: Cluster, c: Cluster, q: set<int>, n: int, p: int, t: nat) returns (c': Cluster)
    requires On(b, c, q) && Foremost(c, n, q) && Leads(c, n, t) && p in q && p != n
    requires c.nodes[p].role == Follower && c.nodes[p].currentTerm == t
    ensures On(b, c', q) && Foremost(c', n, q) && c'.nodes[n].role != Leader && c'.nodes[n].log == c.nodes[n].log
  {
    hide On, Step, NoStaler, Reachable;
    OnFacts(b, c, q);
    var a := Timeout(p);
    ElectionCalled(c, p);
    OthersStay(c, a);
    OnNext(b, c, q, a);
    var c1 := Step(c, a);
    OnFacts(b, c1, q);
    var log := c.nodes[p].log;
    var m := VoteRequest(p, n, RequestVoteArgs(t + 1, p, |log| - 1, log[|log| - 1].term));
    var a' := DeliverVoteRequest(m);
    var r := VoteAnswered(c1, m);
    OthersStay(c1, a');
    OnNext(b, c1, q, a');
    c' := Step(c1, a');
    assert forall x | x in q :: c'.nodes[x].log == c.nodes[x].log;
  }

  lemma {:induction false} TermBound(c: Cluster, q: set<int>) returns (t: nat)
    requires q <= c.nodes.Keys
    ensures forall r | r in q :: c.nodes[r].currentTerm <= t
    decreases |q|
  {
    t := 0;
    if |q| > 0 {
      var x := AnyOf(q);
      t := TermBound(c, q - {x});
      if c.nodes[x].currentTerm > t {
        t := c.nodes[x].currentTerm;
      }
    }
  }

  lemma AnyOf(q: set<int>) returns (n: int)
    requires |q| > 0
    ensures n in q
  {
    assert exists i: int :: i in q by {
      if forall i: int :: i !in q {
        assert false;
      }
    }
    n :| n in q;
  }

  lemma {:induction false} Listed(q: set<int>) returns (ps: seq<int>)
    ensures Distinct(ps) && |ps| == |q| && forall p :: p in ps <==> p in q
    decreases |q|
  {
    ps := [];
    if |q| > 0 {
      var x := AnyOf(q);
      var rest := Listed(q - {x});
      ps := rest + [x];
    }
  }

  lemma NoStalerTotal(a: Log, b: Log, c: Log)
    ensures NoStaler(a, b) || NoStaler(b, a)
    ensures NoStaler(a, b) && NoStaler(b, c) ==> NoStaler(a, c)
  {
  }

  /** Among any nodes there is one whose log is not behind that of any other. */
  lemma {:induction false} ForemostOf(c: Cluster, q: set<int>) returns (n: int)
    requires q <= c.nodes.Keys && |q| > 0
    ensures Foremost(c, n, q)
    decreases |q|
  {
    n := AnyOf(q);
    var rest := q - {n};
    if |rest| > 0 {
      var m := ForemostOf(c, rest);
      var a, b := c.nodes[n].log, c.nodes[m].log;
      NoStalerTotal(a, b, a);
      forall r | r in q
        ensures NoStaler(a, b) ==> NoStaler(a, c.nodes[r].log)
        ensures NoStaler(b, a) ==> NoStaler(b, c.nodes[r].log)
      {
        NoStalerTotal(a, b, c.nodes[r].log);
      }
      if !NoStaler(a, b) {
        n := m;
      }
    } else {
      assert rest == {} && q == {n};
    }
  }

  lemma MakeReady(b: Cluster, c: Cluster, q: set<int>, n: int) returns (c': Cluster)
    requires On(b, c, q) && Foremost(c, n, q) && |q| >= 2 && |b.nodes.Keys| >= 2
    ensures On(b, c', q) && Foremost(c', n, q) && c'.nodes[n].role != Leader && c'.nodes[n].log == c.nodes[n].log
    ensures forall r | r in q :: c'.nodes[r].currentTerm <= c'.nodes[n].currentTerm
  {
    hide On;
    var c1 := c;
    if c.nodes[n].role == Leader {
      var others := q - {n};
      var p := AnyOf(others);
      c1 := StandDown(b, c, q, n, p);
    }
    var t := TermBound(c1, q);
    c' := Climb(b, c1, q, n, t);
  }

  /**
   * From every reachable state, for every majority of a cluster of two or more and every member whose log is not
   * behind another member's: steps of the majority alone lead to a state in which that node leads, has appended the
   * command to its log, and every member has applied it. No other node has changed.
   */
  lemma Available(c: Cluster, q: set<int>, n: int, key: seq<byte>, value: seq<byte>, tombstone: bool)
    returns (c': Cluster, t: nat)
    requires Reachable(c) && Foremost(c, n, q) && 2 * |q| > |c.nodes.Keys| >= 2
    ensures Path(c, c', q) && Leads(c', n, t)
    ensures c'.nodes[n].log == c.nodes[n].log + [LogEntry(|c.nodes[n].log|, t, key, value, tombstone)]
    ensures forall p | p in q :: HasApplied(c', p, |c.nodes[n].log|, t, key, value, tombstone)
    ensures forall m | m in c.nodes && m !in q :: m in c'.nodes && c'.nodes[m] == c.nodes[m]
  {
    hide Reachable, Path, HasApplied, NoStaler;
    OnStart(c, q);
    var c1 := MakeReady(c, c, q, n);
    var ps := Listed(q - {n});
    forall x | 0 <= x < |ps|
      ensures ps[x] in q && ps[x] != n
    {
      assert ps[x] in ps;
    }
    c' := Serve(c, c1, q, n, ps, key, value, tombstone);
    t := c1.nodes[n].currentTerm + 1;
    OutsideStays(c, c', q);
    forall p | p in q
      ensures HasApplied(c', p, |c.nodes[n].log|, t, key, value, tombstone)
    {
      if p != n {
        assert p in ps;
        var x :| 0 <= x < |ps| && ps[x] == p;
      }
    }
  }

  /** So every majority has a member that can serve it, whatever happened before. */
  lemma MajorityServes(c: Cluster, q: set<int>, key: seq<byte>, value: seq<byte>, tombstone: bool)
    returns (n: int, c': Cluster, t: nat)
    requires Reachable(c) && q <= c.nodes.Keys && 2 * |q| > |c.nodes.Keys| >= 2
    ensures n in q && n in c.nodes && Path(c, c', q) && Leads(c', n, t)
    ensures c'.nodes[n].log == c.nodes[n].log + [LogEntry(|c.nodes[n].log|, t, key, value, tombstone)]
    ensures forall p | p in q :: HasApplied(c', p, |c.nodes[n].log|, t, key, value, tombstone)
  {
    hide Reachable, Path, HasApplied;
    n := ForemostOf(c, q);
    c', t := Available(c, q, n, key, value, tombstone);
  }
}
