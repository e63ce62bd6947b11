/**
 * Runs of new clusters that get somewhere: a node without peers leads and takes commands, and in every larger cluster
 * any majority can elect any of its members and commit. With `RaftBookkeeping.AloneNeverCommits` this says exactly
 * which clusters, and which of their nodes alone, can commit.
 */
module RaftProgress {
  import opened Bytes
  import opened RaftTypes
  import opened RaftHandlers
  import opened RaftCluster
  import opened RaftInvariants
  import opened RaftSafety
  import opened RaftBookkeeping
  import opened RaftExact
  import opened RaftAvailability
  import opened Quorum

  // ---------- Reachability ----------

  ghost predicate EndsIn(run: seq<Cluster>, acts: seq<Action>, c0: Cluster, c: Cluster) {
    Behaves(run, acts) && run[0] == c0 && run[|run| - 1] == c
  }

  /** Some run leads from the initial state `c0` to `c`. */
  ghost predicate Reaches(c0: Cluster, c: Cluster) {
    exists run, acts :: EndsIn(run, acts, c0, c)
  }

  lemma ReachesItself(c0: Cluster)
    requires Initial(c0)
    ensures Reaches(c0, c0)
  {
    assert EndsIn([c0], [], c0, c0);
  }

  lemma ReachesNext(c0: Cluster, c: Cluster, a: Action)
    requires Reaches(c0, c) && Enabled(c, a)
    ensures Reaches(c0, Step(c, a))
  {
    hide Step, Enabled, Initial;
    var run, acts :| EndsIn(run, acts, c0, c);
    var run', acts' := run + [Step(c, a)], acts + [a];
    forall k | 0 <= k < |acts'|
      ensures Enabled(run'[k], acts'[k]) && run'[k + 1] == Step(run'[k], acts'[k])
    {
      if k < |acts| {
        assert Enabled(run[k], acts[k]) && run[k + 1] == Step(run[k], acts[k]);
      }
    }
    assert EndsIn(run', acts', c0, Step(c, a));
  }

  // ---------- A node without peers ----------

  /** It wins the election it calls, takes the command, and has committed nothing. */
  lemma AloneLeads(c0: Cluster, n: int, key: seq<byte>, value: seq<byte>, tombstone: bool) returns (c: Cluster)
    requires Initial(c0) && c0.nodes.Keys == {n}
    ensures Reaches(c0, c) && Leads(c, n, 1)
    ensures c.nodes[n].log == [DUMMY, LogEntry(1, 1, key, value, tombstone)]
    ensures c.nodes[n].commitIndex == 0 && c.nodes[n].applied == []
  {
    assert n in c0.nodes;
    assert c0.nodes[n].peers == [] by {
      assert KnowsPeers(c0.nodes[n], n, c0.nodes.Keys);
      MemberOf(c0.nodes[n].peers);
    }
    ReachesItself(c0);
    var c1 := Step(c0, Timeout(n));
    ReachesNext(c0, c0, Timeout(n));
    var submit := ClientSubmit(n, key, value, tombstone);
    c := Step(c1, submit);
    ReachesNext(c0, c1, submit);
  }

  // ---------- A new cluster ----------

  lemma InitialReachable(c0: Cluster)
    requires Initial(c0)
    ensures Reachable(c0)
  {
    assert Ends([c0], [], c0);
  }

  lemma PathReaches(c0: Cluster, c: Cluster, q: set<int>)
    requires Initial(c0) && Path(c0, c, q)
    ensures Reaches(c0, c)
  {
    hide Initial, Step, Enabled, Actor;
    var run, acts :| PathBy(run, acts, c0, c, q);
    assert EndsIn(run, acts, c0, c);
  }

  /**
   * In a new cluster of at least two nodes, any node can be elected and commit any command by the steps of any
   * majority it belongs to; all of the majority apply it, and the others are as they were.
   */
  lemma PeersCommit(c0: Cluster, q: set<int>, n: int, key: seq<byte>, value: seq<byte>, tombstone: bool)
    returns (c: Cluster)
    requires Initial(c0) && n in q && q <= c0.nodes.Keys && 2 * |q| > |c0.nodes.Keys| >= 2
    ensures Path(c0, c, q) && Leads(c, n, 1) && c.nodes[n].commitIndex == 1
    ensures c.nodes[n].log == [DUMMY, LogEntry(1, 1, key, value, tombstone)]
    ensures forall p | p in q :: HasApplied(c, p, 1, 1, key, value, tombstone)
    ensures forall m | m in c0.nodes && m !in q :: m in c.nodes && c.nodes[m] == c0.nodes[m]
  {
    hide Reachable, Path, HasApplied;
    InitialReachable(c0);
    OnStart(c0, q);
    var ps := Listed(q - {n});
    forall x | 0 <= x < |ps|
      ensures ps[x] in q && ps[x] != n && ps[x] in c0.nodes && c0.nodes[ps[x]] == NewNode(ps[x], c0.nodes[ps[x]].peers)
    {
      assert ps[x] in ps;
      var p := ps[x];
      assert p in c0.nodes;
    }
    assert c0.nodes[n] == NewNode(n, c0.nodes[n].peers);
    c := Serve(c0, c0, q, n, ps, key, value, tombstone);
    OutsideStays(c0, c, q);
    forall p | p in q
      ensures HasApplied(c, p, 1, 1, key, value, tombstone)
    {
      if p != n {
        assert p in ps;
        var x :| 0 <= x < |ps| && ps[x] == p;
      }
    }
  }

  // ---------- Which nodes can commit by themselves ----------

  /** Node `n` has committed something, by steps of `q` alone. */
  ghost predicate CommitsBy(c0: Cluster, c: Cluster, n: int, q: set<int>) {
    Path(c0, c, q) && n in c.nodes && c.nodes[n].commitIndex > 0
  }

  lemma HolderActed(c: Cluster, h: History, m: int, t: nat, i: nat)
    requires Inv(c, h) && m in Holders(c, h, t, i) && Committed(c, h, t, i)
    ensures m in c.nodes && c.nodes[m].currentTerm > 0
  {
    hide Members, VotesRecorded, VotesCounted, VoteMessages, LogsRooted, AppendMessages, MatchesAcked, Commitment;
    assert (m, t) in h.acks && AckOk(c, h, (m, t));
    assert LeaderOk(c, h, t);
  }

  /** Whatever is committed in a new cluster, more than half of the nodes took steps for it. */
  lemma CommitNeedsMajority(c0: Cluster, c: Cluster, n: int, q: set<int>)
    requires Initial(c0) && CommitsBy(c0, c, n, q) && q <= c0.nodes.Keys
    ensures 2 * |q| > |c0.nodes.Keys|
  {
    hide Inv, Committed, Holders;
    assert Reachable(c) by {
      PathReaches(c0, c, q);
      var run, acts :| EndsIn(run, acts, c0, c);
      assert Ends(run, acts, c);
    }
    var h := Known(c);
    CommitNow(c, h, n);
    OutsideStays(c0, c, q);
    var s := c.nodes[n];
    var t: nat, i: nat :| CommittedBy(c, h, s.log, s.commitIndex, s.currentTerm, t, i);
    var holders := Holders(c, h, t, i);
    forall m | m in holders
      ensures m in q
    {
      HolderActed(c, h, m, t, i);
    }
    SubsetCard(holders, q);
    CommittedQuorum(c, h, t, i);
  }

  lemma CommittedQuorum(c: Cluster, h: History, t: nat, i: nat)
    requires Committed(c, h, t, i)
    ensures 2 * |Holders(c, h, t, i)| > |c.nodes.Keys|
  {
  }

  /** The nodes of `q` can commit something by themselves exactly when they are a majority of two nodes or more. */
  lemma QuorumsCommitExactly(c0: Cluster, q: set<int>)
    requires Initial(c0) && q <= c0.nodes.Keys
    ensures (exists c, n :: CommitsBy(c0, c, n, q)) <==> 2 * |q| > |c0.nodes.Keys| >= 2
  {
    hide Path, HasApplied, Initial;
    if 2 * |q| > |c0.nodes.Keys| >= 2 {
      var n := AnyOf(q);
      var c := PeersCommit(c0, q, n, [], [], false);
      assert CommitsBy(c0, c, n, q);
    }
    if c, n :| CommitsBy(c0, c, n, q) {
      CommitNeedsMajority(c0, c, n, q);
      PathReaches(c0, c, q);
      AloneCannot(c0, c, n);
    }
  }

  lemma AloneCannot(c0: Cluster, c: Cluster, n: int)
    requires Reaches(c0, c) && n in c.nodes && c.nodes[n].commitIndex > 0
    ensures |c0.nodes.Keys| >= 2
  {
    var run, acts :| EndsIn(run, acts, c0, c);
    NodesStay(run, acts, |run| - 1);
    if |c0.nodes.Keys| < 2 {
      OnlyOne(c0.nodes.Keys, n);
      AloneNeverCommits(run, acts, |run| - 1, n);
    }
  }

  // ---------- Which clusters can commit ----------

  ghost predicate Commits(c0: Cluster, c: Cluster, n: int) {
    Reaches(c0, c) && n in c.nodes && c.nodes[n].commitIndex > 0
  }

  /** A cluster has a run in which some node commits something exactly when it has at least two nodes. */
  lemma CommitsExactly(c0: Cluster)
    requires Initial(c0)
    ensures (exists c, n :: Commits(c0, c, n)) <==> |c0.nodes.Keys| >= 2
  {
    hide Path, HasApplied, Initial, Reaches;
    if |c0.nodes.Keys| >= 2 {
      var q := c0.nodes.Keys;
      var n := AnyOf(q);
      var c := PeersCommit(c0, q, n, [], [], false);
      PathReaches(c0, c, q);
      assert Commits(c0, c, n);
    }
    if c, n :| Commits(c0, c, n) {
      AloneCannot(c0, c, n);
    }
  }

  lemma OnlyOne(ids: set<int>, n: int)
    requires n in ids && |ids| < 2
    ensures ids == {n}
  {
    assert ids == {n} + (ids - {n});
  }

  lemma {:induction false} NodesStay(run: seq<Cluster>, acts: seq<Action>, k: nat)
    requires Behaves(run, acts) && k < |run|
    ensures run[k].nodes.Keys == run[0].nodes.Keys
  {
    if k > 0 {
      NodesStay(run, acts, k - 1);
      StepNodes(run[k - 1], acts[k - 1]);
    }
  }

  lemma StepNodes(c: Cluster, a: Action)
    requires Enabled(c, a)
    ensures Step(c, a).nodes.Keys == c.nodes.Keys
  {
    match a
    case Timeout(n) => assert c.nodes.Keys + {n} == c.nodes.Keys;
    case DeliverVoteRequest(m) => assert c.nodes.Keys + {m.to} == c.nodes.Keys;
    case DeliverVoteResponse(m) => assert c.nodes.Keys + {m.to} == c.nodes.Keys;
    case Heartbeat(n) => assert c.nodes.Keys + {n} == c.nodes.Keys;
    case DeliverAppendRequest(m) => assert c.nodes.Keys + {m.to} == c.nodes.Keys;
    case DeliverAppendResponse(m) => assert c.nodes.Keys + {m.to} == c.nodes.Keys;
    case ClientSubmit(n, _, _, _) => assert c.nodes.Keys + {n} == c.nodes.Keys;
  }
}
