/**
 * A cluster of Raft nodes and the calls between them, as a transition system. Each handler holds its node's mutex
 * from start to end, so each is one atomic step. A call or an answer that is never delivered is lost. A vote call
 * is delivered at most once and its answer counted at most once, because each belongs to one goroutine; append
 * calls and their answers may even be delivered again, which the code never does but tolerates.
 */
module RaftCluster {
  import opened Bytes
  import opened RaftTypes
  import opened RaftHandlers

  datatype Cluster = Cluster(
    nodes: map<int, NodeState>,
    voteRequests: set<VoteRequest>,
    voteResponses: set<VoteResponse>,
    appendRequests: set<AppendRequest>,
    appendResponses: set<AppendResponse>)

  datatype Action =
    | Timeout(node: int)
    | DeliverVoteRequest(vq: VoteRequest)
    | DeliverVoteResponse(vr: VoteResponse)
    | Heartbeat(node: int)
    | DeliverAppendRequest(aq: AppendRequest)
    | DeliverAppendResponse(ar: AppendResponse)
    | ClientSubmit(node: int, key: seq<byte>, value: seq<byte>, tombstone: bool)

  predicate Distinct(s: seq<int>) {
    forall i, j :: 0 <= i < j < |s| ==> s[i] != s[j]
  }

  /** `s` lists every node of the cluster but itself, once. */
  ghost predicate KnowsPeers(s: NodeState, id: int, ids: set<int>) {
    s.id == id && Distinct(s.peers) && forall p :: p in s.peers <==> p in ids && p != id
  }

  ghost predicate Initial(c: Cluster) {
    && NOBODY !in c.nodes
    && (forall n | n in c.nodes :: KnowsPeers(c.nodes[n], n, c.nodes.Keys) && c.nodes[n] == NewNode(n, c.nodes[n].peers))
    && c.voteRequests == {} && c.voteResponses == {} && c.appendRequests == {} && c.appendResponses == {}
  }

  predicate Enabled(c: Cluster, a: Action) {
    match a
    case Timeout(n) => n in c.nodes && c.nodes[n].role != Leader
    case DeliverVoteRequest(m) => m in c.voteRequests && m.to in c.nodes
    case DeliverVoteResponse(m) => m in c.voteResponses && m.to in c.nodes
    case Heartbeat(n) => n in c.nodes
    case DeliverAppendRequest(m) => m in c.appendRequests && m.to in c.nodes
    case DeliverAppendResponse(m) => m in c.appendResponses && m.to in c.nodes
    case ClientSubmit(n, _, _, _) => n in c.nodes
  }

  function WithNode(c: Cluster, n: int, s: NodeState): Cluster {
    c.(nodes := c.nodes[n := s])
  }

  /** Node `n` moves to `s` and broadcasts from there. */
  function WithBroadcast(c: Cluster, n: int, s: NodeState): Cluster {
    c.(nodes := c.nodes[n := s], appendRequests := c.appendRequests + Broadcast(s))
  }

  function Step(c: Cluster, a: Action): Cluster
    requires Enabled(c, a)
  {
    match a
    case Timeout(n) => StepTimeout(c, n)
    case DeliverVoteRequest(m) => StepVoteRequest(c, m)
    case DeliverVoteResponse(m) => StepVoteResponse(c, m)
    case Heartbeat(n) => WithBroadcast(c, n, c.nodes[n])
    case DeliverAppendRequest(m) => StepAppendRequest(c, m)
    case DeliverAppendResponse(m) => StepAppendResponse(c, m)
    case ClientSubmit(n, key, value, tombstone) => StepSubmit(c, n, key, value, tombstone)
  }

  /** A node without peers wins its election on the spot; any other asks its peers for votes. */
  function StepTimeout(c: Cluster, n: int): Cluster
    requires n in c.nodes
  {
    var s := StartElection(c.nodes[n]);
    WithBroadcast(c, n, s).(voteRequests := c.voteRequests + VoteRequests(s))
  }

  function StepVoteRequest(c: Cluster, m: VoteRequest): Cluster
    requires m.to in c.nodes
  {
    var (s, reply) := HandleRequestVote(c.nodes[m.to], m.args);
    WithNode(c, m.to, s).(
      voteRequests := c.voteRequests - {m},
      voteResponses := c.voteResponses + {VoteResponse(m.to, m.from, m.args.term, reply)})
  }

  function StepVoteResponse(c: Cluster, m: VoteResponse): Cluster
    requires m.to in c.nodes
  {
    var s := c.nodes[m.to];
    var s' := HandleVoteReply(s, m.term, m.reply);
    var c' := if s'.role == Leader && s.role != Leader then WithBroadcast(c, m.to, s') else WithNode(c, m.to, s');
    c'.(voteResponses := c.voteResponses - {m})
  }

  function StepAppendRequest(c: Cluster, m: AppendRequest): Cluster
    requires m.to in c.nodes
  {
    var (s, reply) := HandleAppendEntries(c.nodes[m.to], m.args);
    WithNode(c, m.to, s).(appendResponses := c.appendResponses +
        {AppendResponse(m.to, m.from, m.args.term, m.args.prevLogIndex, |m.args.entries|, reply)})
  }

  function StepAppendResponse(c: Cluster, m: AppendResponse): Cluster
    requires m.to in c.nodes
  {
    WithNode(c, m.to, HandleAppendReply(c.nodes[m.to], m.from, m.term, m.prevIndex, m.count, m.reply))
  }

  function StepSubmit(c: Cluster, n: int, key: seq<byte>, value: seq<byte>, tombstone: bool): Cluster
    requires n in c.nodes
  {
    WithBroadcast(c, n, Submit(c.nodes[n], key, value, tombstone))
  }

  /** `run` is what the cluster goes through when `acts` happen one after the other from an initial state. */
  ghost predicate Behaves(run: seq<Cluster>, acts: seq<Action>) {
    && |run| == |acts| + 1
    && Initial(run[0])
    && forall k :: 0 <= k < |acts| ==> Enabled(run[k], acts[k]) && run[k + 1] == Step(run[k], acts[k])
  }
}
