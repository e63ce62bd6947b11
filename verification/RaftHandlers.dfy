/**
 * What each critical section of a Raft node does to its state, as functions of the state
 * (pkg/consensus/raft_node.go). `RaftNode` runs the same code in place and is proved equal to these; the cluster
 * is built out of them.
 */
module RaftHandlers {
  import opened Bytes
  import opened RaftTypes

  function Majority(s: NodeState): nat {
    (|s.peers| + 1) / 2 + 1
  }

  function LastIndex(log: Log): nat {
    |log| - 1
  }

  function LastTerm(log: Log): nat {
    log[|log| - 1].term
  }

  /** A Go map of ints reads 0 where it has no key. */
  function Lookup(m: map<int, nat>, p: int): nat {
    if p in m then m[p] else 0
  }

  /** The map with every one of `ps` set to `v`. */
  function SetAll(m: map<int, nat>, ps: seq<int>, v: nat): (r: map<int, nat>)
    ensures forall p :: p in r <==> p in m || p in ps
    ensures forall p :: p in r ==> r[p] == if p in ps then v else m[p]
  {
    if ps == [] then m else SetAll(m, ps[..|ps| - 1], v)[ps[|ps| - 1] := v]
  }

  function BecomeFollower(s: NodeState, term: nat): NodeState {
    s.(role := Follower, currentTerm := term, votedFor := NOBODY)
  }

  function BecomeLeader(s: NodeState): NodeState {
    s.(role := Leader,
       nextIndex := SetAll(s.nextIndex, s.peers, |s.log|),
       matchIndex := SetAll(s.matchIndex, s.peers, 0))
  }

  /** The node's state when it has just turned candidate, before counting its own vote. */
  function BecomeCandidate(s: NodeState): NodeState {
    s.(role := Candidate, currentTerm := s.currentTerm + 1, votedFor := s.id, votesReceived := 1)
  }

  function StartElection(s: NodeState): NodeState {
    var c := BecomeCandidate(s);
    if 1 >= Majority(s) then BecomeLeader(c) else c
  }

  function VoteRequestTo(s: NodeState, p: int): VoteRequest {
    VoteRequest(s.id, p, RequestVoteArgs(s.currentTerm, s.id, LastIndex(s.log), LastTerm(s.log)))
  }

  /** The calls an election sends, one to each peer. */
  function VoteRequests(s: NodeState): set<VoteRequest> {
    set p | p in s.peers :: VoteRequestTo(s, p)
  }

  function HandleVoteReply(s: NodeState, term: nat, reply: RequestVoteReply): NodeState {
    if s.role != Candidate || s.currentTerm != term then s
    else if reply.term > s.currentTerm then BecomeFollower(s, reply.term)
    else if !reply.voteGranted then s
    else
      var counted := s.(votesReceived := s.votesReceived + 1);
      if counted.votesReceived >= Majority(s) then BecomeLeader(counted) else counted
  }

  function PrevIndex(s: NodeState, p: int): nat {
    if Lookup(s.nextIndex, p) == 0 then 0 else Lookup(s.nextIndex, p) - 1
  }

  /** The heartbeat for one peer. `InBounds` says when the two reads of the log below stay inside it. */
  function AppendRequestTo(s: NodeState, p: int): AppendRequest {
    var prev := PrevIndex(s, p);
    var prevTerm := if prev < |s.log| then s.log[prev].term else 0;
    var entries := if prev < |s.log| then s.log[prev + 1..] else [];
    AppendRequest(s.id, p, AppendEntriesArgs(s.currentTerm, s.id, prev, prevTerm, entries, s.commitIndex))
  }

  /** The calls a broadcast sends, one to each peer; a node that is not leader sends none. */
  function Broadcast(s: NodeState): set<AppendRequest> {
    if s.role == Leader then set p | p in s.peers :: AppendRequestTo(s, p) else {}
  }

  /** A leader's bookkeeping keeps every log read of a broadcast in range. */
  predicate InBounds(s: NodeState) {
    s.role == Leader ==>
      forall p | p in s.peers ::
        p in s.nextIndex && p in s.matchIndex && 1 <= s.nextIndex[p] <= |s.log| && s.matchIndex[p] < |s.log|
  }

  function ToMessage(e: LogEntry): ApplyMsg {
    ApplyMsg(e.index, e.term, e.key, e.value, e.tombstone)
  }

  /** The messages for a stretch of log entries; entries with index 0 are not sent. */
  function Messages(es: seq<LogEntry>): seq<ApplyMsg> {
    if es == [] then []
    else Messages(es[..|es| - 1]) + (if es[|es| - 1].index > 0 then [ToMessage(es[|es| - 1])] else [])
  }

  function ApplyLogs(s: NodeState): NodeState
    requires s.commitIndex < |s.log|
  {
    if s.commitIndex <= s.lastApplied then s
    else s.(lastApplied := s.commitIndex,
            applied := s.applied + Messages(s.log[s.lastApplied + 1..s.commitIndex + 1]))
  }

  /** How many of `peers` are known to hold the log through index `n`. */
  function MatchCount(matchIndex: map<int, nat>, peers: seq<int>, n: nat): nat {
    if peers == [] then 0
    else MatchCount(matchIndex, peers[..|peers| - 1], n) + (if Lookup(matchIndex, peers[|peers| - 1]) >= n then 1 else 0)
  }

  predicate Replicated(s: NodeState, n: nat) {
    n < |s.log| && s.log[n].term == s.currentTerm && 1 + MatchCount(s.matchIndex, s.peers, n) >= Majority(s)
  }

  /** The highest replicated index in (commitIndex, n], or commitIndex when there is none. */
  function CommitPoint(s: NodeState, n: nat): (r: nat)
    ensures r == s.commitIndex || (s.commitIndex < r <= n && Replicated(s, r))
    ensures forall m :: s.commitIndex < m <= n && Replicated(s, m) ==> m <= r
  {
    if n <= s.commitIndex then s.commitIndex
    else if Replicated(s, n) then n
    else CommitPoint(s, n - 1)
  }

  function AdvanceCommit(s: NodeState): NodeState {
    var n := CommitPoint(s, LastIndex(s.log));
    if n == s.commitIndex then s else ApplyLogs(s.(commitIndex := n))
  }

  function RecordMatch(s: NodeState, p: int, prevIndex: nat, count: nat): NodeState {
    s.(nextIndex := s.nextIndex[p := prevIndex + count + 1], matchIndex := s.matchIndex[p := prevIndex + count])
  }

  function BackOff(s: NodeState, p: int): NodeState {
    if Lookup(s.nextIndex, p) > 1 then s.(nextIndex := s.nextIndex[p := s.nextIndex[p] - 1]) else s
  }

  function HandleAppendReply(s: NodeState, p: int, term: nat, prevIndex: nat, count: nat, reply: AppendEntriesReply)
    : NodeState
  {
    if s.role != Leader || s.currentTerm != term then s
    else if reply.term > s.currentTerm then BecomeFollower(s, reply.term)
    else if reply.success then AdvanceCommit(RecordMatch(s, p, prevIndex, count))
    else BackOff(s, p)
  }

  /** The election restriction: a log ending in (index, term) is no staler than `log`. */
  predicate UpToDate(index: nat, term: nat, log: Log) {
    term > LastTerm(log) || (term == LastTerm(log) && index >= LastIndex(log))
  }

  /** A message from a newer term makes the node a follower of that term first. */
  function Observe(s: NodeState, term: nat): NodeState {
    if term > s.currentTerm then BecomeFollower(s, term) else s
  }

  predicate Grants(s: NodeState, args: RequestVoteArgs) {
    && args.term == s.currentTerm
    && (s.votedFor == NOBODY || s.votedFor == args.candidateId)
    && UpToDate(args.lastLogIndex, args.lastLogTerm, s.log)
  }

  function HandleRequestVote(s: NodeState, args: RequestVoteArgs): (NodeState, RequestVoteReply) {
    var o := Observe(s, args.term);
    if Grants(o, args) then (o.(votedFor := args.candidateId), RequestVoteReply(o.currentTerm, true))
    else (o, RequestVoteReply(o.currentTerm, false))
  }

  /** The follower's loop over the sent entries, the first of which belongs at position `idx`. */
  function Merge(log: Log, idx: nat, entries: seq<LogEntry>): Log
    requires 0 < idx <= |log|
    decreases |entries|
  {
    if entries == [] then log
    else if idx < |log| && log[idx].term == entries[0].term then Merge(log, idx + 1, entries[1..])
    else Merge(log[..idx] + [entries[0]], idx + 1, entries[1..])
  }

  predicate Consistent(log: Log, prevIndex: nat, prevTerm: nat) {
    prevIndex < |log| && log[prevIndex].term == prevTerm
  }

  function AdoptCommit(s: NodeState, leaderCommit: nat): NodeState {
    if leaderCommit <= s.commitIndex then s
    else ApplyLogs(s.(commitIndex := if leaderCommit < LastIndex(s.log) then leaderCommit else LastIndex(s.log)))
  }

  function Accept(s: NodeState, args: AppendEntriesArgs): NodeState
    requires Consistent(s.log, args.prevLogIndex, args.prevLogTerm)
  {
    AdoptCommit(s.(role := Follower, log := Merge(s.log, args.prevLogIndex + 1, args.entries)), args.leaderCommit)
  }

  function HandleAppendEntries(s: NodeState, args: AppendEntriesArgs): (NodeState, AppendEntriesReply) {
    var o := Observe(s, args.term);
    if args.term < o.currentTerm then (o, AppendEntriesReply(o.currentTerm, false))
    else if !Consistent(o.log, args.prevLogIndex, args.prevLogTerm) then
      (o.(role := Follower), AppendEntriesReply(o.currentTerm, false))
    else (Accept(o, args), AppendEntriesReply(o.currentTerm, true))
  }

  /** A client command joins a leader's log; any other node refuses it. */
  function Submit(s: NodeState, key: seq<byte>, value: seq<byte>, tombstone: bool): NodeState {
    if s.role != Leader then s
    else s.(log := s.log + [LogEntry(|s.log|, s.currentTerm, key, value, tombstone)])
  }

  /** The state of a node that has just been created. */
  function NewNode(id: int, peers: seq<int>): NodeState {
    NodeState(id, peers, 0, NOBODY, [DUMMY], 0, 0, Follower, map[], map[], 0, [])
  }
}
