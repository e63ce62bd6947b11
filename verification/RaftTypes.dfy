/** The values Raft nodes hold and exchange (pkg/consensus/raft_types.go). */
module RaftTypes {
  import opened Bytes

  datatype Role = Follower | Candidate | Leader

  datatype LogEntry = LogEntry(index: nat, term: nat, key: seq<byte>, value: seq<byte>, tombstone: bool)

  /** The entry every log starts with; real entries begin at index 1. */
  const DUMMY := LogEntry(0, 0, [], [], false)

  type Log = s: seq<LogEntry> | |s| > 0 witness [DUMMY]

  /** The vote a node holds when it has given none in its current term. */
  const NOBODY := -1

  datatype RequestVoteArgs = RequestVoteArgs(term: nat, candidateId: int, lastLogIndex: nat, lastLogTerm: nat)

  datatype RequestVoteReply = RequestVoteReply(term: nat, voteGranted: bool)

  datatype AppendEntriesArgs = AppendEntriesArgs(
    term: nat, leaderId: int, prevLogIndex: nat, prevLogTerm: nat, entries: seq<LogEntry>, leaderCommit: nat)

  datatype AppendEntriesReply = AppendEntriesReply(term: nat, success: bool)

  datatype ApplyMsg = ApplyMsg(commandIndex: nat, commandTerm: nat, key: seq<byte>, value: seq<byte>, tombstone: bool)

  /**
   * Everything a node keeps under its mutex. `votesReceived` is the counter of the node's latest election and
   * `applied` is everything it has sent on its apply channel, oldest first.
   */
  datatype NodeState = NodeState(
    id: int,
    peers: seq<int>,
    currentTerm: nat,
    votedFor: int,
    log: Log,
    commitIndex: nat,
    lastApplied: nat,
    role: Role,
    nextIndex: map<int, nat>,
    matchIndex: map<int, nat>,
    votesReceived: nat,
    applied: seq<ApplyMsg>)

  /** A RequestVote call on its way from a candidate to a peer. */
  datatype VoteRequest = VoteRequest(from: int, to: int, args: RequestVoteArgs)

  /** The answer on its way back; `term` is the one the calling goroutine captured. */
  datatype VoteResponse = VoteResponse(from: int, to: int, term: nat, reply: RequestVoteReply)

  /** An AppendEntries call on its way from a leader to a peer. */
  datatype AppendRequest = AppendRequest(from: int, to: int, args: AppendEntriesArgs)

  /** The answer on its way back, with the term, previous index and entry count the goroutine captured. */
  datatype AppendResponse = AppendResponse(
    from: int, to: int, term: nat, prevIndex: nat, count: nat, reply: AppendEntriesReply)
}
