/**
 * A Raft node as the program runs it: fields updated in place, loops over peers and entries
 * (pkg/consensus/raft_node.go). Each method is one critical section; the calls it would hand to goroutines are
 * returned, and what it would send on the apply channel is appended to `applied`.
 */
module RaftNodes {
  import opened Bytes
  import opened RaftTypes
  import opened RaftHandlers
  import opened RaftMerge

  /** The places in the list of peers whose peer is known to hold the log through index `n`. */
  function PlacesAt(matchIndex: map<int, nat>, peers: seq<int>, n: nat): set<int> {
    set i | 0 <= i < |peers| && (if peers[i] in matchIndex then matchIndex[peers[i]] else 0) >= n
  }

  lemma {:induction false} MatchCountPlaces(matchIndex: map<int, nat>, peers: seq<int>, n: nat)
    ensures MatchCount(matchIndex, peers, n) == |PlacesAt(matchIndex, peers, n)|
  {
    if peers == [] {
      assert PlacesAt(matchIndex, peers, n) == {};
    } else {
      var last := |peers| - 1;
      var front := peers[..last];
      MatchCountPlaces(matchIndex, front, n);
      var before, all := PlacesAt(matchIndex, front, n), PlacesAt(matchIndex, peers, n);
      if Lookup(matchIndex, peers[last]) >= n {
        assert all == before + {last};
      } else {
        assert all == before;
      }
    }
  }

  /** Entry `n` is of the node's own term, and more than half of the nodes, itself included, hold it. */
  predicate OnMost(s: NodeState, n: nat) {
    n < |s.log| && s.log[n].term == s.currentTerm && 2 * (1 + |PlacesAt(s.matchIndex, s.peers, n)|) > |s.peers| + 1
  }

  lemma ReplicatedOnMost(s: NodeState, n: nat)
    ensures Replicated(s, n) <==> OnMost(s, n)
  {
    MatchCountPlaces(s.matchIndex, s.peers, n);
  }

  /** The commit point is the highest such entry above the commit index, if there is one. */
  lemma CommitPointIs(s: NodeState)
    ensures var s' := AdvanceCommit(s);
            && (s'.commitIndex == s.commitIndex || (s.commitIndex < s'.commitIndex && OnMost(s, s'.commitIndex)))
            && forall n :: s.commitIndex < n < |s.log| && OnMost(s, n) ==> n <= s'.commitIndex
  {
    hide OnMost, Replicated, Messages;
    ReplicatedOnMost(s, CommitPoint(s, LastIndex(s.log)));
    forall n | s.commitIndex < n < |s.log| && OnMost(s, n)
      ensures n <= AdvanceCommit(s).commitIndex
    {
      ReplicatedOnMost(s, n);
    }
  }

  /** Entries that all have an index are sent one for one, field by field. */
  lemma {:induction false} MessagesCarry(es: seq<LogEntry>)
    requires forall x :: 0 <= x < |es| ==> es[x].index > 0
    ensures |Messages(es)| == |es|
    ensures forall x :: 0 <= x < |es| ==>
              Messages(es)[x] == ApplyMsg(es[x].index, es[x].term, es[x].key, es[x].value, es[x].tombstone)
  {
    if es != [] {
      MessagesCarry(es[..|es| - 1]);
    }
  }

  /** Behind what was sent, one message per entry from lastApplied to commitIndex, if these all have an index. */
  predicate SendsEach(s: NodeState, applied: seq<ApplyMsg>)
    requires s.commitIndex < |s.log|
  {
    (forall x :: s.lastApplied < x <= s.commitIndex ==> s.log[x].index > 0) ==>
      && |applied| == |s.applied| + (if s.commitIndex > s.lastApplied then s.commitIndex - s.lastApplied else 0)
      && s.applied <= applied
      && forall x :: s.lastApplied < x <= s.commitIndex ==>
           var e := s.log[x];
           applied[|s.applied| + x - s.lastApplied - 1] == ApplyMsg(e.index, e.term, e.key, e.value, e.tombstone)
  }

  lemma AppliesEach(s: NodeState)
    requires s.commitIndex < |s.log|
    ensures SendsEach(s, ApplyLogs(s).applied)
  {
    hide Messages;
    if s.commitIndex > s.lastApplied && forall x :: s.lastApplied < x <= s.commitIndex ==> s.log[x].index > 0 {
      MessagesCarry(s.log[s.lastApplied + 1..s.commitIndex + 1]);
    }
  }

  class RaftNode {
    const id: int
    const peers: seq<int>

    var currentTerm: nat
    var votedFor: int
    var log: Log
    var commitIndex: nat
    var lastApplied: nat
    var role: Role
    var nextIndex: map<int, nat>
    var matchIndex: map<int, nat>
    var votesReceived: nat
    var applied: seq<ApplyMsg>

    function State(): NodeState
      reads this
    {
      NodeState(id, peers, currentTerm, votedFor, log, commitIndex, lastApplied, role, nextIndex, matchIndex,
                votesReceived, applied)
    }

    constructor (id: int, peers: seq<int>)
      ensures State() == NewNode(id, peers)
    {
      this.id, this.peers := id, peers;
      currentTerm, votedFor, role := 0, NOBODY, Follower;
      commitIndex, lastApplied := 0, 0;
      nextIndex, matchIndex := map[], map[];
      log := [DUMMY];
      votesReceived, applied := 0, [];
    }

    method StepDown(term: nat)
      modifies this
      ensures State() == BecomeFollower(old(State()), term)
    {
      role := Follower;
      currentTerm := term;
      votedFor := NOBODY;
    }

    method TakeOffice() returns (calls: seq<AppendRequest>)
      modifies this
      ensures State() == BecomeLeader(old(State())) && InBounds(State())
      ensures (set m | m in calls) == Broadcast(State())
    {
      role := Leader;
      for i := 0 to |peers|
        invariant nextIndex == SetAll(old(nextIndex), peers[..i], |log|)
        invariant matchIndex == SetAll(old(matchIndex), peers[..i], 0)
        invariant State() == old(State()).(role := Leader, nextIndex := nextIndex, matchIndex := matchIndex)
      {
        assert peers[..i + 1] == peers[..i] + [peers[i]];
        nextIndex := nextIndex[peers[i] := |log|];
        matchIndex := matchIndex[peers[i] := 0];
      }
      assert peers[..|peers|] == peers;
      calls := BroadcastHeartbeats();
    }

    /** The heartbeat for one peer: everything behind the entry the peer is believed to hold. */
    method HeartbeatFor(p: int) returns (call: AppendRequest)
      requires InBounds(State()) && role == Leader && p in peers
      ensures call == AppendRequestTo(State(), p)
    {
      assert p in State().peers;
      var prevIndex: int := nextIndex[p] - 1;
      if prevIndex < 0 {
        prevIndex := 0;
      }
      var prevTerm := log[prevIndex].term;
      var entries := log[prevIndex + 1..];
      call := AppendRequest(id, p, AppendEntriesArgs(currentTerm, id, prevIndex, prevTerm, entries, commitIndex));
    }

    method BroadcastHeartbeats() returns (calls: seq<AppendRequest>)
      requires InBounds(State())
      ensures (set m | m in calls) == Broadcast(State())
    {
      hide AppendRequestTo, InBounds;
      calls := [];
      if role != Leader {
        return;
      }
      for i := 0 to |peers|
        invariant |calls| == i && forall k :: 0 <= k < i ==> calls[k] == AppendRequestTo(State(), peers[k])
      {
        var call := HeartbeatFor(peers[i]);
        calls := calls + [call];
      }
      SameMembers(calls);
    }

    lemma SameMembers(calls: seq<AppendRequest>)
      requires role == Leader && |calls| == |peers|
      requires forall k :: 0 <= k < |peers| ==> calls[k] == AppendRequestTo(State(), peers[k])
      ensures (set m | m in calls) == Broadcast(State())
    {
      forall m | m in Broadcast(State())
        ensures m in calls
      {
        var p :| p in peers && m == AppendRequestTo(State(), p);
        var k :| 0 <= k < |peers| && peers[k] == p;
        assert calls[k] == m;
      }
    }

    method BeginElection() returns (votes: seq<VoteRequest>, calls: seq<AppendRequest>)
      modifies this
      ensures State() == StartElection(old(State()))
      ensures (set m | m in votes) == VoteRequests(State())
      ensures (set m | m in calls) == Broadcast(State())
    {
      role := Candidate;
      currentTerm := currentTerm + 1;
      votedFor := id;
      var lastLogIndex := |log| - 1;
      var lastLogTerm := log[lastLogIndex].term;
      votesReceived := 1;
      var majorityNeeded := (|peers| + 1) / 2 + 1;
      votes, calls := [], [];
      if votesReceived >= majorityNeeded {
        calls := TakeOffice();
        return;
      }
      for i := 0 to |peers|
        invariant |votes| == i && forall k :: 0 <= k < i ==> votes[k] == VoteRequestTo(State(), peers[k])
      {
        votes := votes + [VoteRequest(id, peers[i], RequestVoteArgs(currentTerm, id, lastLogIndex, lastLogTerm))];
      }
      forall m | m in VoteRequests(State())
        ensures m in votes
      {
        var p :| p in peers && m == VoteRequestTo(State(), p);
        var k :| 0 <= k < |peers| && peers[k] == p;
        assert votes[k] == m;
      }
    }

    method OnVoteReply(term: nat, reply: RequestVoteReply) returns (calls: seq<AppendRequest>)
      modifies this
      ensures State() == HandleVoteReply(old(State()), term, reply)
      ensures (set m | m in calls) == if old(role) != Leader then Broadcast(State()) else {}
      ensures old(role) == Candidate && old(currentTerm) == term >= reply.term && reply.voteGranted ==>
        && votesReceived == old(votesReceived) + 1
        && role == if 2 * votesReceived > |peers| + 1 then Leader else Candidate
    {
      calls := [];
      if role == Candidate && currentTerm == term {
        if reply.term > currentTerm {
          StepDown(reply.term);
          return;
        }
        if reply.voteGranted {
          votesReceived := votesReceived + 1;
          if votesReceived >= (|peers| + 1) / 2 + 1 && role == Candidate {
            calls := TakeOffice();
          }
        }
      }
    }

    method OnAppendReply(p: int, term: nat, prevIndex: nat, count: nat, reply: AppendEntriesReply)
      requires InBounds(State()) && p in peers
      requires role == Leader && currentTerm == term && reply.success ==> prevIndex + count < |log|
      modifies this
      ensures State() == HandleAppendReply(old(State()), p, term, prevIndex, count, reply) && InBounds(State())
    {
      if role == Leader && currentTerm == term {
        if reply.term > currentTerm {
          StepDown(reply.term);
          return;
        }
        if reply.success {
          nextIndex := nextIndex[p := prevIndex + count + 1];
          matchIndex := matchIndex[p := nextIndex[p] - 1];
          CheckAdvanceCommitIndex();
        } else if nextIndex[p] > 1 {
          nextIndex := nextIndex[p := nextIndex[p] - 1];
        }
      }
    }

    method CheckAdvanceCommitIndex()
      modifies this
      ensures State() == AdvanceCommit(old(State()))
      ensures commitIndex == old(commitIndex) || (commitIndex > old(commitIndex) && OnMost(old(State()), commitIndex))
      ensures forall n :: old(commitIndex) < n < |log| && OnMost(old(State()), n) ==> n <= commitIndex
    {
      hide OnMost;
      CommitPointIs(State());
      var n := |log| - 1;
      while n > commitIndex
        invariant State() == old(State())
        invariant 0 <= n < |log|
        invariant CommitPoint(State(), LastIndex(log)) == CommitPoint(State(), n)
      {
        if log[n].term == currentTerm {
          var count := CountMatches(n);
          if count >= (|peers| + 1) / 2 + 1 {
            commitIndex := n;
            SendApplied();
            return;
          }
        }
        n := n - 1;
      }
    }

    method CountMatches(n: nat) returns (count: nat)
      ensures count == 1 + MatchCount(matchIndex, peers, n)
    {
      count := 1;
      for i := 0 to |peers|
        invariant count == 1 + MatchCount(matchIndex, peers[..i], n)
      {
        assert peers[..i + 1][..i] == peers[..i];
        if Lookup(matchIndex, peers[i]) >= n {
          count := count + 1;
        }
      }
      assert peers[..|peers|] == peers;
    }

    method SendApplied()
      requires commitIndex < |log|
      modifies this`lastApplied, this`applied
      ensures State() == ApplyLogs(old(State()))
      ensures SendsEach(old(State()), applied)
    {
      hide Messages, SendsEach;
      AppliesEach(State());
      if commitIndex <= lastApplied {
        return;
      }
      ghost var from := lastApplied + 1;
      NoMessages();
      assert log[from..from] == [];
      while commitIndex > lastApplied
        invariant from <= lastApplied + 1 <= commitIndex + 1
        invariant applied == old(applied) + Messages(log[from..lastApplied + 1])
      {
        lastApplied := lastApplied + 1;
        var entry := log[lastApplied];
        MessagesNext(log, from, lastApplied);
        if entry.index > 0 {
          applied := applied + [ApplyMsg(entry.index, entry.term, entry.key, entry.value, entry.tombstone)];
        }
      }
    }

    method RequestVote(args: RequestVoteArgs) returns (reply: RequestVoteReply)
      modifies this
      ensures (State(), reply) == HandleRequestVote(old(State()), args)
    {
      if args.term > currentTerm {
        StepDown(args.term);
      }
      reply := RequestVoteReply(currentTerm, false);
      if args.term < currentTerm {
        return;
      }
      var lastLogIndex := |log| - 1;
      var lastLogTerm := log[lastLogIndex].term;
      var logUpToDate := false;
      if args.lastLogTerm > lastLogTerm {
        logUpToDate := true;
      } else if args.lastLogTerm == lastLogTerm && args.lastLogIndex >= lastLogIndex {
        logUpToDate := true;
      }
      if (votedFor == NOBODY || votedFor == args.candidateId) && logUpToDate {
        votedFor := args.candidateId;
        reply := reply.(voteGranted := true);
      }
    }

    method AppendEntries(args: AppendEntriesArgs) returns (reply: AppendEntriesReply)
      modifies this
      ensures (State(), reply) == HandleAppendEntries(old(State()), args)
    {
      hide Merge, Messages, ApplyLogs;
      if args.term > currentTerm {
        StepDown(args.term);
      }
      reply := AppendEntriesReply(currentTerm, false);
      if args.term < currentTerm {
        return;
      }
      if role != Follower {
        role := Follower;
      }
      if args.prevLogIndex >= |log| || log[args.prevLogIndex].term != args.prevLogTerm {
        return;
      }
      MergeEntries(args.prevLogIndex, args.entries);
      reply := reply.(success := true);
      if args.leaderCommit > commitIndex {
        if args.leaderCommit < |log| - 1 {
          commitIndex := args.leaderCommit;
        } else {
          commitIndex := |log| - 1;
        }
        SendApplied();
      }
    }

    /** The loop over the sent entries: truncate at the first entry of another term, append what is new. */
    method MergeEntries(prevLogIndex: nat, entries: seq<LogEntry>)
      requires prevLogIndex < |log|
      modifies this`log
      ensures log == Merge(old(log), prevLogIndex + 1, entries)
    {
      var i := 0;
      while i < |entries|
        invariant 0 <= i <= |entries| && prevLogIndex + 1 + i <= |log|
        invariant Merge(log, prevLogIndex + 1 + i, entries[i..]) == Merge(old(log), prevLogIndex + 1, entries)
      {
        var entry := entries[i];
        var idx := prevLogIndex + 1 + i;
        assert entries[i..][1..] == entries[i + 1..];
        if idx < |log| {
          if log[idx].term != entry.term {
            log := log[..idx] + [entry];
          }
        } else {
          assert log[..idx] == log;
          log := log + [entry];
        }
        i := i + 1;
      }
    }

    method SubmitCommand(key: seq<byte>, value: seq<byte>, tombstone: bool)
      returns (index: int, term: nat, isLeader: bool, calls: seq<AppendRequest>)
      requires InBounds(State())
      modifies this
      ensures State() == Submit(old(State()), key, value, tombstone) && InBounds(State())
      ensures (set m | m in calls) == Broadcast(State())
      ensures term == currentTerm && isLeader == (old(role) == Leader)
      ensures isLeader ==> index == |log| - 1 && log[index] == LogEntry(index, term, key, value, tombstone)
      ensures !isLeader ==> index == -1
    {
      if role != Leader {
        return -1, currentTerm, false, [];
      }
      index, term, isLeader := |log|, currentTerm, true;
      log := log + [LogEntry(index, term, key, value, tombstone)];
      calls := BroadcastHeartbeats();
    }

    method GetState() returns (term: nat, isLeader: bool)
      ensures term == currentTerm && isLeader == (role == Leader)
    {
      return currentTerm, role == Leader;
    }
  }
}
