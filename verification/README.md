# HallownestKV in Dafny

A model of HallownestKV, a key-value store that combines a Raft cluster with an LSM storage engine (skip-list
memory table, write-ahead log, SSTables with a Bloom filter, compaction), and proofs of what the design promises.

Check everything with `dafny verify dfyconfig.toml`.

## What is modelled

**Consensus.** `RaftHandlers` gives every critical section of a Raft node as a function on the node's state;
`RaftNode` is the node as the program runs it, fields updated in place and loops over peers and entries, each method
proved equal to its function. `RaftCluster` turns the handlers into a state machine: a cluster is its nodes plus the
calls and replies in flight, and a step is a timeout, the delivery of a call or of a reply, or a client command.
Messages may be delayed for ever, reordered and lost; append calls and their replies may also be delivered again. A
run is any sequence of such steps from freshly created nodes. `RaftInvariants` states the invariant, with a history of votes,
elections, leader logs and acknowledgements beside the state; the `Raft...Steps` files prove that each step keeps it,
`RaftRuns` lifts that to runs. `RaftSafety` and `RaftBookkeeping` hold what never goes wrong, `RaftExact` says what
every step does in the terms of the protocol, and `RaftBackoff`, `RaftAvailability` and `RaftProgress` what can always
still be done.

**Storage.** `Records` is the 13-byte-header record that log and tables share, over `Crc32`. `Wal` appends, recovers
and replays. `MemTable` is the skip list on the heap, nodes with arrays of forward pointers, proved to be the ordered
map of `OrderedMap` for every sequence of coin flips. `Bloom` is the filter for every hash function. `SSTableFormat`,
`SSTableLookup`, `SSTableDamage` and `SSTable` are the file, its lookup, its behaviour under damage, and the code.
`CompactionMeaning`, `CompactionExact`, `CompactionDamage` and `Compaction` say what merging tables keeps, and do it.
`Server` ties log, table and Raft node together and recovers after a crash.

## Results that need a caller's care

- Compaction reads only the indexed keys of each table. It is a full newest-wins merge with interval 1 and something
  live; in general it preserves what clients see exactly under the condition in `CompactionExact.PreservesExactly`.
  `LostKey`, `ResurrectedKey` and `InventedKey` show a key lost, a deleted key back, and the sentinel key appearing.
  The doc comment at pkg/storage/compaction.go:47-48 promises a merge without that condition.
- Compaction passes over lookups that fail and then removes the old tables, so a damaged indexed record is dropped
  without an error (`CompactionDamage.CollectDamaged`).
- A record with changed lengths is taken for a torn tail exactly when they reach past the end of the log
  (`Wal.LengthCorruption`, with a concrete log in `Wal.SilentlyLost`). A lookup that reads it in a table answers
  "absent", without an error, where they reach past the end of its bracket (`SSTableDamage.LookupOverwritten`).
- Reopening a log does not cut a torn tail off, and what is appended behind it can be lost. What is appended is safe
  exactly when the log was read to its last byte (`Wal.ReopenedExactly`, for a server `Server.RestartExactly`).
  Otherwise nothing more may be read (`Wal.BehindTornTail` and `Wal.LostAfterTornTail` say exactly when that happens
  without an error, `Wal.WriteLost` gives a case), or other records than those appended (`Wal.StolenByte`). A refused
  record cuts off everything behind it for good (`Wal.StuckForGood`).
- A node without peers leads and accepts commands but never commits one (`RaftProgress.AloneLeads`,
  `RaftBookkeeping.AloneNeverCommits`), which is how cmd/hallownestd/main.go:259 creates its node. Its writes still
  reach table and log, because the server stores an accepted write at once and does not wait for it to be committed
  (pkg/network/server.go:219-233). Every larger cluster can commit (`RaftProgress.CommitsExactly`), and any majority of
  it from any reachable state (`RaftAvailability.MajorityServes`).
- After closing, an SSTable reader answers every lookup with "not found" and no error (`SSTables.SSTableReader.Get`).

## Model

| member | source | states |
|---|---|---|
| RaftSafety.ElectionSafety | pkg/consensus/raft_node.go:101-172 | In every run, at any two moments, two leaders of the same term are the same node |
| RaftSafety.OneVotePerTerm | pkg/consensus/raft_node.go:288-321 | A vote given in a term is still the node's vote at every later moment of that term |
| RaftSafety.LogMatching | pkg/consensus/raft_node.go:324-374 | Logs of any nodes at any moments that have the same term at an index are equal through that index |
| RaftSafety.LeaderAppendOnly | pkg/consensus/raft_node.go:378-401 | While a node leads a term its log only grows at the end |
| RaftSafety.LeaderCompleteness | pkg/consensus/raft_node.go:247-321 | Everything any node ever counts as committed is a prefix of the log of every leader of every later term |
| RaftSafety.AppliedIsLog | pkg/consensus/raft_node.go:269-285 | What a node has sent on its apply channel is its log from 1 to lastApplied: each message has the term, key, value and tombstone of the entry at its position, and that position as index |
| RaftSafety.AppliedComparable | pkg/consensus/raft_node.go:269-285 | In every reachable state the applied sequences of any two nodes are prefix-comparable |
| RaftSafety.StateMachineSafety | pkg/consensus/raft_node.go:247-285 | The same across any two moments of a run |
| RaftSafety.CommittedStays | pkg/consensus/raft_node.go:345-371 | Commit indices never fall and committed entries are never truncated or replaced |
| RaftBookkeeping.CallsAreSlices | pkg/consensus/raft_node.go:192-219 | Every AppendEntries in flight, however long delayed and whatever became of its sender, was at some moment a slice of the log of the node then leading its term; LeaderCommit is at most PrevLogIndex plus the number of entries |
| RaftBookkeeping.CallsStaySlices | pkg/consensus/raft_node.go:192-219 | It is still a slice of the leader's log at every later moment at which its term is led |
| RaftBookkeeping.FollowerCommitExact | pkg/consensus/raft_node.go:345-371 | An accepted call that raises the commit index sets it to exactly LeaderCommit, never past what the call covers, and keeps what was committed |
| RaftBookkeeping.CounterIsVoters | pkg/consensus/raft_node.go:101-155 | A candidate's vote counter is the size of a set of nodes that each voted for it in its term |
| RaftBookkeeping.VoteWasCast | pkg/consensus/raft_node.go:288-321 | Every vote on record was in some earlier state the vote the node held in that term |
| RaftBookkeeping.LeaderBookkeeping | pkg/consensus/raft_node.go:164-241 | nextIndex stays within 1 and the log length, and while a peer's term is still the leader's, their logs agree through matchIndex whatever stale replies arrive |
| RaftBookkeeping.AloneNeverCommits | pkg/consensus/raft_node.go:247-267 | A node without peers never commits or applies anything |
| RaftExact.CandidateBound | pkg/consensus/raft_node.go:111-152 | In every reachable state a node that is still a candidate has the votes of at most half of the nodes |
| RaftExact.VoteCounted | pkg/consensus/raft_node.go:131-172 | In every reachable state: a counted vote makes the candidate leader if and only if it now has the votes of more than half of the nodes, with nextIndex at the end of its log, matchIndex 0 and a call to every other node; an answer of another term changes nothing, one that names a later term makes it follower of that term |
| RaftExact.VoteAnswered | pkg/consensus/raft_node.go:288-321 | In every reachable state a vote is given if and only if the term is not past, the node has not voted for another in it, and the last entry named is of a later term than its own or of the same term and no less far on; the answer and the new term, vote and role follow |
| RaftExact.RequestsTell | pkg/consensus/raft_node.go:101-128 | Every vote request in flight names the last index and term of the log its sender stood with |
| RaftExact.ElectionCalled | pkg/consensus/raft_node.go:101-128 | Standing for election takes the next term, the own vote and a request to every other node; a node alone leads at once |
| RaftExact.CallAnswered | pkg/consensus/raft_node.go:324-374 | In every reachable state a call is accepted if and only if its term is not past and the entry before its entries is in the log; the log is then as before if it held the entries and otherwise ends with exactly them, the commit index is the higher of the two; a refused call changes neither |
| RaftExact.AnswerCounted | pkg/consensus/raft_node.go:222-267 | In every reachable state an acceptance sets the peer's indices to what the call reached and the commit index to the highest entry of the leader's own term that more than half of the nodes are known to hold, if that is higher; a refusal lowers nextIndex by one but not below 1; a later term makes the leader a follower |
| RaftExact.HeartbeatSends | pkg/consensus/raft_node.go:192-219 | A leader sends every other node the entries from its nextIndex on, the term before them and the leader's commit index |
| RaftExact.CommandTaken | pkg/consensus/raft_node.go:378-401 | A leader puts the command at the end of its log, under its index and the current term, and sends it to every other node; any other node takes nothing |
| RaftExact.OthersStay | pkg/consensus/raft_node.go:101-401 | A step changes no node but the one that takes it |
| RaftProgress.AloneLeads | pkg/consensus/raft_node.go:101-118 | A node without peers does lead and take commands: a run ends with it leading, its log holding the command and nothing committed |
| RaftProgress.PeersCommit | pkg/consensus/raft_node.go:101-267 | In every new cluster of at least two nodes, for every majority and every node in it, steps of the majority alone elect the node and commit any given command; every node of the majority has then applied it, and every other node is as it was |
| RaftProgress.QuorumsCommitExactly | pkg/consensus/raft_node.go:101-267 | In a new cluster, steps of the nodes of a set alone can commit something if and only if the set is a majority and the cluster has at least two nodes |
| RaftProgress.CommitNeedsMajority | pkg/consensus/raft_node.go:247-267 | Whatever is committed in a new cluster, more than half of the nodes took steps |
| RaftAvailability.Available | pkg/consensus/raft_node.go:101-401 | From every reachable state, whatever was lost or delayed before, for every majority and every node in it whose log is not behind another of theirs: steps of the majority alone lead to that node leading, its log extended by the given command, and every node of the majority having applied it; no other node changes |
| RaftAvailability.MajorityServes | pkg/consensus/raft_node.go:101-401 | So from every reachable state every majority of a cluster of at least two nodes can still take, commit and apply a command |
| RaftAvailability.Repair | pkg/consensus/raft_node.go:192-241 | One call after another, a leader gives a peer that is not past its term its whole log and learns of it; nothing it knows of other peers is lost, and whatever more than half then hold is committed |
| RaftAvailability.StandDown | pkg/consensus/raft_node.go:201-321 | A leader can always be made to stand down by one other node, without any log getting ahead of its own |
| RaftProgress.CommitsExactly | pkg/consensus/raft_node.go:247-267 | A cluster has a run in which something is committed if and only if it has at least two nodes |
| RaftBackoff.RefusedRound | pkg/consensus/raft_node.go:201-241 | In every run, a refused round lowers the leader's nextIndex for the peer by exactly one, and at 1 no round is refused |
| RaftBackoff.NextStays | pkg/consensus/raft_node.go:222-241 | In every run, nothing but an answer of the peer in the leader's term moves its nextIndex for the peer |
| RaftBackoff.BackoffTerminates | pkg/consensus/raft_node.go:201-241 | In every run in which a node leads a term, a peer is not past it and the peer's answers come from rounds sent one after another, while anything else happens: among the first nextIndex rounds one is accepted, and from its delivery on the leader's log as sent is a prefix of the peer's |
| RaftBackoff.BackoffAnyOrder | pkg/consensus/raft_node.go:201-241 | Without any order among the rounds: once the peer has answered one time less than nextIndex was to begin with, either one of the answers was an acceptance or the next round sent is accepted and repairs the peer |
| RaftBackoff.BackByRefusals | pkg/consensus/raft_node.go:222-241 | However calls and answers overlap, until an acceptance arrives nextIndex is lower by exactly the number of refusals, down to 1 |
| RaftBackoff.AcceptedRoundRepairs | pkg/consensus/raft_node.go:345-362 | After an accepted round the leader's log as sent is a prefix of the peer's at every moment until the leader falls or the peer moves past the term |
| RaftBackoff.AcceptedRoundTells | pkg/consensus/raft_node.go:222-241 | Its answer sets matchIndex to the last index sent and nextIndex to one more |
| RaftMerge.MergeAtConflict | pkg/consensus/raft_node.go:345-360 | At the first sent entry that meets one of another term, the log keeps everything before that place and takes the sent entries from there on |
| RaftMerge.MergeReplaces | pkg/consensus/raft_node.go:345-360 | That is the prefix through PrevLogIndex followed by all sent entries if and only if the entries kept in between are the sent ones |
| RaftMerge.MergeWithoutConflict | pkg/consensus/raft_node.go:345-360 | Where all overlapping terms agree the log is unchanged, or extended if it was shorter |
| RaftMerge.MergeIdempotent | pkg/consensus/raft_node.go:345-360 | Delivering the same entries again changes nothing |
| RaftMerge.MergeFromLeader | pkg/consensus/raft_node.go:345-360 | Merging a slice of a leader's log leaves the old log or the leader's through the slice, and loses nothing shared with the leader |
| RaftRuns.StepKeeps | pkg/consensus/raft_node.go:101-401 | Every enabled step keeps the cluster invariant and extends the history |
| RaftRuns.RunInv | pkg/consensus/raft_node.go:44-401 | The invariant holds in every state of every run from newly created nodes |
| RaftRuns.RunGrows | pkg/consensus/raft_node.go:101-401 | Along a run terms, votes, leader logs, acknowledgements and applied sequences only grow |
| Quorum.QuorumsMeet | pkg/consensus/raft_node.go:111-118 | Two majorities of the same nodes share a node |
| RaftReplicationSteps.ReplicatedIsCommitted | pkg/consensus/raft_node.go:247-267 | An entry of the leader's own term that a majority is known to hold is committed |
| RaftReplicationSteps.MatchCountIs | pkg/consensus/raft_node.go:253-258 | The counting loop counts the distinct peers whose matchIndex reaches the entry |
| RaftReplicationSteps.AdvanceKeeps | pkg/consensus/raft_node.go:247-267 | Moving the commit index keeps the invariant, and what was applied stays a prefix |
| RaftReplicationSteps.AcceptKeeps | pkg/consensus/raft_node.go:324-374 | Accepting an AppendEntries call keeps the invariant |
| RaftElectionSteps.ElectKeeps | pkg/consensus/raft_node.go:101-112 | Standing for election keeps the invariant |
| RaftElectionSteps.GrantKeeps | pkg/consensus/raft_node.go:288-321 | Granting a vote keeps the invariant |
| RaftLeaderSteps.WinKeeps | pkg/consensus/raft_node.go:164-172 | Taking office with a majority of votes keeps the invariant |
| RaftLeaderSteps.SubmitKeeps | pkg/consensus/raft_node.go:378-401 | A client command on a leader keeps the invariant |
| RaftNodes.RaftNode.constructor | pkg/consensus/raft_node.go:44-67 | A new node is a follower of term 0 with only the dummy entry |
| RaftNodes.RaftNode.StepDown | pkg/consensus/raft_node.go:157-162 | The new state is that of the handler function |
| RaftNodes.RaftNode.TakeOffice | pkg/consensus/raft_node.go:164-172 | The new state is that of the handler function, its peer indices are in bounds, and one heartbeat goes to every peer |
| RaftNodes.RaftNode.HeartbeatFor | pkg/consensus/raft_node.go:201-219 | The call for a peer is the one the handler function gives, with both log reads in range |
| RaftNodes.RaftNode.BroadcastHeartbeats | pkg/consensus/raft_node.go:192-219 | The loop sends exactly the calls of a broadcast; none where the node does not lead |
| RaftNodes.RaftNode.BeginElection | pkg/consensus/raft_node.go:101-155 | New state, vote requests and (for a one-node cluster) heartbeats are those of the handler functions |
| RaftNodes.RaftNode.OnVoteReply | pkg/consensus/raft_node.go:131-152 | The new state is that of the handler function; a counted vote makes the candidate leader if and only if it now has the votes of more than half of the nodes |
| RaftNodes.RaftNode.OnAppendReply | pkg/consensus/raft_node.go:222-241 | The new state is that of the handler function and peer indices stay in bounds |
| RaftNodes.RaftNode.CheckAdvanceCommitIndex | pkg/consensus/raft_node.go:247-267 | The downward loop leaves the commit index at the highest entry of the current term that more than half of the nodes hold, if that is above it, and changes nothing otherwise |
| RaftNodes.RaftNode.CountMatches | pkg/consensus/raft_node.go:253-258 | The loop counts the leader and the peers that have reached the index |
| RaftNodes.RaftNode.SendApplied | pkg/consensus/raft_node.go:269-285 | The loop sends one message per newly committed entry, in order, with the entry's index, term, key, value and tombstone, leaving out entries of index 0 |
| RaftNodes.RaftNode.RequestVote | pkg/consensus/raft_node.go:288-321 | New state and reply are those of the handler function |
| RaftNodes.RaftNode.AppendEntries | pkg/consensus/raft_node.go:324-374 | New state and reply are those of the handler function |
| RaftNodes.RaftNode.MergeEntries | pkg/consensus/raft_node.go:345-360 | The in-place loop leaves the merged log |
| RaftNodes.RaftNode.SubmitCommand | pkg/consensus/raft_node.go:378-401 | A leader appends the command at the next index and broadcasts; any other node refuses |
| Crc32.BurstChanges | pkg/bench/wal.go:112-113 | Data that differ only within four consecutive bytes, anywhere, have different CRC-32s, as section 8 of RFC 1952 defines them |
| Crc32.KnownValues | pkg/bench/wal.go:112-113 | The checksums of FF FF FF FF and FF FF FF 7F, stored most significant byte first |
| Crc32.PolynomialIs | pkg/bench/wal.go:112-113 | The generator has exactly the terms of the CRC-32 polynomial |
| Bytes.LessIsLexicographic | pkg/storage/memtable.go:104-106 | Keys are compared as bytes.Compare does: at the first place where they differ, a proper prefix coming first |
| Bytes.BigEndianFour | pkg/bench/wal.go:97-113 | Four bytes are read with the most significant first |
| Bytes.LittleEndianReversed | cpp/src/lumafly_bloom.cpp:116-131 | The other layout reads the same bytes in reverse |
| Records.RecordBytes | pkg/bench/wal.go:91-116 | What lies where in a record: checksum over the rest at 0, key length at 4, value length at 8, flag at 12, then key and value |
| Records.ParseEncoded | pkg/bench/wal.go:91-116 | An encoded record reads back as itself, whatever bytes follow |
| Records.ParseCut | pkg/bench/wal.go:174-195 | Every proper prefix of an encoded record reads as torn |
| Records.ParseDamaged | pkg/bench/wal.go:197-205 | Any change to up to four bytes in a row of a record, its eight length bytes untouched, makes its checksum wrong |
| Records.OneByteBurst | pkg/bench/wal.go:197-205 | Every single changed byte outside the lengths is such a change |
| Records.ReadRecord | pkg/bench/wal.go:174-214 | Reading at a position gives the parse of the rest of the data, body length added in 32 bits |
| Wal.TornTail | pkg/bench/wal.go:169-219 | For every list of records and every cut, recovery ends without error with exactly the records wholly before the cut |
| Wal.WholeBeforeExact | pkg/bench/wal.go:169-219 | A record counts as wholly before the cut exactly when the encodings through it end there or earlier |
| Wal.ScanAfter | pkg/bench/wal.go:169-219 | Behind a run of good records reading goes on as if they were not there |
| Wal.CorruptionDetected | pkg/bench/wal.go:197-205 | Any change to up to four bytes in a row outside the length fields of a record ends the scan with a checksum mismatch after exactly the records before it |
| Wal.DamagedInPlace | pkg/bench/wal.go:197-205 | The damaged file is the written file with nothing changed but the bytes where that record lies |
| Wal.StopsBehind | pkg/bench/wal.go:169-219 | Behind good records nothing is read, without error, if and only if the rest is too short for what its own header announces; with a checksum mismatch if and only if the announced bytes are there and do not match |
| Wal.LengthCorruption | pkg/bench/wal.go:186-205 | A record overwritten by any bytes, lengths included: it goes unnoticed and drops the rest of the log if and only if the lengths now there reach past the end of the file; it is reported if and only if they do not and the bytes they cover do not match the checksum |
| Wal.SilentlyLost | pkg/bench/wal.go:186-195 | A log of one empty record with one length byte raised reads as an empty log |
| Wal.BehindTornTail | pkg/bench/wal.go:65-87 | Reopened behind a record cut anywhere, nothing more is read and no error is reported if and only if cut record and appended bytes together are too short for the lengths at their front |
| Wal.LostAfterTornTail | pkg/bench/wal.go:65-87 | For a cut behind the header: nothing more is read, without an error, if and only if the appended bytes do not fill the hole |
| Wal.CutAtBoundary | pkg/bench/wal.go:65-87 | Cut between two records, everything before and everything appended is recovered |
| Wal.WriteLost | pkg/bench/wal.go:65-87 | A concrete torn record and the record written after it, which is lost |
| Wal.ScanContinues | pkg/bench/wal.go:169-219 | For files of any contents, reading what was appended goes on from what was left unread |
| Wal.StuckForGood | pkg/bench/wal.go:197-205 | Behind a record that is refused nothing is ever read again, whatever is appended |
| Wal.ReopenedExactly | pkg/bench/wal.go:65-87 | Whatever record is appended to a reopened file is recovered behind those read before if and only if the file had been read to its last byte, for files of any contents |
| Wal.ProbeLost | pkg/bench/wal.go:65-87 | Behind any unread rest, torn or refused, a record that is not recovered when it is appended |
| Wal.ReopenedWhole | pkg/bench/wal.go:65-87 | Behind a file read to its last byte every list of records is recovered, in order and without an error |
| Wal.ParsedLengths | pkg/bench/wal.go:182-214 | A record that is read has the key and value lengths its header announces, although their sum is computed in 32 bits |
| Wal.StolenByte | pkg/bench/wal.go:65-87 | A torn record that takes its missing byte from the record appended next: it comes back whole, the appended one is gone, and no error is reported |
| Wal.EncodeRecord | pkg/bench/wal.go:91-116 | Filling the buffer by position gives the record format with the checksum over everything behind it |
| Wal.WAL.constructor | pkg/bench/wal.go:65-87 | Opening keeps what the file holds and knows its size |
| Wal.WAL.Append | pkg/bench/wal.go:119-142 | The file grows by exactly the encoded record, or not at all when closed; the size follows |
| Wal.WAL.Recover | pkg/bench/wal.go:156-227 | On an open log: cut anywhere, exactly the records wholly before the cut and no error; with up to four bytes in a row changed outside the lengths of a record, the corruption error and no records; in general the outcome of the scan |
| Wal.WAL.Close | pkg/bench/wal.go:307-321 | The log refuses from now on and keeps its contents |
| Wal.ReplaySegment | pkg/bench/wal.go:250-300 | One segment's records join what was applied before, up to a bad record |
| Wal.ReplayWAL | pkg/bench/wal.go:231-304 | The callback sees the records of all segments in order, up to the first segment that does not end cleanly, and the count is their number |
| Wal.WholeSegments | pkg/bench/wal.go:231-304 | Replaying whole segments gives their records in order, then whatever the files behind them give |
| Wal.DamagedSegment | pkg/bench/wal.go:282-290 | A changed record ends the replay with an error: the segments before it and its own records before that one count, no later file does |
| OrderedMap.FindUpsert | pkg/storage/memtable.go:95-150 | An insert is a map update: its key reads as the new record, all others as before |
| OrderedMap.UpsertAscending | pkg/storage/memtable.go:95-150 | An insert keeps the keys strictly ascending |
| OrderedMap.TotalUpsert | pkg/storage/memtable.go:113-148 | An insert changes the total size by what it adds less what it replaces |
| OrderedMap.AscendingUnique | pkg/storage/memtable.go:190-213 | An ordered list is determined by the map it represents |
| OrderedMap.FindPlay | pkg/storage/memtable.go:85-173 | After any run of writes every key reads as its last write |
| OrderedMap.HistoryIrrelevant | pkg/storage/memtable.go:176-187 | Contents and size depend on the map alone, not on the history |
| OrderedMap.OrderedIsPlay | pkg/storage/memtable.go:85-150 | Every ordered list is the contents after some run of writes |
| MemTables.MemTable.constructor | pkg/storage/memtable.go:51-72 | A new table is empty and well formed, with defaults for options that are not positive |
| MemTables.MemTable.RandomLevel | pkg/storage/memtable.go:75-81 | One level more for each flip won in a row, up to the maximum |
| MemTables.MemTable.FindPredecessors | pkg/storage/memtable.go:99-108 | The descent ends at the last smaller node and keeps, per level, the node whose pointer passes the key's place |
| MemTables.Splice | pkg/storage/memtable.go:143-146 | Rewiring the predecessors level by level leaves every pointer leading to the next node of its level |
| MemTables.MemTable.Overwrite | pkg/storage/memtable.go:112-123 | Exactly one record changes, and the size by the difference |
| MemTables.MemTable.Insert | pkg/storage/memtable.go:95-150 | For any coin flips: well-formedness stays, the contents are the ordered-map insert, the size is the sum of lengths, the result compares it with the threshold, and a new key's node is as tall as the flips say |
| MemTables.MemTable.Put | pkg/storage/memtable.go:85-87 | Inserts a live record |
| MemTables.MemTable.Delete | pkg/storage/memtable.go:91-93 | Inserts a tombstone without value |
| MemTables.MemTable.Get | pkg/storage/memtable.go:154-173 | The pointer walk finds exactly what linear lookup in the ordered contents finds |
| MemTables.MemTable.IsFull | pkg/storage/memtable.go:183-187 | The total size of the contents has reached the threshold |
| MemTables.MemTable.ChainIsTall | pkg/storage/memtable.go:17-22 | Following one level's pointers meets exactly the nodes tall enough for it, in order |
| MemTables.MemTable.LevelsNest | pkg/storage/memtable.go:95-150 | Every level is strictly sorted and a sublist of the level below |
| MemTables.Iterator.Next | pkg/storage/memtable.go:207-213 | Steps to the next record in order; at the end gives nothing and stays |
| MemTables.Iterator.HasNext | pkg/storage/memtable.go:202-204 | Whether a record is left |
| MemTables.Drain | pkg/storage/memtable.go:190-213 | Iterating yields every record once, in strictly ascending lexicographic order of keys |
| Bloom.NoFalseNegatives | cpp/src/lumafly_bloom.cpp:81-108 | After any additions every added key is contained, for every hash function and size |
| Bloom.MayContainExact | cpp/src/lumafly_bloom.cpp:81-108 | A key is contained exactly when every bit it names is named by some added key |
| Bloom.FilterRoundTrip | cpp/src/lumafly_bloom.cpp:116-150 | Serializing and deserializing gives back the same filter, so the same answers |
| Bloom.FilterBytes | cpp/src/lumafly_bloom.cpp:116-131 | What lies where in a serialized filter: the two sizes in little-endian, then the bits |
| Bloom.FilterCut | cpp/src/lumafly_bloom.cpp:133-142 | A serialized filter cut anywhere is refused |
| Bloom.BitIndexProbed | cpp/src/lumafly_bloom.cpp:84-91 | Hash number i names the bit reached from the first hash by adding the second i times in 32 bits |
| Bloom.OneBit | cpp/src/lumafly_bloom.cpp:90-90 | Bit n is the one of value 2^(n mod 8) in byte n / 8 |
| Bloom.SetBitExact | cpp/src/lumafly_bloom.cpp:90 | Setting a bit turns on that bit and no other |
| Bloom.LumaflyBloom.constructor | cpp/src/lumafly_bloom.cpp:58-79 | A clear filter of at least 64 bits and one hash |
| Bloom.LumaflyBloom.Add | cpp/src/lumafly_bloom.cpp:81-92 | The loop sets every bit the key names, all in bounds |
| Bloom.LumaflyBloom.Contains | cpp/src/lumafly_bloom.cpp:94-108 | The loop with early exit answers whether every named bit is on |
| Bloom.LumaflyBloom.Serialize | cpp/src/lumafly_bloom.cpp:116-130 | The two sizes in little-endian 64 bits, then the bits |
| Bloom.Deserialize | cpp/src/lumafly_bloom.cpp:132-150 | The filter the buffer holds, or null where it is too short, byte count computed in 64 bits |
| SSTableFormat.MarksExact | pkg/storage/sstable.go:105-112 | The indexed positions are exactly the multiples of the interval, the first record always among them |
| SSTableFormat.IndexAtMarks | pkg/storage/sstable.go:105-112 | The index holds the key and data-block offset of exactly the marked records |
| SSTableFormat.IndexRoundTrip | pkg/storage/sstable.go:143-153 | The index block reads back as the index |
| SSTableFormat.FooterRoundTrip | pkg/storage/sstable.go:181-186 | The footer reads back as written |
| SSTableFormat.OpenBuilt | pkg/storage/sstable.go:205-286 | Opening a built file gives back footer, index and filter |
| SSTableFormat.FileBytes | pkg/storage/sstable.go:143-192 | What lies where in a table file: records, index, filter, and in the last 32 bytes offset and length of index and filter |
| SSTableFormat.IndexEntryBytes | pkg/storage/sstable.go:143-153 | What lies where in the index: key length, key and offset of every entry, behind the entries before it |
| SSTableFormat.IndexCut | pkg/storage/sstable.go:244-265 | An index cut anywhere: up to three bytes behind its whole entries are ignored, more are refused |
| SSTableFormat.OpenReports | pkg/storage/sstable.go:205-286 | For files of any contents, which part stops opening first and with which error, or what is read |
| SSTableLookup.SearchBoundary | pkg/storage/sstable.go:309-312 | Bisection finds the boundary between index keys up to the key and those above |
| SSTableLookup.ScanFinds | pkg/storage/sstable.go:334-383 | Scanning ordered records with early stop finds what linear lookup finds |
| SSTableLookup.FindWithin | pkg/storage/sstable.go:309-325 | A key can only lie in the bracket the index points to |
| SSTableLookup.LookupRefinesFind | pkg/storage/sstable.go:290-384 | For every ordered list, interval, filter size, hash and key: lookup through filter, index, bracket and early stop equals linear lookup in value, tombstone flag and presence |
| SSTableLookup.BuildOpenLookup | pkg/storage/sstable.go:70-384 | The same through the bytes of the file: built, opened, looked up |
| SSTableDamage.OpenDamaged | pkg/storage/sstable.go:205-286 | Bytes of a record overwritten by any others are not noticed on opening |
| SSTableDamage.LookupDamaged | pkg/storage/sstable.go:337-383 | After any change to up to four bytes in a row outside the length fields of a record, a lookup that reads the record reports corruption and every other lookup answers as before |
| SSTableDamage.LookupOverwritten | pkg/storage/sstable.go:337-383 | After any overwriting of a record, lengths included, a lookup that reads it answers "absent" without an error when the lengths now there reach past the end of its bracket, and reports corruption when they do not and the bytes they cover do not match; every other lookup answers as before |
| SSTableDamage.ScanBehind | pkg/storage/sstable.go:337-383 | A scan gets to what lies behind ordered records exactly when all their keys are smaller than the one looked for, and answers as a linear lookup in them otherwise |
| SSTables.SSTableReader.SearchIndex | pkg/storage/sstable.go:309-312 | The bisection loop gives the position of the first entry above the key |
| SSTables.ScanData | pkg/storage/sstable.go:334-383 | The scan loop gives the result of the specification scan |
| SSTables.SSTableReader.Get | pkg/storage/sstable.go:290-384 | The lookup of the specification, including its error cases; nothing is found after closing |
| SSTables.ReadIndex | pkg/storage/sstable.go:243-264 | The loop reads the index entries, ignoring fewer than four bytes left over and refusing a cut entry |
| SSTables.OpenSSTable | pkg/storage/sstable.go:205-286 | A reader on the table the file holds, or the error that stopped it |
| SSTables.WriteData | pkg/storage/sstable.go:91-141 | The loop writes the encodings, the sparse index with right offsets, and a filter holding every key |
| SSTables.WriteIndex | pkg/storage/sstable.go:143-153 | The loop writes the index block |
| SSTables.BuildSSTable | pkg/storage/sstable.go:70-202 | The file is data block, index, filter and footer of the table's contents, and opens as such |
| CompactionMeaning.FindLive | pkg/storage/compaction.go:97-102 | Dropping tombstones keeps exactly the keys whose record is live |
| CompactionMeaning.MergedFind | pkg/storage/compaction.go:83-109 | A key reads as its last entered record, tombstones hidden; with nothing live only the sentinel reads |
| CompactionExact.CollectTaken | pkg/storage/compaction.go:58-81 | From tables without damage the compactor takes exactly their indexed records, in order |
| CompactionExact.FullMerge | pkg/storage/compaction.go:49-124 | With interval 1 everything is taken, and with something live every key reads as before |
| CompactionExact.PreservesExactly | pkg/storage/compaction.go:58-111 | Clients see the same before and after if and only if every unindexed newest record is masked by the newest indexed one in older tables; with nothing live left, if and only if the sentinel was all there was |
| CompactionExact.PreservedWhenLive | pkg/storage/compaction.go:58-111 | The first case of that |
| CompactionExact.PreservedWhenDead | pkg/storage/compaction.go:104-108 | The second |
| CompactionExact.LostKey | pkg/storage/compaction.go:64-81 | For every interval above 1 a live key is lost |
| CompactionExact.ResurrectedKey | pkg/storage/compaction.go:64-81 | For every interval above 1 a deleted key reads as its old value |
| CompactionExact.InventedKey | pkg/storage/compaction.go:104-108 | Compacting a single tombstone makes the sentinel key readable |
| CompactionDamage.CollectDamaged | pkg/storage/compaction.go:64-79 | From a table with one record overwritten by bytes that do not pass for a record there, the compactor takes every indexed record but that one, without an error |
| CompactionDamage.BurstSpoils | pkg/storage/sstable.go:337-383 | Every change to up to four bytes in a row outside the length fields is such an overwriting |
| CompactionDamage.CollectAllDamaged | pkg/storage/compaction.go:58-81 | The same for all tables together, one of them damaged |
| CompactionDamage.DamageSeen | pkg/storage/compaction.go:58-111 | The key of an indexed damaged record that no later table has indexed then reads as its last indexed version in the older tables or not at all; every other key reads as without the damage |
| CompactionDamage.CompactedDamaged | pkg/storage/compaction.go:49-124 | No lookup crashes the compactor, and lookups in the new file answer from the records taken, the damaged one missing |
| CompactionDamage.CompactDamaged | pkg/storage/compaction.go:49-124 | Compaction of such tables reports success, closes the old readers and leaves that file |
| CompactionDamage.ReadsOnlyItself | pkg/storage/sstable.go:309-383 | A lookup of an indexed key reads no record but its own |
| CompactionDamage.BracketOfMark | pkg/storage/sstable.go:309-325 | The stretch scanned for an indexed key starts at the key's own record |
| Compaction.TakeFrom | pkg/storage/compaction.go:58-81 | The map holds the last record of every key after one more reader; failed lookups are passed over |
| Compaction.TakeAll | pkg/storage/compaction.go:58-81 | The same for all readers in order |
| Compaction.SortedKeys | pkg/storage/compaction.go:83-88 | All keys of the map, in strictly ascending lexicographic order |
| Compaction.FillTable | pkg/storage/compaction.go:90-102 | The new memory table holds exactly the live entries |
| Compaction.MergeIntoTable | pkg/storage/compaction.go:83-108 | The merged contents, or the sentinel |
| Compaction.CompactL0ToL1 | pkg/storage/compaction.go:49-124 | The new file is the table of the merged contents and the old readers are closed; with no readers, a crash or a failed build nothing is closed |
| Compaction.MergedLookup | pkg/storage/compaction.go:49-124 | Looking a key up in the compacted file gives what linear lookup in the merged contents gives, whatever was taken |
| Compaction.CompactedLookup | pkg/storage/compaction.go:49-124 | For tables in good order that is the later-table-wins overlay of indexed records without tombstones |
| Compaction.GoodCrashFree | pkg/storage/compaction.go:66-69 | Tables without damage never make the compactor panic |
| Server.ApplyRecord | cmd/hallownestd/main.go:243-249 | A replayed record enters the table as put, or as delete without a value |
| Server.Restart | cmd/hallownestd/main.go:240-254 | The new table holds the effect of all records read, in order |
| Server.CrashRecovery | pkg/bench/wal.go:231-304 | Replaying any byte prefix of a log of writes gives the contents after a prefix of the writes, all of them for the whole log |
| Server.StagwayServer.constructor | pkg/network/server.go:56-63 | A server that is not running over the given parts, the log file holding anything at all |
| Server.StagwayServer.Store | pkg/network/server.go:236-243 | Log and table take the write, and the log holds all writes while it is open |
| Server.StagwayServer.Write | pkg/network/server.go:210-245 | Refused when not running or not leading, otherwise submitted and stored at once |
| Server.StagwayServer.PutGeo | pkg/network/server.go:210-245 | The write joins the accepted writes, or the error that refused it and no change |
| Server.StagwayServer.FocusTombstone | pkg/network/server.go:265-297 | The same for a deletion |
| Server.StagwayServer.GetGeo | pkg/network/server.go:248-262 | The most recent accepted write to the key |
| Server.StagwayServer.RestartAgrees | pkg/network/server.go:236-245 | Started on a log that ends with a whole record, after any writes: restarting on any prefix of the log gives the table after some prefix of all writes; on the whole log the live table and the same size |
| Server.StagwayServer.CrashAtBoundary | pkg/network/server.go:236-245 | A crash between two records leaves a log that ends with a whole record, so the same holds after any number of such crashes |
| Server.StagwayServer.RestartLoses | cmd/hallownestd/main.go:233-254 | Started on a log of any contents: nothing more is read than at the start if and only if what was left unread then, with the writes since behind it, does not begin with a good record; behind a refused record always |
| Server.StagwayServer.RestartRecovers | cmd/hallownestd/main.go:233-254 | Started on a log read to its last byte, all writes since are recovered, and with them the live table |
| Server.RestartExactly | cmd/hallownestd/main.go:233-254 | Whatever the server goes on to write is recovered by a restart if and only if start-up had read the log to its last byte |

## Left out

- Timers, randomised timeouts, tickers and blocking on the apply channel: a timeout is a step that may happen at any
  moment, and nothing is claimed about when.
- Raft persistence and restart: term, vote and log live in memory only, so nothing is claimed across a restart.
- The in-memory network's delivery of each call at most once: append calls and their replies may be delivered more
  often here, vote calls and replies at most once.
- File system errors, fsync, file removal and segment rolling: files are byte sequences that are read and written
  successfully; allocation never fails for lack of memory.
- Records whose header, key and value come to 4 GiB or more, and files of 2^63 bytes or more.
- The byte order of the machine: the filter's two sizes are stored in it, here the least significant byte first.
- Floating-point sizing of the filter, its false-positive rate and MurmurHash: sizes and hash are parameters.
- RandomLevel: the coin flips are a parameter, so their distribution is not modelled.
- Memory management across cgo, locks as such, and using an iterator while the table changes.
- The goroutine that applies committed commands to the memory table a second time (cmd/hallownestd/main.go:264-274).
- Wire protocol, HTTP gateway, dashboard, command-line client and benchmarks.
- The `CRC32` field of recovered log entries and log messages.
- 64-bit overflow of terms and indices.
