/**
 * How a leader finds the point from which a peer's log must be repaired: one RPC round after another, each refusal
 * stepping back by one (pkg/consensus/raft_node.go:201-241, 345-362). All of it is about runs of the cluster, in
 * which anything else may happen meanwhile.
 */
module RaftBackoff {
  import opened RaftTypes
  import opened RaftHandlers
  import opened RaftCluster
  import opened RaftInvariants
  import opened RaftReplicationSteps
  import opened RaftRuns
  import opened RaftSafety

  /** One RPC: the leader's state at moment `sent` is what the call carries; steps `delivered` and `answered` follow. */
  datatype Round = Round(sent: nat, delivered: nat, answered: nat)

  function CallOf(run: seq<Cluster>, n: int, p: int, r: Round): AppendRequest
    requires r.sent < |run| && n in run[r.sent].nodes
  {
    AppendRequestTo(run[r.sent].nodes[n], p)
  }

  function ReplyOf(run: seq<Cluster>, n: int, p: int, r: Round): AppendEntriesReply
    requires r.sent < |run| && n in run[r.sent].nodes && r.delivered < |run| && p in run[r.delivered].nodes
  {
    HandleAppendEntries(run[r.delivered].nodes[p], CallOf(run, n, p, r).args).1
  }

  /** The call is delivered to `p`, and later what `p` answered to it is delivered to `n`. */
  predicate IsRound(run: seq<Cluster>, acts: seq<Action>, n: int, p: int, r: Round) {
    && r.sent <= r.delivered < r.answered < |acts| < |run| && n in run[r.sent].nodes && p in run[r.delivered].nodes
    && var args := CallOf(run, n, p, r).args;
    && acts[r.delivered] == DeliverAppendRequest(CallOf(run, n, p, r))
    && acts[r.answered] == DeliverAppendResponse(
         AppendResponse(p, n, args.term, args.prevLogIndex, |args.entries|, ReplyOf(run, n, p, r)))
  }

  predicate Accepted(run: seq<Cluster>, acts: seq<Action>, n: int, p: int, r: Round) {
    IsRound(run, acts, n, p, r) && ReplyOf(run, n, p, r).success
  }

  /** The leader's log as the call was sent is a prefix of the peer's at every moment from its delivery through `j`. */
  predicate Repairs(run: seq<Cluster>, n: int, p: int, r: Round, j: nat)
    requires j < |run|
  {
    forall k | r.delivered < k <= j ::
      r.sent < |run| && n in run[r.sent].nodes && p in run[k].nodes && run[r.sent].nodes[n].log <= run[k].nodes[p].log
  }

  /** From moment `i` through `j`, node `n` leads term `t` and `p` is another node that is not past it. */
  predicate Leading(run: seq<Cluster>, i: nat, j: nat, n: int, p: int, t: nat) {
    && i <= j < |run| && p != n
    && forall k | i <= k <= j :: Leads(run[k], n, t) && p in run[k].nodes && run[k].nodes[p].currentTerm <= t
  }

  /** The step hands `n` an answer of `p` from term `t`. */
  predicate AnswersIn(a: Action, n: int, p: int, t: nat) {
    a.DeliverAppendResponse? && a.ar.to == n && a.ar.from == p && a.ar.term == t
  }

  /**
   * From `i` to `j` the leader gets answers of `p` from the given rounds only, and each round is sent when the one
   * before has been answered. Calls whose answer is lost, other nodes' messages, timeouts, heartbeats and client
   * commands may come at any time.
   */
  ghost predicate OneAtATime(run: seq<Cluster>, acts: seq<Action>, i: nat, j: nat, n: int, p: int, t: nat,
                             rounds: seq<Round>)
    requires |acts| < |run| && i <= j <= |acts|
  {
    && (forall x | 0 <= x < |rounds| ::
          IsRound(run, acts, n, p, rounds[x]) && i <= rounds[x].sent && rounds[x].answered < j)
    && (forall x, y | 0 <= x < y < |rounds| :: rounds[x].answered < rounds[y].sent)
    && (forall k | i <= k < j && AnswersIn(acts[k], n, p, t) :: exists x :: 0 <= x < |rounds| && rounds[x].answered == k)
  }

  function NextOf(c: Cluster, n: int, p: int): nat
    requires n in c.nodes
  {
    Lookup(c.nodes[n].nextIndex, p)
  }

  // ---------- What moves the next index ----------

  /** Only an answer of the peer in the leader's term moves the peer's next index. */
  lemma NextKept(c: Cluster, a: Action, n: int, p: int, t: nat)
    requires Enabled(c, a) && Leads(c, n, t) && Leads(Step(c, a), n, t) && !AnswersIn(a, n, p, t)
    ensures NextOf(Step(c, a), n, p) == NextOf(c, n, p)
  {
    hide Merge, Messages, CommitPoint;
  }

  lemma {:induction false} NextStays(run: seq<Cluster>, acts: seq<Action>, i: nat, j: nat, n: int, p: int, t: nat)
    requires Behaves(run, acts) && Leading(run, i, j, n, p, t)
    requires forall k | i <= k < j :: !AnswersIn(acts[k], n, p, t)
    ensures NextOf(run[j], n, p) == NextOf(run[i], n, p)
    decreases j
  {
    hide Step, Enabled, AnswersIn;
    if i < j {
      NextStays(run, acts, i, j - 1, n, p, t);
      assert Enabled(run[j - 1], acts[j - 1]) && run[j] == Step(run[j - 1], acts[j - 1]);
      NextKept(run[j - 1], acts[j - 1], n, p, t);
    }
  }

  /** Both logs start with the dummy entry, and the leader's indices are in bounds. */
  lemma PairNow(run: seq<Cluster>, acts: seq<Action>, k: nat, n: int, p: int, t: nat)
    requires Behaves(run, acts) && k < |run| && Leads(run[k], n, t) && p in run[k].nodes && p != n
    ensures run[k].nodes[n].log[0] == run[k].nodes[p].log[0] == DUMMY
    ensures run[k].nodes[n].id == n && 1 <= NextOf(run[k], n, p) <= |run[k].nodes[n].log|
  {
    hide Inv, Behaves;
    var h := HistoryAt(run, acts, k);
    RunInv(run, acts, k);
    MemberNow(run[k], h, n);
    LogNow(run[k], h, n);
    LogNow(run[k], h, p);
  }

  /** A refused round moves the leader back by exactly one; at index 1 none is refused. */
  lemma RefusedRound(run: seq<Cluster>, acts: seq<Action>, i: nat, j: nat, n: int, p: int, t: nat, r: Round)
    requires Behaves(run, acts) && Leading(run, i, j, n, p, t)
    requires IsRound(run, acts, n, p, r) && i <= r.sent && r.answered < j && !Accepted(run, acts, n, p, r)
    requires NextOf(run[r.answered], n, p) == NextOf(run[r.sent], n, p)
    ensures NextOf(run[r.sent], n, p) > 1 && NextOf(run[r.answered + 1], n, p) == NextOf(run[r.sent], n, p) - 1
  {
    hide Merge, Messages, CommitPoint, Broadcast;
    assert Leads(run[r.sent], n, t) && Leads(run[r.answered], n, t) && run[r.delivered].nodes[p].currentTerm <= t;
    PairNow(run, acts, r.sent, n, p, t);
    PairNow(run, acts, r.delivered, n, p, t);
    assert run[r.answered + 1] == Step(run[r.answered], acts[r.answered]);
  }

  // ---------- Termination ----------

  /** The moment round `x` starts from: the window's start, or when the round before has been answered. */
  function StartOf(rounds: seq<Round>, x: nat, i: nat): nat
    requires x <= |rounds|
  {
    if x == 0 then i else rounds[x - 1].answered + 1
  }

  /** No answer of the peer comes between the start of round `x` and its own answer. */
  lemma QuietBefore(run: seq<Cluster>, acts: seq<Action>, i: nat, j: nat, n: int, p: int, t: nat, rounds: seq<Round>,
                    x: nat, k: nat)
    requires |acts| < |run| && i <= j <= |acts| && OneAtATime(run, acts, i, j, n, p, t, rounds) && x < |rounds|
    requires StartOf(rounds, x, i) <= k < rounds[x].answered
    ensures i <= k < j && !AnswersIn(acts[k], n, p, t)
  {
    hide IsRound, AnswersIn;
    assert x > 0 ==> rounds[x - 1].answered < rounds[x].sent;
    assert IsRound(run, acts, n, p, rounds[x]) && rounds[x].answered < j;
    assert x > 0 ==> IsRound(run, acts, n, p, rounds[x - 1]) && i <= rounds[x - 1].sent;
    if x > 0 {
      RoundOrder(run, acts, n, p, rounds[x - 1]);
    }
    RoundOrder(run, acts, n, p, rounds[x]);
    if AnswersIn(acts[k], n, p, t) {
      var y :| 0 <= y < |rounds| && rounds[y].answered == k;
      RoundOrder(run, acts, n, p, rounds[y]);
    }
  }

  lemma RoundOrder(run: seq<Cluster>, acts: seq<Action>, n: int, p: int, r: Round)
    requires IsRound(run, acts, n, p, r)
    ensures r.sent <= r.delivered < r.answered < |acts|
  {
  }

  /** While all rounds are refused, each takes the next index down by one, and it never gets to 0. */
  lemma {:induction false} AllRefused(run: seq<Cluster>, acts: seq<Action>, i: nat, j: nat, n: int, p: int, t: nat,
                                      rounds: seq<Round>, x: nat)
    requires Behaves(run, acts) && Leading(run, i, j, n, p, t) && OneAtATime(run, acts, i, j, n, p, t, rounds)
    requires x <= |rounds| && forall y | 0 <= y < x :: !Accepted(run, acts, n, p, rounds[y])
    ensures i <= StartOf(rounds, x, i) <= j
    ensures NextOf(run[StartOf(rounds, x, i)], n, p) == NextOf(run[i], n, p) - x
    ensures x < NextOf(run[i], n, p)
    decreases x
  {
    hide IsRound, Accepted, AnswersIn, NextOf, Step, Enabled, Initial;
    if x == 0 {
      PairNow(run, acts, i, n, p, t);
    } else {
      var r, start := rounds[x - 1], StartOf(rounds, x - 1, i);
      AllRefused(run, acts, i, j, n, p, t, rounds, x - 1);
      assert IsRound(run, acts, n, p, r) && i <= r.sent && r.answered < j;
      RoundOrder(run, acts, n, p, r);
      assert x > 1 ==> rounds[x - 2].answered < r.sent;
      forall k | start <= k < r.answered
        ensures !AnswersIn(acts[k], n, p, t)
      {
        QuietBefore(run, acts, i, j, n, p, t, rounds, x - 1, k);
      }
      NextStays(run, acts, start, r.sent, n, p, t);
      NextStays(run, acts, start, r.answered, n, p, t);
      RefusedRound(run, acts, i, j, n, p, t, r);
    }
  }

  /**
   * With as many rounds as the next index to begin with, one is accepted, and the leader's log as sent in it is a
   * prefix of the peer's from then on.
   */
  lemma BackoffTerminates(run: seq<Cluster>, acts: seq<Action>, i: nat, j: nat, n: int, p: int, t: nat,
                          rounds: seq<Round>)
    requires Behaves(run, acts) && Leading(run, i, j, n, p, t) && OneAtATime(run, acts, i, j, n, p, t, rounds)
    requires |rounds| >= NextOf(run[i], n, p)
    ensures exists x :: 0 <= x < NextOf(run[i], n, p)
              && Accepted(run, acts, n, p, rounds[x]) && Repairs(run, n, p, rounds[x], j)
  {
    hide Accepted, Repairs, NextOf, IsRound, AnswersIn, Step, Enabled, Initial;
    var first := NextOf(run[i], n, p);
    if forall y | 0 <= y < first :: !Accepted(run, acts, n, p, rounds[y]) {
      AllRefused(run, acts, i, j, n, p, t, rounds, first);
    } else {
      var x :| 0 <= x < first && Accepted(run, acts, n, p, rounds[x]);
      RoundOrder(run, acts, n, p, rounds[x]);
      AcceptedRoundRepairs(run, acts, i, j, n, p, t, rounds[x]);
    }
  }

  // ---------- Rounds that overlap ----------

  /** How many answers of `p` from term `t` the steps hand to `n`. */
  function AnswerCount(acts: seq<Action>, n: int, p: int, t: nat): nat {
    if acts == [] then 0
    else AnswerCount(acts[..|acts| - 1], n, p, t) + if AnswersIn(acts[|acts| - 1], n, p, t) then 1 else 0
  }

  lemma AnswerCountNext(acts: seq<Action>, i: nat, k: nat, n: int, p: int, t: nat)
    requires i <= k < |acts|
    ensures AnswerCount(acts[i..k + 1], n, p, t) == AnswerCount(acts[i..k], n, p, t) +
              if AnswersIn(acts[k], n, p, t) then 1 else 0
  {
    hide AnswersIn;
    assert acts[i..k + 1][..k - i] == acts[i..k];
  }

  lemma {:induction false} AnswerCountGrows(acts: seq<Action>, i: nat, k: nat, j: nat, n: int, p: int, t: nat)
    requires i <= k <= j <= |acts|
    ensures AnswerCount(acts[i..k], n, p, t) <= AnswerCount(acts[i..j], n, p, t)
    decreases j
  {
    hide AnswersIn, AnswerCount;
    if k < j {
      AnswerCountGrows(acts, i, k, j - 1, n, p, t);
      AnswerCountNext(acts, i, j - 1, n, p, t);
    }
  }

  /** Some step hands `n` an acceptance of `p` from term `t`. */
  ghost predicate Succeeds(acts: seq<Action>, i: nat, k: nat, n: int, p: int, t: nat)
    requires i <= k <= |acts|
  {
    exists x :: i <= x < k && AnswersIn(acts[x], n, p, t) && acts[x].ar.reply.success
  }

  /** The step of a refusal, whenever its call was sent: one back, but not below 1. */
  lemma RefusalStep(c: Cluster, a: Action, n: int, p: int, t: nat)
    requires Enabled(c, a) && Leads(c, n, t) && Leads(Step(c, a), n, t)
    requires AnswersIn(a, n, p, t) && !a.ar.reply.success
    ensures NextOf(Step(c, a), n, p) == if NextOf(c, n, p) > 1 then NextOf(c, n, p) - 1 else NextOf(c, n, p)
  {
    hide Merge, Messages, CommitPoint;
  }

  /**
   * However calls and answers overlap, get lost or come late: until an acceptance arrives, the next index is exactly
   * as far back as there were refusals, down to 1.
   */
  lemma {:induction false} BackByRefusals(run: seq<Cluster>, acts: seq<Action>, i: nat, k: nat, n: int, p: int, t: nat)
    requires Behaves(run, acts) && Leading(run, i, k, n, p, t) && !Succeeds(acts, i, k, n, p, t)
    ensures var first, refusals := NextOf(run[i], n, p), AnswerCount(acts[i..k], n, p, t);
            NextOf(run[k], n, p) == if refusals < first then first - refusals else 1
    decreases k
  {
    hide Step, Enabled, Initial, AnswersIn, AnswerCount, NextOf;
    if i == k {
      PairNow(run, acts, i, n, p, t);
      assert acts[i..k] == [];
      NoAnswers(n, p, t);
    } else {
      BackByRefusals(run, acts, i, k - 1, n, p, t);
      AnswerCountNext(acts, i, k - 1, n, p, t);
      assert Enabled(run[k - 1], acts[k - 1]) && run[k] == Step(run[k - 1], acts[k - 1]);
      if AnswersIn(acts[k - 1], n, p, t) {
        IsAnswer(acts[k - 1], n, p, t);
        RefusalStep(run[k - 1], acts[k - 1], n, p, t);
      } else {
        NextKept(run[k - 1], acts[k - 1], n, p, t);
      }
    }
  }

  lemma NoAnswers(n: int, p: int, t: nat)
    ensures AnswerCount([], n, p, t) == 0
  {
  }

  lemma IsAnswer(a: Action, n: int, p: int, t: nat)
    requires AnswersIn(a, n, p, t)
    ensures a.DeliverAppendResponse?
  {
  }

  /** A round sent from index 1 is never refused. */
  lemma AcceptedFromOne(run: seq<Cluster>, acts: seq<Action>, i: nat, j: nat, n: int, p: int, t: nat, r: Round)
    requires Behaves(run, acts) && Leading(run, i, j, n, p, t)
    requires IsRound(run, acts, n, p, r) && i <= r.sent && r.delivered <= j && NextOf(run[r.sent], n, p) == 1
    ensures Accepted(run, acts, n, p, r)
  {
    hide Merge, Messages, CommitPoint, Broadcast;
    assert Leads(run[r.sent], n, t) && run[r.delivered].nodes[p].currentTerm <= t;
    PairNow(run, acts, r.sent, n, p, t);
    PairNow(run, acts, r.delivered, n, p, t);
  }

  /**
   * Back-off without any order among the rounds: once the peer has answered as often as the next index to begin with,
   * less one, either one of the answers was an acceptance or the next round sent is accepted and repairs the peer.
   */
  lemma BackoffAnyOrder(run: seq<Cluster>, acts: seq<Action>, i: nat, k: nat, j: nat, n: int, p: int, t: nat, r: Round)
    requires Behaves(run, acts) && Leading(run, i, j, n, p, t) && i <= k <= j
    requires AnswerCount(acts[i..k], n, p, t) >= NextOf(run[i], n, p) - 1
    requires IsRound(run, acts, n, p, r) && k <= r.sent && r.delivered <= j
    ensures Succeeds(acts, i, r.sent, n, p, t) || (Accepted(run, acts, n, p, r) && Repairs(run, n, p, r, j))
  {
    hide Accepted, Repairs, NextOf, IsRound, AnswersIn, AnswerCount, Step, Enabled, Initial, Succeeds;
    RoundOrder(run, acts, n, p, r);
    if !Succeeds(acts, i, r.sent, n, p, t) {
      AnswerCountGrows(acts, i, k, r.sent, n, p, t);
      BackByRefusals(run, acts, i, r.sent, n, p, t);
      AcceptedFromOne(run, acts, i, j, n, p, t, r);
      AcceptedRoundRepairs(run, acts, i, j, n, p, t, r);
    }
  }

  // ---------- What acceptance means ----------

  /** An acceptance goes on record at once. */
  lemma AcceptanceRecorded(run: seq<Cluster>, acts: seq<Action>, d: nat, m: AppendRequest)
    requires Behaves(run, acts) && d < |acts| && acts[d] == DeliverAppendRequest(m) && m.to in run[d].nodes
    requires HandleAppendEntries(run[d].nodes[m.to], m.args).1.success
    ensures Ack(HistoryAt(run, acts, d + 1), m.to, m.args.term) >= LastSent(m.args)
  {
    hide Inv, HandleAppendEntries, AppendRequestHistory;
    assert Enabled(run[d], acts[d]);
    RunInv(run, acts, d);
    AppendHandled(run[d], HistoryAt(run, acts, d), m);
  }

  /** The record never shrinks. */
  lemma StillRecorded(run: seq<Cluster>, acts: seq<Action>, n: int, p: int, r: Round, k: nat)
    requires Behaves(run, acts) && Accepted(run, acts, n, p, r) && r.delivered < k < |run|
    ensures Ack(HistoryAt(run, acts, k), p, CallOf(run, n, p, r).args.term) >= LastSent(CallOf(run, n, p, r).args)
  {
    hide Behaves, HandleAppendEntries, HistoryAt;
    AcceptanceRecorded(run, acts, r.delivered, CallOf(run, n, p, r));
    RunGrows(run, acts, r.delivered + 1, k);
  }

  lemma AckNow(c: Cluster, h: History, p: int, t: nat)
    requires Inv(c, h) && (p, t) in h.acks
    ensures AckOk(c, h, (p, t))
  {
    hide Members, Elections, LogsRooted, AppendMessages, MatchesAcked, Commitment;
  }

  /**
   * After an accepted round the leader's log as sent is a prefix of the peer's for as long as the leader leads and
   * the peer is not past its term.
   */
  lemma AcceptedRoundRepairs(run: seq<Cluster>, acts: seq<Action>, i: nat, j: nat, n: int, p: int, t: nat, r: Round)
    requires Behaves(run, acts) && Leading(run, i, j, n, p, t) && i <= r.sent && r.delivered <= j
    requires Accepted(run, acts, n, p, r)
    ensures Repairs(run, n, p, r, j)
  {
    hide Inv, Behaves, IsRound, ReplyOf;
    RoundOrder(run, acts, n, p, r);
    forall k | r.delivered < k <= j
      ensures p in run[k].nodes && run[r.sent].nodes[n].log <= run[k].nodes[p].log
    {
      PrefixAt(run, acts, n, p, t, r, k);
    }
  }

  /** The answer tells the leader so: its indices for the peer are those of the log it sent. */
  lemma AcceptedRoundTells(run: seq<Cluster>, acts: seq<Action>, n: int, p: int, t: nat, r: Round)
    requires Behaves(run, acts) && Accepted(run, acts, n, p, r) && p != n && p in run[r.sent].nodes
    requires Leads(run[r.sent], n, t) && Leads(run[r.answered], n, t)
    ensures n in run[r.answered + 1].nodes
    ensures var s, sent := run[r.answered + 1].nodes[n], run[r.sent].nodes[n].log;
            && p in s.matchIndex && s.matchIndex[p] == LastIndex(sent)
            && p in s.nextIndex && s.nextIndex[p] == |sent|
  {
    hide Merge, Messages, CommitPoint, Broadcast;
    PairNow(run, acts, r.sent, n, p, t);
    assert run[r.answered + 1] == Step(run[r.answered], acts[r.answered]);
  }

  lemma PrefixAt(run: seq<Cluster>, acts: seq<Action>, n: int, p: int, t: nat, r: Round, k: nat)
    requires Behaves(run, acts) && Accepted(run, acts, n, p, r) && p != n && r.delivered < k < |run|
    requires Leads(run[r.sent], n, t) && Leads(run[k], n, t) && p in run[r.sent].nodes && p in run[k].nodes
    requires run[k].nodes[p].currentTerm <= t
    ensures run[r.sent].nodes[n].log <= run[k].nodes[p].log
  {
    hide Inv, Behaves, IsRound, ReplyOf;
    RoundOrder(run, acts, n, p, r);
    var h := HistoryAt(run, acts, k);
    var sent := run[r.sent].nodes[n].log;
    RunInv(run, acts, k);
    LeaderNow(run[k], h, n, t);
    LeaderAppendOnly(run, acts, r.sent, k, n, t);
    PairNow(run, acts, r.sent, n, p, t);
    PairNow(run, acts, k, n, p, t);
    StillRecorded(run, acts, n, p, r, k);
    assert LastSent(CallOf(run, n, p, r).args) == LastIndex(sent);
    if |sent| > 1 {
      AckNow(run[k], h, p, t);
    }
  }
}
