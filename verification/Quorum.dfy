/** Majorities of a finite set of node ids. */
module Quorum {

  predicate IsQuorum(q: set<int>, ids: set<int>) {
    q <= ids && |q| >= |ids| / 2 + 1
  }

  lemma SubsetCard(a: set<int>, b: set<int>)
    requires a <= b
    ensures |a| <= |b|
  {
    assert b == a + (b - a);
  }

  /** Any two majorities share a node. */
  lemma QuorumsMeet(a: set<int>, b: set<int>, ids: set<int>)
    requires IsQuorum(a, ids) && IsQuorum(b, ids)
    ensures exists n :: n in a && n in b
  {
    if forall n :: n in a ==> n !in b {
      assert a !! b;
      SubsetCard(a + b, ids);
      assert false;
    }
  }

  lemma QuorumGrows(a: set<int>, b: set<int>, ids: set<int>)
    requires IsQuorum(a, ids) && a <= b <= ids
    ensures IsQuorum(b, ids)
  {
    SubsetCard(a, b);
  }
}
