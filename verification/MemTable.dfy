/** The Soul MemTable: a skip list of nodes linked at several levels (pkg/storage/memtable.go). */
module MemTables {
  import opened Bytes
  import opened Records
  import opened OrderedMap

  const DEFAULT_MAX_LEVEL := 16
  const DEFAULT_FLUSH_THRESHOLD := 2 * 1024 * 1024

  class Node {
    const key: seq<byte>
    const forward: array<Node?>
    var value: seq<byte>
    var tombstone: bool

    constructor (key: seq<byte>, value: seq<byte>, tombstone: bool, height: nat)
      ensures this.key == key && this.value == value && this.tombstone == tombstone
      ensures fresh(forward) && forward.Length == height && forall i :: 0 <= i < height ==> forward[i] == null
    {
      this.key, this.value, this.tombstone := key, value, tombstone;
      this.forward := new Node?[height](_ => null);
    }
  }

  // ---------- Levels ----------

  /** The first node after `a` that is tall enough for level `i`, or the end of the list. */
  ghost function NextAt(nodes: seq<Node>, a: nat, i: nat): (b: nat)
    requires a < |nodes|
    ensures IsNext(nodes, a, i, b)
    decreases |nodes| - a
  {
    if a + 1 == |nodes| || nodes[a + 1].forward.Length > i then a + 1 else NextAt(nodes, a + 1, i)
  }

  ghost predicate IsNext(nodes: seq<Node>, a: nat, i: nat, b: nat) {
    && a < b <= |nodes|
    && (b < |nodes| ==> nodes[b].forward.Length > i)
    && forall c :: a < c < b ==> nodes[c].forward.Length <= i
  }

  lemma NextBehind(nodes: seq<Node>, a: nat, i: nat)
    requires a < |nodes|
    ensures a < NextAt(nodes, a, i) <= |nodes|
  {
  }

  lemma NextUnique(nodes: seq<Node>, a: nat, i: nat, b: nat)
    requires a < |nodes| && IsNext(nodes, a, i, b)
    ensures NextAt(nodes, a, i) == b
  {
  }

  ghost function NodeAt(nodes: seq<Node>, b: nat): Node? {
    if b < |nodes| then nodes[b] else null
  }

  ghost function Arrays(nodes: seq<Node>): set<array<Node?>> {
    set n | n in nodes :: n.forward
  }

  ghost predicate Points(nodes: seq<Node>, a: nat, i: nat)
    requires a < |nodes| && i < nodes[a].forward.Length
    reads nodes[a].forward
  {
    nodes[a].forward[i] == NodeAt(nodes, NextAt(nodes, a, i))
  }

  /** Every forward pointer leads to the next node of its level. */
  ghost predicate Linked(nodes: seq<Node>)
    reads Arrays(nodes)
  {
    forall a, i {:trigger Points(nodes, a, i)} |
      0 <= a < |nodes| && 0 <= i < nodes[a].forward.Length :: Points(nodes, a, i)
  }

  twostate lemma StaysLinked(nodes: seq<Node>)
    requires old(Linked(nodes)) && forall n :: n in nodes ==> unchanged(n.forward)
    ensures Linked(nodes)
  {
    forall a, i | 0 <= a < |nodes| && 0 <= i < nodes[a].forward.Length
      ensures Points(nodes, a, i)
    {
      assert old(Points(nodes, a, i));
    }
  }

  ghost predicate Separate(nodes: seq<Node>) {
    forall a, b | 0 <= a < b < |nodes| :: nodes[a] != nodes[b] && nodes[a].forward != nodes[b].forward
  }

  // ---------- Splicing a node in ----------

  ghost function Inserted(nodes: seq<Node>, p: nat, x: Node): seq<Node>
    requires p < |nodes|
  {
    nodes[..p + 1] + [x] + nodes[p + 1..]
  }

  /** From a node behind the new one, everything is one further. */
  lemma NextBehindInserted(nodes: seq<Node>, p: nat, x: Node, a: nat, i: nat)
    requires p < a < |nodes|
    ensures NextAt(Inserted(nodes, p, x), a + 1, i) == NextAt(nodes, a, i) + 1
  {
    hide NextAt;
    var nodes', b := Inserted(nodes, p, x), NextAt(nodes, a, i);
    assert nodes'[a + 1..] == nodes[a..];
    forall c | a + 1 < c < b + 1
      ensures nodes'[c].forward.Length <= i
    {
      assert nodes'[c] == nodes[c - 1];
    }
    NextUnique(nodes', a + 1, i, b + 1);
  }

  /** From a node before the new one, the new one comes in between where it is tall enough. */
  lemma NextBeforeInserted(nodes: seq<Node>, p: nat, x: Node, a: nat, i: nat)
    requires a <= p < |nodes|
    ensures NextAt(Inserted(nodes, p, x), a, i) ==
      if NextAt(nodes, a, i) <= p then NextAt(nodes, a, i)
      else if x.forward.Length > i then p + 1 else NextAt(nodes, a, i) + 1
  {
    hide NextAt;
    var nodes', b := Inserted(nodes, p, x), NextAt(nodes, a, i);
    var b' := if b <= p then b else if x.forward.Length > i then p + 1 else b + 1;
    forall c | a < c < b'
      ensures nodes'[c].forward.Length <= i
    {
      assert c <= p ==> nodes'[c] == nodes[c];
      assert c > p + 1 ==> nodes'[c] == nodes[c - 1];
    }
    NextUnique(nodes', a, i, b');
  }

  /** The new node leads on where the node before it did. */
  lemma NextOfInserted(nodes: seq<Node>, p: nat, x: Node, i: nat)
    requires p < |nodes|
    ensures NextAt(Inserted(nodes, p, x), p + 1, i) == NextAt(nodes, p, i) + 1
  {
    hide NextAt;
    var nodes', b := Inserted(nodes, p, x), NextAt(nodes, p, i);
    forall c | p + 1 < c < b + 1
      ensures nodes'[c].forward.Length <= i
    {
      assert nodes'[c] == nodes[c - 1];
    }
    NextUnique(nodes', p + 1, i, b + 1);
  }

  /** Node number `u` is the last one through `p` that takes part in level `i`. */
  ghost predicate IsPred(nodes: seq<Node>, u: nat, i: nat, p: nat) {
    u < |nodes| && u <= p && i < nodes[u].forward.Length && NextAt(nodes, u, i) > p
  }

  /** `update` holds the predecessor at level `i`. */
  ghost predicate Kept(nodes: seq<Node>, update: seq<Node?>, preds: seq<nat>, i: nat, p: nat) {
    i < |update| && i < |preds| && IsPred(nodes, preds[i], i, p) && update[i] == nodes[preds[i]]
  }

  lemma KeptNext(nodes: seq<Node>, update: seq<Node?>, preds: seq<nat>, update': seq<Node?>, preds': seq<nat>,
                 i: nat, top: nat, p: nat, at: nat)
    requires i < |update| == |preds| && IsPred(nodes, at, i, p)
    requires update' == update[i := nodes[at]] && preds' == preds[i := at]
    requires forall j :: i < j < top ==> Kept(nodes, update, preds, j, p)
    ensures forall j :: i <= j < top ==> Kept(nodes, update', preds', j, p)
  {
    hide NextAt, IsPred;
    forall j | i <= j < top
      ensures Kept(nodes, update', preds', j, p)
    {
      assert j > i ==> Kept(nodes, update, preds, j, p);
    }
  }

  lemma PredUnique(nodes: seq<Node>, u: nat, i: nat, p: nat, a: nat)
    requires IsPred(nodes, u, i, p) && IsPred(nodes, a, i, p)
    ensures a == u
  {
  }

  lemma PredNext(nodes: seq<Node>, u: nat, i: nat, p: nat)
    requires IsPred(nodes, u, i, p) && p < |nodes|
    ensures NextAt(nodes, p, i) == NextAt(nodes, u, i)
  {
    NextUnique(nodes, p, i, NextAt(nodes, u, i));
  }

  /** Level `j` of node `a` when levels below `done` have been spliced: a predecessor leads to `x`. */
  ghost predicate Leads(nodes: seq<Node>, x: Node, preds: seq<nat>, done: nat, a: nat, j: nat)
    requires a < |nodes| && j < nodes[a].forward.Length && done <= |preds|
    reads nodes[a].forward
  {
    nodes[a].forward[j] == if j < done && a == preds[j] then x else NodeAt(nodes, NextAt(nodes, a, j))
  }

  /** The pointers when levels below `done` have been spliced: `x` leads on where its predecessors did. */
  ghost predicate PartlySpliced(nodes: seq<Node>, x: Node, preds: seq<nat>, done: nat)
    reads Arrays(nodes), x.forward
  {
    && done <= |preds| == x.forward.Length
    && (forall j :: 0 <= j < |preds| ==> preds[j] < |nodes|)
    && (forall a, j {:trigger Leads(nodes, x, preds, done, a, j)} |
          0 <= a < |nodes| && 0 <= j < nodes[a].forward.Length :: Leads(nodes, x, preds, done, a, j))
    && (forall j | 0 <= j < done :: x.forward[j] == NodeAt(nodes, NextAt(nodes, preds[j], j)))
  }

  lemma NothingSpliced(nodes: seq<Node>, x: Node, preds: seq<nat>)
    requires Linked(nodes) && |preds| == x.forward.Length
    requires forall j :: 0 <= j < |preds| ==> preds[j] < |nodes|
    ensures PartlySpliced(nodes, x, preds, 0)
  {
    hide NextAt, IsNext;
    forall a, j | 0 <= a < |nodes| && 0 <= j < nodes[a].forward.Length
      ensures Leads(nodes, x, preds, 0, a, j)
    {
      assert Points(nodes, a, j);
    }
  }

  lemma SplicedLinked(nodes: seq<Node>, x: Node, preds: seq<nat>, p: nat)
    requires p < |nodes| && |preds| == x.forward.Length
    requires forall j :: 0 <= j < |preds| ==> IsPred(nodes, preds[j], j, p)
    requires PartlySpliced(nodes, x, preds, |preds|)
    ensures Linked(Inserted(nodes, p, x))
  {
    hide NextAt, IsNext;
    var nodes' := Inserted(nodes, p, x);
    forall a, i | 0 <= a < |nodes'| && 0 <= i < nodes'[a].forward.Length
      ensures Points(nodes', a, i)
    {
      if a <= p {
        NextBeforeInserted(nodes, p, x, a, i);
        assert i < |preds| ==> IsPred(nodes, preds[i], i, p);
        assert Leads(nodes, x, preds, |preds|, a, i);
        if NextAt(nodes, a, i) > p && i < |preds| {
          PredUnique(nodes, preds[i], i, p, a);
        }
      } else if a == p + 1 {
        NextOfInserted(nodes, p, x, i);
        PredNext(nodes, preds[i], i, p);
      } else {
        NextBehindInserted(nodes, p, x, a - 1, i);
        NextBehind(nodes, a - 1, i);
        assert Leads(nodes, x, preds, |preds|, a - 1, i);
      }
    }
  }

  /** Splice one level. */
  method SpliceLevel(ghost nodes: seq<Node>, x: Node, pred: Node, ghost preds: seq<nat>, i: nat)
    requires Separate(nodes) && x.forward !in Arrays(nodes)
    requires PartlySpliced(nodes, x, preds, i) && i < |preds|
    requires nodes[preds[i]] == pred && i < pred.forward.Length
    modifies Arrays(nodes), x.forward
    ensures PartlySpliced(nodes, x, preds, i + 1)
  {
    hide NextAt, IsNext;
    assert pred.forward in Arrays(nodes);
    assert Leads(nodes, x, preds, i, preds[i], i);
    x.forward[i] := pred.forward[i];
    pred.forward[i] := x;
    ghost var done := i + 1;
    forall a, j | 0 <= a < |nodes| && 0 <= j < nodes[a].forward.Length
      ensures Leads(nodes, x, preds, done, a, j)
    {
      assert nodes[a].forward in Arrays(nodes);
      assert old(Leads(nodes, x, preds, i, a, j));
    }
  }

  /** Link `x` in behind its predecessors, level by level. */
  method Splice(ghost nodes: seq<Node>, x: Node, update: seq<Node?>, ghost preds: seq<nat>, ghost p: nat)
    requires p < |nodes| && Separate(nodes) && Linked(nodes) && x.forward !in Arrays(nodes)
    requires |preds| == x.forward.Length <= |update|
    requires forall j :: 0 <= j < |preds| ==> Kept(nodes, update, preds, j, p)
    modifies Arrays(nodes), x.forward
    ensures Linked(Inserted(nodes, p, x))
  {
    hide NextAt, IsNext;
    forall j | 0 <= j < |preds|
      ensures IsPred(nodes, preds[j], j, p)
    {
      assert Kept(nodes, update, preds, j, p);
    }
    NothingSpliced(nodes, x, preds);
    for i := 0 to x.forward.Length
      invariant PartlySpliced(nodes, x, preds, i)
    {
      assert Kept(nodes, update, preds, i, p);
      var pred: Node := update[i];
      SpliceLevel(nodes, x, pred, preds, i);
    }
    SplicedLinked(nodes, x, preds, p);
  }

  // ---------- Contents ----------

  ghost function Contents(ns: seq<Node>): (rs: seq<Record>)
    reads ns
    ensures |rs| == |ns|
    ensures forall i :: 0 <= i < |ns| ==> rs[i] == Record(ns[i].key, ns[i].value, ns[i].tombstone)
  {
    if ns == [] then []
    else
      var last := ns[|ns| - 1];
      Contents(ns[..|ns| - 1]) + [Record(last.key, last.value, last.tombstone)]
  }

  lemma InsertedSeparate(nodes: seq<Node>, p: nat, x: Node)
    requires Separate(nodes) && p < |nodes| && x !in nodes && x.forward !in Arrays(nodes)
    ensures Separate(Inserted(nodes, p, x))
  {
    var nodes' := Inserted(nodes, p, x);
    forall a | 0 <= a < |nodes|
      ensures nodes[a] != x && nodes[a].forward != x.forward
    {
      assert nodes[a].forward in Arrays(nodes);
    }
    assert forall a | 0 <= a <= p :: nodes'[a] == nodes[a];
    assert forall a | p + 1 < a < |nodes'| :: nodes'[a] == nodes[a - 1];
  }

  lemma InsertedMembers(nodes: seq<Node>, p: nat, x: Node)
    requires p < |nodes|
    ensures forall n :: n in Inserted(nodes, p, x) ==> n == x || (n in nodes && n.forward in Arrays(nodes))
  {
  }

  lemma InsertedAt(nodes: seq<Node>, p: nat, x: Node)
    requires p < |nodes|
    ensures |Inserted(nodes, p, x)| == |nodes| + 1 && Inserted(nodes, p, x)[p + 1] == x
  {
  }

  lemma InsertedContents(nodes: seq<Node>, p: nat, x: Node)
    requires p < |nodes|
    ensures Contents(Inserted(nodes, p, x)[1..]) ==
      Contents(nodes[1..])[..p] + [Record(x.key, x.value, x.tombstone)] + Contents(nodes[1..])[p..]
  {
    hide Contents;
    assert Inserted(nodes, p, x)[1..] == nodes[1..][..p] + [x] + nodes[1..][p..];
  }

  // ---------- Levels as lists ----------

  /** The nodes tall enough for level `i`. */
  ghost function Tall(ns: seq<Node>, i: nat): (tall: seq<Node>)
    ensures forall n :: n in tall ==> n in ns
  {
    if ns == [] then [] else (if ns[0].forward.Length > i then [ns[0]] else []) + Tall(ns[1..], i)
  }

  lemma {:induction false} TallSkips(nodes: seq<Node>, a: nat, b: nat, i: nat)
    requires a <= b <= |nodes| && forall c :: a <= c < b ==> nodes[c].forward.Length <= i
    requires b < |nodes| ==> nodes[b].forward.Length > i
    ensures Tall(nodes[a..], i) == if b < |nodes| then [nodes[b]] + Tall(nodes[b + 1..], i) else []
    decreases b - a
  {
    if a < |nodes| {
      assert nodes[a..][0] == nodes[a] && nodes[a..][1..] == nodes[a + 1..];
      if a < b {
        TallSkips(nodes, a + 1, b, i);
      }
    }
  }

  /** What is tall enough for a level is tall enough for the one below. */
  lemma {:induction false} TallNested(ns: seq<Node>, i: nat)
    ensures Tall(Tall(ns, i), i + 1) == Tall(ns, i + 1)
  {
    if ns != [] {
      var lower := Tall(ns[1..], i);
      TallNested(ns[1..], i);
      if ns[0].forward.Length > i {
        assert Tall(ns, i) == [ns[0]] + lower && ([ns[0]] + lower)[1..] == lower;
      } else {
        assert Tall(ns, i) == lower && Tall(ns, i + 1) == Tall(ns[1..], i + 1);
      }
    }
  }

  lemma {:induction false} TallSorted(ns: seq<Node>, i: nat)
    requires forall a, b :: 0 <= a < b < |ns| ==> Less(ns[a].key, ns[b].key)
    ensures forall j, k :: 0 <= j < k < |Tall(ns, i)| ==> Less(Tall(ns, i)[j].key, Tall(ns, i)[k].key)
  {
    hide Less;
    if ns != [] {
      TallSorted(ns[1..], i);
      var rest := Tall(ns[1..], i);
      forall k | 0 <= k < |rest|
        ensures Less(ns[0].key, rest[k].key)
      {
        assert rest[k] in ns[1..];
        var c :| 0 <= c < |ns[1..]| && ns[1..][c] == rest[k];
        assert ns[c + 1] == rest[k];
      }
    }
  }

  /** The height the coin flips give: one more for each flip won in a row from the first, up to the maximum. */
  predicate IsHeight(flips: seq<bool>, maxLevel: nat, height: nat) {
    && 1 <= height <= maxLevel && height <= |flips| + 1
    && (forall k :: 0 <= k < height - 1 ==> flips[k])
    && (height < maxLevel && height <= |flips| ==> !flips[height - 1])
  }

  class MemTable {
    const head: Node
    const maxLevel: nat
    const flushThreshold: int
    var level: nat
    var sizeBytes: int
    /** All nodes in list order; the head comes first. */
    ghost var nodes: seq<Node>

    ghost predicate Shaped()
      reads this
    {
      && |nodes| > 0 && nodes[0] == head && head.forward.Length == maxLevel
      && 1 <= level <= maxLevel
      && (forall a :: 0 < a < |nodes| ==> 1 <= nodes[a].forward.Length <= level)
      && Separate(nodes)
    }

    ghost predicate Valid()
      reads this, nodes, Arrays(nodes)
    {
      Shaped() && Linked(nodes) && Ascending(Entries()) && sizeBytes == Total(Entries())
    }

    /** What the table holds, in ascending key order. */
    ghost function Entries(): seq<Record>
      reads this, nodes
    {
      if nodes == [] then [] else Contents(nodes[1..])
    }

    lemma ValidShape()
      requires Valid()
      ensures Shaped() && |Entries()| == |nodes| - 1
    {
    }

    /** The table, its nodes and their pointer arrays. */
    ghost function Repr(): (s: set<object>)
      reads this
      ensures this in s && (forall n :: n in nodes ==> n in s) && (forall a :: a in Arrays(nodes) ==> a in s)
    {
      {this as object} + (set n: Node | n in nodes :: n as object) + (set n: Node | n in nodes :: n.forward as object)
    }

    /** A table none of whose parts was written to is as it was. */
    twostate lemma Stays()
      requires old(Valid()) && unchanged(this)
      requires forall n :: n in nodes ==> unchanged(n) && unchanged(n.forward)
      ensures Valid() && Entries() == old(Entries()) && Repr() == old(Repr())
    {
      hide Total, Ascending, Linked;
      StaysLinked(nodes);
    }

    /** Nodes and pointer arrays are those of before or new ones. */
    twostate predicate Grew()
      reads this
    {
      && (forall n :: n in nodes ==> n in old(nodes) || fresh(n))
      && (forall n :: n in nodes ==> n.forward in old(Arrays(nodes)) || fresh(n.forward))
    }

    constructor (maxLevel: int, flushThreshold: int)
      ensures Valid() && Entries() == [] && fresh(nodes) && fresh(Arrays(nodes))
      ensures this.maxLevel == if maxLevel <= 0 then 16 else maxLevel
      ensures this.flushThreshold == if flushThreshold <= 0 then 2 * 1024 * 1024 else flushThreshold
    {
      var levels: nat := if maxLevel <= 0 then DEFAULT_MAX_LEVEL else maxLevel;
      this.maxLevel := levels;
      this.flushThreshold := if flushThreshold <= 0 then DEFAULT_FLUSH_THRESHOLD else flushThreshold;
      var first := new Node([], [], false, levels);
      head := first;
      level := 1;
      sizeBytes := 0;
      nodes := [first];
      new;
      assert nodes[1..] == [];
    }

    /** Everything before the position of `key` is smaller, everything from it on is not. */
    lemma Order(key: seq<byte>, a: nat)
      requires Valid() && 0 < a < |nodes|
      ensures Less(nodes[a].key, key) <==> a <= Position(Entries(), key)
    {
      assert Entries()[a - 1].key == nodes[a].key;
      if a > Position(Entries(), key) {
        BehindPosition(Entries(), key, a - 1);
      }
    }

    /** Walk level `i` from node number `at` as far as keys stay smaller than `key`. */
    method Walk(from: Node, i: nat, key: seq<byte>, ghost at: nat) returns (curr: Node, ghost stop: nat)
      requires Valid() && at < |nodes| && nodes[at] == from && i < from.forward.Length
      requires at <= Position(Entries(), key)
      ensures Valid() && at <= stop < |nodes| && nodes[stop] == curr && i < curr.forward.Length
      ensures stop <= Position(Entries(), key) < NextAt(nodes, stop, i)
    {
      hide Less, Position;
      curr, stop := from, at;
      while curr.forward[i] != null && Less(curr.forward[i].key, key)
        invariant Valid() && at <= stop < |nodes| && nodes[stop] == curr && i < curr.forward.Length
        invariant stop <= Position(Entries(), key)
        decreases |nodes| - stop
      {
        assert Points(nodes, stop, i);
        Order(key, NextAt(nodes, stop, i));
        stop := NextAt(nodes, stop, i);
        curr := curr.forward[i];
      }
      assert Points(nodes, stop, i);
      if NextAt(nodes, stop, i) < |nodes| {
        Order(key, NextAt(nodes, stop, i));
      }
    }

    /** The nodes met when following the pointers of level `i` from node number `a`. */
    ghost function Chain(a: nat, i: nat): seq<Node>
      requires Valid() && a < |nodes| && i < nodes[a].forward.Length
      reads this, nodes, Arrays(nodes)
      decreases |nodes| - a
    {
      var b := NextAt(nodes, a, i);
      assert Points(nodes, a, i);
      if nodes[a].forward[i] == null then [] else [nodes[a].forward[i]] + Chain(b, i)
    }

    lemma ChainStep(a: nat, i: nat)
      requires Valid() && a < |nodes| && i < nodes[a].forward.Length
      ensures var b := NextAt(nodes, a, i);
        Chain(a, i) == if b < |nodes| then [nodes[b]] + Chain(b, i) else []
    {
      hide Total, Ascending, Contents, Separate;
      assert Points(nodes, a, i);
    }

    /** Following a level meets exactly the nodes tall enough for it, in list order. */
    lemma {:induction false} ChainIsTall(a: nat, i: nat)
      requires Valid() && a < |nodes| && i < nodes[a].forward.Length
      ensures Chain(a, i) == Tall(nodes[a + 1..], i)
      decreases |nodes| - a
    {
      hide Valid, Chain, NextAt;
      var b := NextAt(nodes, a, i);
      ChainStep(a, i);
      if b < |nodes| {
        ChainIsTall(b, i);
      }
      TallSkips(nodes, a + 1, b, i);
    }

    /** Every level is strictly sorted, and is made up of the nodes of the level below that reach it. */
    lemma LevelsNest(i: nat)
      requires Valid() && i + 1 < maxLevel
      ensures Chain(0, i + 1) == Tall(Chain(0, i), i + 1)
      ensures forall j, k :: 0 <= j < k < |Chain(0, i)| ==> Less(Chain(0, i)[j].key, Chain(0, i)[k].key)
    {
      hide Less, Chain, NextAt;
      ChainIsTall(0, i);
      ChainIsTall(0, i + 1);
      TallNested(nodes[1..], i);
      forall a, b | 0 <= a < b < |nodes[1..]|
        ensures Less(nodes[1..][a].key, nodes[1..][b].key)
      {
        assert Entries()[a].key == nodes[1..][a].key && Entries()[b].key == nodes[1..][b].key;
      }
      TallSorted(nodes[1..], i);
    }

    /** Look a key up: walk each level, then step down. */
    method Get(key: seq<byte>) returns (value: seq<byte>, tombstone: bool, found: bool)
      requires Valid()
      ensures found == Find(Entries(), key).Some?
      ensures found ==> Record(key, value, tombstone) == Find(Entries(), key).value
      ensures !found ==> value == [] && !tombstone
    {
      hide Less, Position, Find, Total, Ascending;
      ghost var p := Position(Entries(), key);
      var curr := head;
      ghost var at := 0;
      for i := level downto 0
        invariant Valid() && at <= p && at < |nodes| && curr == nodes[at] && i <= curr.forward.Length
        invariant i < level ==> NextAt(nodes, at, i) > p
      {
        curr, at := Walk(curr, i, key, at);
      }
      assert at == p;
      FindByPosition(Entries(), key);
      var next := curr.forward[0];
      NextNode(at);
      if next != null && next.key == key {
        return next.value, next.tombstone, true;
      }
      return [], false, false;
    }

    /** The lowest level links every node to the one after it. */
    lemma NextNode(a: nat)
      requires Valid() && a < |nodes|
      ensures nodes[a].forward.Length > 0 && NextAt(nodes, a, 0) == a + 1
      ensures nodes[a].forward[0] == NodeAt(nodes, a + 1)
      ensures a + 1 < |nodes| ==>
        Entries()[a] == Record(nodes[a + 1].key, nodes[a + 1].value, nodes[a + 1].tombstone)
      ensures a + 1 == |nodes| ==> a == |Entries()|
    {
      assert Points(nodes, a, 0);
    }

    /** The new node's height: one level more for each coin flip won in a row, up to the maximum. */
    method RandomLevel(flips: seq<bool>) returns (height: nat)
      requires maxLevel >= 1
      ensures IsHeight(flips, maxLevel, height)
    {
      height := 1;
      while height <= |flips| && flips[height - 1] && height < maxLevel
        invariant 1 <= height <= maxLevel && height <= |flips| + 1
        invariant forall k :: 0 <= k < height - 1 ==> flips[k]
      {
        height := height + 1;
      }
    }

    /** Descend to the last node before `key`, keeping on each level the node the walk left it from. */
    method FindPredecessors(key: seq<byte>) returns (update: seq<Node?>, curr: Node, ghost preds: seq<nat>)
      requires Valid()
      ensures |update| == |preds| == maxLevel
      ensures Position(Entries(), key) < |nodes| && curr == nodes[Position(Entries(), key)]
      ensures forall i :: 0 <= i < level ==> Kept(nodes, update, preds, i, Position(Entries(), key))
    {
      hide Less, Position, Valid, NextAt, IsNext;
      ValidShape();
      ghost var p := Position(Entries(), key);
      update := seq(maxLevel, _ => null);
      preds := seq(maxLevel, _ => 0);
      curr := head;
      ghost var at := 0;
      for i := level downto 0
        invariant Valid() && at <= p && at < |nodes| && curr == nodes[at] && i <= curr.forward.Length
        invariant i < level ==> NextAt(nodes, at, i) > p
        invariant |update| == |preds| == maxLevel
        invariant forall j :: i <= j < level ==> Kept(nodes, update, preds, j, p)
      {
        curr, at := Walk(curr, i, key, at);
        KeptNext(nodes, update, preds, update[i := curr], preds[i := at], i, level, p, at);
        update, preds := update[i := curr], preds[i := at];
      }
      NextNode(at);
    }

    lemma AboveAll(i: nat)
      requires Shaped() && i >= level
      ensures NextAt(nodes, 0, i) == |nodes|
    {
      NextUnique(nodes, 0, i, |nodes|);
    }

    /** Levels the list has not used yet start at the head. */
    method Raise(height: nat, update: seq<Node?>, ghost preds: seq<nat>, ghost p: nat)
      returns (update': seq<Node?>, ghost preds': seq<nat>)
      requires Shaped() && height <= maxLevel && p < |nodes| && |update| == |preds| == maxLevel
      requires forall i :: 0 <= i < level ==> Kept(nodes, update, preds, i, p)
      ensures |update'| == |preds'| == maxLevel
      ensures forall i :: 0 <= i < height ==> Kept(nodes, update', preds', i, p)
    {
      hide NextAt, IsNext, Separate;
      update', preds' := update, preds;
      if height > level {
        for i := level to height
          invariant i >= level && |update'| == |preds'| == maxLevel
          invariant forall j :: 0 <= j < i ==> Kept(nodes, update', preds', j, p)
        {
          ghost var before, beforePreds := update', preds';
          update', preds' := update'[i := head], preds'[i := 0];
          AboveAll(i);
          forall j | 0 <= j <= i
            ensures Kept(nodes, update', preds', j, p)
          {
            assert j < i ==> Kept(nodes, before, beforePreds, j, p);
          }
        }
      }
    }

    /** Choose the height of a new node and, where it is the tallest yet, raise the list to it. */
    method PickHeight(flips: seq<bool>, update: seq<Node?>, ghost preds: seq<nat>, ghost p: nat)
      returns (height: nat, update': seq<Node?>, ghost preds': seq<nat>)
      requires Shaped() && p < |nodes| && |update| == |preds| == maxLevel
      requires forall i :: 0 <= i < level ==> Kept(nodes, update, preds, i, p)
      modifies this`level
      ensures Shaped() && 1 <= height == |preds'| <= level && height <= |update'| && IsHeight(flips, maxLevel, height)
      ensures forall i :: 0 <= i < height ==> Kept(nodes, update', preds', i, p)
    {
      hide NextAt, IsNext, Separate;
      height := RandomLevel(flips);
      ghost var all;
      update', all := Raise(height, update, preds, p);
      preds' := all[..height];
      forall j | 0 <= j < height
        ensures Kept(nodes, update', preds', j, p)
      {
        assert Kept(nodes, update', all, j, p);
      }
      if height > level {
        level := height;
      }
    }

    /** Replace value and tombstone of the node that holds the key. */
    method Overwrite(curr: Node, value: seq<byte>, tombstone: bool, ghost p: nat)
      requires Shaped() && Linked(nodes) && p + 1 < |nodes| && curr == nodes[p + 1]
      modifies this`sizeBytes, curr
      ensures Shaped() && Linked(nodes)
      ensures Entries() == old(Entries())[p := Record(curr.key, value, tombstone)]
      ensures sizeBytes == old(sizeBytes) + |value| - |old(Entries())[p].value|
    {
      hide Contents, NextAt, IsNext, Linked;
      var oldSize := |curr.key| + |curr.value|;
      var newSize := |curr.key| + |value|;
      curr.value := value;
      curr.tombstone := tombstone;
      sizeBytes := sizeBytes + (newSize - oldSize);
      StaysLinked(nodes);
    }

    /** Link the new node in and count its bytes. */
    method Attach(x: Node, update: seq<Node?>, ghost preds: seq<nat>, ghost p: nat)
      requires Shaped() && Linked(nodes) && p < |nodes| && x !in nodes && x.forward !in Arrays(nodes)
      requires 1 <= x.forward.Length == |preds| <= level && |preds| <= |update|
      requires forall j :: 0 <= j < |preds| ==> Kept(nodes, update, preds, j, p)
      modifies this`nodes, this`sizeBytes, Arrays(nodes), x.forward
      ensures nodes == Inserted(old(nodes), p, x) && Shaped() && Linked(nodes)
      ensures Entries() == old(Entries())[..p] + [Record(x.key, x.value, x.tombstone)] + old(Entries())[p..]
      ensures sizeBytes == old(sizeBytes) + |x.key| + |x.value|
    {
      hide NextAt, IsNext, Separate, Linked, Contents, Kept;
      InsertedSeparate(nodes, p, x);
      InsertedContents(nodes, p, x);
      sizeBytes := sizeBytes + |x.key| + |x.value|;
      ghost var before := nodes;
      nodes := Inserted(before, p, x);
      Splice(before, x, update, preds, p);
    }

    /** Put a new node behind the predecessors of its key. */
    method AddNode(key: seq<byte>, value: seq<byte>, tombstone: bool, flips: seq<bool>,
                   update: seq<Node?>, ghost preds: seq<nat>, ghost p: nat)
      requires Shaped() && Linked(nodes) && p < |nodes| && |update| == |preds| == maxLevel
      requires forall i :: 0 <= i < level ==> Kept(nodes, update, preds, i, p)
      modifies this, Arrays(nodes)
      ensures Shaped() && Linked(nodes)
      ensures Entries() == old(Entries())[..p] + [Record(key, value, tombstone)] + old(Entries())[p..]
      ensures sizeBytes == old(sizeBytes) + |key| + |value|
      ensures Grew()
      ensures p + 1 < |nodes| && fresh(nodes[p + 1]) && IsHeight(flips, maxLevel, nodes[p + 1].forward.Length)
    {
      hide NextAt, IsNext, Separate, Linked, Contents, Kept, Inserted, Shaped, IsHeight;
      var height, update', preds' := PickHeight(flips, update, preds, p);
      var x := new Node(key, value, tombstone, height);
      InsertedMembers(nodes, p, x);
      InsertedAt(nodes, p, x);
      Attach(x, update', preds', p);
    }

    /** Insert or update: the new contents are the old ones with the record's key set to the record. */
    method Insert(key: seq<byte>, value: seq<byte>, tombstone: bool, flips: seq<bool>) returns (full: bool)
      requires Valid()
      modifies this, nodes, Arrays(nodes)
      ensures Valid() && Entries() == Upsert(old(Entries()), Record(key, value, tombstone))
      ensures full == (sizeBytes >= flushThreshold)
      ensures Grew()
      ensures old(Find(Entries(), key)) == None ==>
        exists i :: 0 <= i < |nodes| && fresh(nodes[i]) && IsHeight(flips, maxLevel, nodes[i].forward.Length)
    {
      hide IsHeight, Shaped, Entries, Less, Position, Total, Ascending, Find, Linked, Kept;
      ValidShape();
      ghost var r := Record(key, value, tombstone);
      ghost var p := Position(Entries(), key);
      var update, curr, preds := FindPredecessors(key);
      NextNode(p);
      FindByPosition(Entries(), key);
      UpsertAscending(Entries(), r);
      TotalUpsert(Entries(), r);
      var next := curr.forward[0];
      if next != null && next.key == key {
        Overwrite(next, value, tombstone, p);
      } else {
        AddNode(key, value, tombstone, flips, update, preds, p);
      }
      full := sizeBytes >= flushThreshold;
    }

    method Put(key: seq<byte>, value: seq<byte>, flips: seq<bool>) returns (full: bool)
      requires Valid()
      modifies this, nodes, Arrays(nodes)
      ensures Valid() && Entries() == Upsert(old(Entries()), Record(key, value, false))
      ensures full == (sizeBytes >= flushThreshold)
      ensures Grew()
    {
      full := Insert(key, value, false, flips);
    }

    method Delete(key: seq<byte>, flips: seq<bool>) returns (full: bool)
      requires Valid()
      modifies this, nodes, Arrays(nodes)
      ensures Valid() && Entries() == Upsert(old(Entries()), Record(key, [], true))
      ensures full == (sizeBytes >= flushThreshold)
      ensures Grew()
    {
      full := Insert(key, [], true, flips);
    }

    method IsFull() returns (full: bool)
      requires Valid()
      ensures full == (Total(Entries()) >= flushThreshold)
    {
      full := sizeBytes >= flushThreshold;
    }
  }

  /** Every part of the table is new. */
  twostate predicate AllFresh(new table: MemTable)
    reads table
  {
    fresh(table) && (forall n :: n in table.nodes ==> fresh(n)) && fresh(Arrays(table.nodes))
  }

  /** A cursor over the lowest level. */
  class Iterator {
    ghost const table: MemTable
    ghost var at: nat
    var curr: Node?

    ghost predicate Valid()
      reads this, table, table.nodes, Arrays(table.nodes)
    {
      table.Valid() && at < |table.nodes| && curr == table.nodes[at]
    }

    constructor (table: MemTable)
      requires table.Valid()
      ensures Valid() && this.table == table && at == 0
    {
      this.table := table;
      curr := table.head;
      at := 0;
    }

    method HasNext() returns (more: bool)
      requires Valid()
      ensures Valid() && more == (at < |table.Entries()|)
    {
      table.NextNode(at);
      more := curr != null && curr.forward[0] != null;
    }

    method Next() returns (node: Node?)
      requires Valid()
      modifies this
      ensures Valid()
      ensures old(at) < |table.Entries()| ==>
        at == old(at) + 1 && node != null
        && Record(node.key, node.value, node.tombstone) == table.Entries()[old(at)]
      ensures old(at) == |table.Entries()| ==> at == old(at) && node == null
    {
      hide Total, Ascending, NextAt, IsNext, Separate, Linked, Contents;
      var more := HasNext();
      if !more {
        return null;
      }
      table.NextNode(at);
      at := at + 1;
      curr := curr.forward[0];
      node := curr;
      StaysLinked(table.nodes);
    }
  }

  /** Iterating from the start yields every record once, in ascending key order. */
  method Drain(table: MemTable) returns (rs: seq<Record>)
    requires table.Valid()
    ensures rs == table.Entries() && Ascending(rs)
    ensures forall i, j :: 0 <= i < j < |rs| ==> Precedes(rs[i].key, rs[j].key)
  {
    hide Less, Precedes, Total, Ascending, Linked, Contents, MemTable.Shaped, MemTable.Entries;
    var it := new Iterator(table);
    rs := [];
    var more := it.HasNext();
    while more
      invariant it.Valid() && it.table == table && it.at <= |table.Entries()|
      invariant rs == table.Entries()[..it.at] && more == (it.at < |table.Entries()|)
      decreases |table.Entries()| - it.at
    {
      var node := it.Next();
      rs := rs + [Record(node.key, node.value, node.tombstone)];
      more := it.HasNext();
    }
    AscendingIsLexicographic(rs);
  }
}
