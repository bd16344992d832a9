/**
 Decision trees as the parallel arrays of an XGBoost JSON document, and what they mean:
 the leaf an input reaches, and the sum of the leaf values over an ensemble.
 */
module Trees {
  import opened Wrappers

  /** The value of each feature column, or None where the input lacks it. */
  type Features = int -> Option<real>

  /** Node i is a leaf when left[i] == -1; a leaf's value and a split's threshold are both in conditions[i]. */
  datatype Tree = Tree(
    left: seq<int>,
    right: seq<int>,
    feature: seq<int>,
    defaultLeft: seq<bool>,
    conditions: Option<seq<real>>)

  datatype Outcome = Leaf(node: nat) | Stuck

  predicate IsLeaf(t: Tree, i: int) {
    0 <= i < |t.left| && t.left[i] == -1
  }

  predicate IsSplit(t: Tree, i: int) {
    0 <= i < |t.left| && t.left[i] != -1 && i < |t.right| && i < |t.feature| && i < |t.defaultLeft|
  }

  predicate HasCondition(t: Tree, i: int) {
    t.conditions.Some? && 0 <= i < |t.conditions.value|
  }

  function Child(t: Tree, x: Features, i: int): int
    requires IsSplit(t, i) && HasCondition(t, i)
  {
    var goesLeft := match x(t.feature[i])
      case None => t.defaultLeft[i]
      case Some(v) => v < t.conditions.value[i];
    if goesLeft then t.left[i] else t.right[i]
  }

  /** Follows x from `node` for at most `fuel` nodes; a broken link, or running out of fuel, is Stuck. */
  function Walk(t: Tree, x: Features, node: int, fuel: nat): Outcome
    decreases fuel
  {
    if fuel == 0 || !HasCondition(t, node) then Stuck
    else if IsLeaf(t, node) then Leaf(node)
    else if !IsSplit(t, node) then Stuck
    else Walk(t, x, Child(t, x, node), fuel - 1)
  }

  /** A walk that visits no node twice needs no more fuel than there are nodes. */
  function Route(t: Tree, x: Features): Outcome {
    Walk(t, x, 0, |t.left|)
  }

  function LeafValue(t: Tree, o: Outcome): real {
    if o.Leaf? && HasCondition(t, o.node) then t.conditions.value[o.node] else 0.0
  }

  function Score(t: Tree, x: Features): real {
    LeafValue(t, Route(t, x))
  }

  function TreeSum(trees: seq<Tree>, x: Features): real {
    if trees == [] then 0.0 else Score(trees[0], x) + TreeSum(trees[1..], x)
  }

  lemma {:induction false} TreeSumConcat(a: seq<Tree>, b: seq<Tree>, x: Features)
    ensures TreeSum(a + b, x) == TreeSum(a, x) + TreeSum(b, x)
  {
    if a == [] {
      assert a + b == b;
    } else {
      assert (a + b)[0] == a[0] && (a + b)[1..] == a[1..] + b;
      TreeSumConcat(a[1..], b, x);
    }
  }

  /** Every array covers every node. */
  ghost predicate Complete(t: Tree) {
    && |t.left| == |t.right| == |t.feature| == |t.defaultLeft|
    && |t.left| > 0
    && t.conditions.Some? && |t.conditions.value| == |t.left|
  }

  /** Both children of a split are nodes, and of lower rank. */
  ghost predicate DescendsAt(t: Tree, rank: seq<nat>, i: nat)
    requires Complete(t) && |rank| == |t.left| && i < |t.left|
  {
    t.left[i] == -1
    || (0 <= t.left[i] < |t.left| && 0 <= t.right[i] < |t.left|
        && rank[t.left[i]] < rank[i] && rank[t.right[i]] < rank[i])
  }

  ghost predicate RankedBy(t: Tree, rank: seq<nat>) {
    && Complete(t) && |rank| == |t.left|
    && forall i | 0 <= i < |rank| :: rank[i] < |rank| && DescendsAt(t, rank, i)
  }

  /** No path returns to a node: ranks, such as heights, go down along every link, however nodes are numbered. */
  ghost predicate WellFounded(t: Tree) {
    exists rank: seq<nat> :: RankedBy(t, rank)
  }

  /** In particular when each split points at later nodes. */
  lemma LaterChildrenAreWellFounded(t: Tree)
    requires Complete(t)
    requires forall i | 0 <= i < |t.left| ::
               t.left[i] == -1 || (i < t.left[i] < |t.left| && i < t.right[i] < |t.left|)
    ensures WellFounded(t)
  {
    var n := |t.left|;
    var rank: seq<nat> := seq(n, i requires 0 <= i < n => n - 1 - i);
    assert forall i | 0 <= i < n :: DescendsAt(t, rank, i);
    assert RankedBy(t, rank);
  }

  lemma {:induction false} WalkReachesLeaf(t: Tree, rank: seq<nat>, x: Features, node: int, fuel: nat)
    requires RankedBy(t, rank) && 0 <= node < |t.left| && rank[node] < fuel
    ensures Walk(t, x, node, fuel).Leaf?
    ensures IsLeaf(t, Walk(t, x, node, fuel).node)
    decreases fuel
  {
    if !IsLeaf(t, node) {
      assert IsSplit(t, node) && DescendsAt(t, rank, node);
      WalkReachesLeaf(t, rank, x, Child(t, x, node), fuel - 1);
    }
  }

  /** In a well-founded tree every input comes to a leaf, so Route's fuel is never what stops it. */
  lemma WellFoundedReachesLeaf(t: Tree, x: Features)
    requires WellFounded(t)
    ensures Route(t, x).Leaf? && IsLeaf(t, Route(t, x).node)
  {
    var rank: seq<nat> :| RankedBy(t, rank);
    WalkReachesLeaf(t, rank, x, 0, |t.left|);
  }
}
