/**
 The participant's noise step: a sample is added to every leaf value, in place, before a
 model leaves the organisation. Which samples are drawn is the environment's choice.
 */
module Privacy {
  import opened Wrappers
  import opened Trees

  /** A model as parsed: not JSON, JSON without a learner, or an ensemble. */
  datatype Document = NotJson | NoLearner | Ensemble(trees: seq<Tree>)

  /** The sample drawn for a node of one tree, and for each tree of an ensemble. */
  type Noise = nat -> real
  type Samples = nat -> Noise

  function NoisyConditions(conditions: seq<real>, left: seq<int>, noise: Noise): seq<real> {
    seq(|conditions|, i requires 0 <= i < |conditions| =>
      if i < |left| && left[i] == -1 then conditions[i] + noise(i) else conditions[i])
  }

  function NoisyTree(t: Tree, noise: Noise): Tree {
    match t.conditions
    case None => t
    case Some(c) => t.(conditions := Some(NoisyConditions(c, t.left, noise)))
  }

  function NoisyTrees(trees: seq<Tree>, samples: Samples): seq<Tree> {
    seq(|trees|, k requires 0 <= k < |trees| => NoisyTree(trees[k], samples(k)))
  }

  function NoisyDocument(document: Document, samples: Samples): Document {
    match document
    case NotJson => document
    case NoLearner => document
    case Ensemble(trees) => Ensemble(NoisyTrees(trees, samples))
  }

  /** The loop over one tree's array. */
  method PerturbLeaves(conditions: array<real>, left: seq<int>, noise: Noise)
    modifies conditions
    ensures conditions[..] == NoisyConditions(old(conditions[..]), left, noise)
  {
    for i := 0 to conditions.Length
      invariant forall j | 0 <= j < i ::
          conditions[j] == NoisyConditions(old(conditions[..]), left, noise)[j]
      invariant forall j | i <= j < conditions.Length :: conditions[j] == old(conditions[j])
    {
      if i < |left| && left[i] == -1 {
        conditions[i] := conditions[i] + noise(i);
      }
    }
  }

  /** A tree with a sample added to the condition of every leaf, and all else as it was. */
  ghost predicate LeavesNoised(before: Tree, after: Tree, noise: Noise) {
    && after.left == before.left && after.right == before.right
    && after.feature == before.feature && after.defaultLeft == before.defaultLeft
    && (before.conditions.None? <==> after.conditions.None?)
    && (before.conditions.Some? ==>
          && |after.conditions.value| == |before.conditions.value|
          && forall i | 0 <= i < |before.conditions.value| ::
               after.conditions.value[i]
                 == before.conditions.value[i] + if IsLeaf(before, i) then noise(i) else 0.0)
  }

  /** What the step promises of its result: every tree of an ensemble is noised, and nothing but an ensemble changes. */
  ghost predicate DocumentNoised(before: Document, after: Document, samples: Samples) {
    if before.Ensemble? then
      && after.Ensemble? && |after.trees| == |before.trees|
      && forall k | 0 <= k < |before.trees| :: LeavesNoised(before.trees[k], after.trees[k], samples(k))
    else after == before
  }

  lemma NoisyIsNoised(document: Document, samples: Samples)
    ensures DocumentNoised(document, NoisyDocument(document, samples), samples)
  {
  }

  /** There is only one such document. */
  lemma NoisedIsUnique(document: Document, a: Document, b: Document, samples: Samples)
    requires DocumentNoised(document, a, samples) && DocumentNoised(document, b, samples)
    ensures a == b
  {
    if document.Ensemble? {
      forall k | 0 <= k < |document.trees|
        ensures a.trees[k] == b.trees[k]
      {
        var t := document.trees[k];
        assert LeavesNoised(t, a.trees[k], samples(k)) && LeavesNoised(t, b.trees[k], samples(k));
        if t.conditions.Some? {
          assert a.trees[k].conditions.value == b.trees[k].conditions.value;
        }
      }
    }
  }

  method ApplyDifferentialPrivacy(document: Document, samples: Samples) returns (out: Document)
    ensures DocumentNoised(document, out, samples)
    ensures out == NoisyDocument(document, samples)
  {
    NoisyIsNoised(document, samples);
    if !document.Ensemble? {
      return document;
    }
    var trees := document.trees;
    var noisy: seq<Tree> := [];
    for k := 0 to |trees|
      invariant noisy == NoisyTrees(trees, samples)[..k]
    {
      var tree := trees[k];
      if tree.conditions.Some? {
        var values := tree.conditions.value;
        var conditions := new real[|values|](i requires 0 <= i < |values| => values[i]);
        assert conditions[..] == values;
        PerturbLeaves(conditions, tree.left, samples(k));
        tree := tree.(conditions := Some(conditions[..]));
      }
      noisy := noisy + [tree];
      assert NoisyTrees(trees, samples)[..k + 1] == NoisyTrees(trees, samples)[..k] + [NoisyTree(trees[k], samples(k))];
    }
    out := Ensemble(noisy);
  }

  /** Noise falls on leaves only, and routing reads splits only: every walk is unchanged, broken trees included. */
  lemma {:induction false} NoiseKeepsWalk(t: Tree, noise: Noise, x: Features, node: int, fuel: nat)
    ensures Walk(NoisyTree(t, noise), x, node, fuel) == Walk(t, x, node, fuel)
    decreases fuel
  {
    var n := NoisyTree(t, noise);
    assert HasCondition(n, node) == HasCondition(t, node);
    if fuel > 0 && HasCondition(t, node) && !IsLeaf(t, node) && IsSplit(t, node) {
      assert n.conditions.value[node] == t.conditions.value[node];
      assert Child(n, x, node) == Child(t, x, node);
      NoiseKeepsWalk(t, noise, x, Child(t, x, node), fuel - 1);
    }
  }

  lemma NoiseKeepsRoute(t: Tree, noise: Noise, x: Features)
    ensures Route(NoisyTree(t, noise), x) == Route(t, x)
  {
    NoiseKeepsWalk(t, noise, x, 0, |t.left|);
  }

  lemma NoiseKeepsRouting(trees: seq<Tree>, samples: Samples, x: Features)
    ensures |NoisyTrees(trees, samples)| == |trees|
    ensures forall k | 0 <= k < |trees| :: Route(NoisyTrees(trees, samples)[k], x) == Route(trees[k], x)
  {
    forall k | 0 <= k < |trees|
      ensures Route(NoisyTrees(trees, samples)[k], x) == Route(trees[k], x)
    {
      NoiseKeepsRoute(trees[k], samples(k), x);
    }
  }

  lemma {:induction false} WalkEndsAtLeaf(t: Tree, x: Features, node: int, fuel: nat)
    ensures var o := Walk(t, x, node, fuel); o.Leaf? ==> IsLeaf(t, o.node) && HasCondition(t, o.node)
    decreases fuel
  {
    if fuel > 0 && HasCondition(t, node) && !IsLeaf(t, node) && IsSplit(t, node) {
      WalkEndsAtLeaf(t, x, Child(t, x, node), fuel - 1);
    }
  }

  /** The sample that input x meets in one tree. */
  function NoiseMet(t: Tree, noise: Noise, x: Features): real {
    match Route(t, x)
    case Leaf(node) => noise(node)
    case Stuck => 0.0
  }

  /** In a well-founded tree every input comes to a leaf, with or without noise, and meets the sample drawn there. */
  lemma WellFoundedMeetsSample(t: Tree, noise: Noise, x: Features)
    requires WellFounded(t)
    ensures Route(t, x).Leaf? && IsLeaf(t, Route(t, x).node)
    ensures Route(NoisyTree(t, noise), x) == Route(t, x)
    ensures Score(t, x) == t.conditions.value[Route(t, x).node]
    ensures NoiseMet(t, noise, x) == noise(Route(t, x).node)
  {
    WellFoundedReachesLeaf(t, x);
    NoiseKeepsRoute(t, noise, x);
    WalkEndsAtLeaf(t, x, 0, |t.left|);
  }

  function NoiseSum(trees: seq<Tree>, samples: Samples, x: Features): real {
    if trees == [] then 0.0
    else NoiseMet(trees[0], samples(0), x) + NoiseSum(trees[1..], (k: nat) => samples(k + 1), x)
  }

  lemma NoiseShiftsScore(t: Tree, noise: Noise, x: Features)
    ensures Score(NoisyTree(t, noise), x) == Score(t, x) + NoiseMet(t, noise, x)
  {
    NoiseKeepsRoute(t, noise, x);
    WalkEndsAtLeaf(t, x, 0, |t.left|);
  }

  /**
   The ensemble's sum moves by exactly the samples met; and a well-founded tree always meets the one
   drawn for the leaf that x reaches.
   */
  lemma {:induction false} NoiseShiftsTreeSum(trees: seq<Tree>, samples: Samples, x: Features)
    ensures TreeSum(NoisyTrees(trees, samples), x) == TreeSum(trees, x) + NoiseSum(trees, samples, x)
    ensures forall k | 0 <= k < |trees| && WellFounded(trees[k]) ::
              && Route(trees[k], x).Leaf? && IsLeaf(trees[k], Route(trees[k], x).node)
              && NoiseMet(trees[k], samples(k), x) == samples(k)(Route(trees[k], x).node)
  {
    forall k | 0 <= k < |trees| && WellFounded(trees[k])
      ensures Route(trees[k], x).Leaf? && IsLeaf(trees[k], Route(trees[k], x).node)
      ensures NoiseMet(trees[k], samples(k), x) == samples(k)(Route(trees[k], x).node)
    {
      WellFoundedMeetsSample(trees[k], samples(k), x);
    }
    if trees != [] {
      var rest := (k: nat) => samples(k + 1);
      assert NoisyTrees(trees, samples)[1..] == NoisyTrees(trees[1..], rest);
      NoiseShiftsScore(trees[0], samples(0), x);
      NoiseShiftsTreeSum(trees[1..], rest, x);
    }
  }

  /** Whatever the step returns for an ensemble predicts the old sum plus the samples met at the leaves reached. */
  lemma NoisedShiftsTreeSum(document: Document, after: Document, samples: Samples, x: Features)
    requires document.Ensemble? && DocumentNoised(document, after, samples)
    ensures after.Ensemble?
    ensures TreeSum(after.trees, x) == TreeSum(document.trees, x) + NoiseSum(document.trees, samples, x)
  {
    NoisyIsNoised(document, samples);
    NoisedIsUnique(document, after, NoisyDocument(document, samples), samples);
    NoiseShiftsTreeSum(document.trees, samples, x);
  }
}
