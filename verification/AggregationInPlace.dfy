/**
 The merge as the coordinator runs it: each upload is parsed into fresh mutable objects, the
 heaviest one is extended with the others' tree objects, and their ids and its arrays are
 overwritten. It computes Aggregation.Merge.
 */
module AggregationInPlace {
  import opened Wrappers
  import opened Trees
  import opened Sorting
  import opened Aggregation
  import opened AggregationTheorems

  class TreeObject {
    var id: int
    const body: Tree

    constructor (tree: NumberedTree)
      ensures id == tree.id && body == tree.body
    {
      id, body := tree.id, tree.body;
    }
  }

  class ModelObject {
    const featureNames: seq<string>
    const numFeature: Option<int>
    var trees: seq<TreeObject>
    var treeInfo: seq<int>
    var iterationIndptr: seq<int>
    var numTrees: Option<int>
    ghost const origin: Model  // the document this object was parsed from

    constructor (document: Model, trees: seq<TreeObject>)
      ensures featureNames == document.featureNames && numFeature == document.numFeature
      ensures this.trees == trees && treeInfo == document.treeInfo
      ensures iterationIndptr == document.iterationIndptr && numTrees == document.numTrees
      ensures origin == document
    {
      featureNames, numFeature := document.featureNames, document.numFeature;
      this.trees, treeInfo := trees, document.treeInfo;
      iterationIndptr, numTrees := document.iterationIndptr, document.numTrees;
      origin := document;
    }

    function Value(): Model
      reads this, trees
    {
      Model(featureNames, numFeature, Values(trees), treeInfo, iterationIndptr, numTrees)
    }

    function Schema(): Schema {
      if featureNames != [] then Names(featureNames)
      else Dimension(if numFeature.Some? then numFeature.value else 0)
    }
  }

  function Values(trees: seq<TreeObject>): seq<NumberedTree>
    reads trees
  {
    seq(|trees|, i requires 0 <= i < |trees| reads trees => NumberedTree(trees[i].id, trees[i].body))
  }

  ghost predicate Unaliased(trees: seq<TreeObject>) {
    forall i, j | 0 <= i < j < |trees| :: trees[i] != trees[j]
  }

  /** Parsing builds one new object for every tree, so nothing is shared. */
  method Load(document: Model) returns (m: ModelObject)
    ensures fresh(m) && fresh(m.trees) && Unaliased(m.trees)
    ensures Untouched(m) && m.origin == document
  {
    var trees: seq<TreeObject> := [];
    for i := 0 to |document.trees|
      invariant |trees| == i && fresh(trees) && Unaliased(trees)
      invariant forall k | 0 <= k < i :: NumberedTree(trees[k].id, trees[k].body) == document.trees[k]
    {
      var tree := new TreeObject(document.trees[i]);
      trees := trees + [tree];
    }
    m := new ModelObject(document, trees);
    assert Values(m.trees) == document.trees;
  }

  ghost predicate IsLast(trees: seq<TreeObject>, k: int, n: int)
    requires 0 <= k < n <= |trees|
  {
    forall l | k < l < n :: trees[l] != trees[k]
  }

  /** Every object among the first n has its last position there as its id. */
  ghost predicate LastIds(trees: seq<TreeObject>, n: int)
    requires 0 <= n <= |trees|
    reads trees
  {
    forall k | 0 <= k < n && IsLast(trees, k, n) :: trees[k].id == k
  }

  lemma LastIdsCountUpIff(trees: seq<TreeObject>)
    requires LastIds(trees, |trees|)
    ensures (forall i | 0 <= i < |trees| :: trees[i].id == i) <==> Unaliased(trees)
  {
    if Unaliased(trees) {
      forall i | 0 <= i < |trees|
        ensures trees[i].id == i
      {
        assert IsLast(trees, i, |trees|);
      }
    }
  }

  /**
   Replaces the model's trees and renumbers them in place. A tree object that occurs twice ends
   with its last position, so the ids count up from 0 exactly when no object is shared.
   */
  method SetTrees(m: ModelObject, trees: seq<TreeObject>)
    modifies m, trees
    ensures m.trees == trees
    ensures m.treeInfo == seq(|trees|, i => 0) && m.iterationIndptr == seq(|trees| + 1, i => i)
    ensures m.numTrees == if old(m.numTrees).Some? then Some(|trees|) else None
    ensures LastIds(trees, |trees|)
    ensures (forall i | 0 <= i < |trees| :: trees[i].id == i) <==> Unaliased(trees)
  {
    var n := |trees|;
    for i := 0 to n
      invariant unchanged(m)
      invariant LastIds(trees, i)
    {
      trees[i].id := i;
      forall k | 0 <= k < i && IsLast(trees, k, i + 1)
        ensures IsLast(trees, k, i) && trees[k] != trees[i]
      {
      }
    }
    LastIdsCountUpIff(trees);
    m.trees := trees;
    m.treeInfo := seq(n, i => 0);
    m.iterationIndptr := seq(n + 1, i => i);
    if m.numTrees.Some? {
      m.numTrees := Some(n);
    }
  }

  type Entry = (ModelObject, int)

  /** The documents behind a list of parsed models. */
  ghost function Origins(s: seq<Entry>): seq<WeightedModel> {
    seq(|s|, i requires 0 <= i < |s| => (s[i].0.origin, s[i].1))
  }

  lemma SortOrigins(s: seq<Entry>)
    ensures SortDescending(Origins(s)) == Origins(SortDescending(s))
  {
    var origin := (m: ModelObject) => m.origin;
    var sorted := SortDescending(s);
    SortRelabel(s, origin, 1);
    assert Relabel(s, origin, 1) == Origins(s);
    assert Relabel(sorted, origin, 1) == Origins(sorted);
  }

  function SchemasOf(s: seq<Entry>): set<Schema> {
    set p | p in s :: p.0.Schema()
  }

  /** A model object that still holds what it was parsed from. */
  ghost predicate Untouched(m: ModelObject)
    reads m, m.trees
  {
    m.Value() == m.origin && Unaliased(m.trees)
  }

  lemma UntouchedParts(m: ModelObject)
    requires Untouched(m)
    ensures Values(m.trees) == m.origin.trees && |m.trees| == |m.origin.trees|
    ensures m.Schema() == FeatureSchema(m.origin)
  {
    assert m.Value().trees == Values(m.trees);
  }

  ghost predicate Pristine(s: seq<Entry>)
    reads *
  {
    forall p | p in s :: Untouched(p.0)
  }

  ghost predicate SharesNoTree(a: ModelObject, b: ModelObject)
    reads a, b
  {
    forall t | t in a.trees :: t !in b.trees
  }

  /** Entries at different places share neither the model object nor any tree object. */
  ghost predicate Apart(s: seq<Entry>)
    reads set p | p in s :: p.0
  {
    forall i, j | 0 <= i < |s| && 0 <= j < |s| && i != j ::
      s[i].0 != s[j].0 && SharesNoTree(s[i].0, s[j].0)
  }

  lemma PermutationStaysApart(s: seq<Entry>, r: seq<Entry>)
    requires multiset(r) == multiset(s) && Apart(s)
    ensures Apart(r)
  {
    PermutationStaysDistinct(s, r);
    forall i, j | 0 <= i < |r| && 0 <= j < |r| && i != j
      ensures r[i].0 != r[j].0 && SharesNoTree(r[i].0, r[j].0)
    {
      var k := PermutationHas(r, s, i);
      var l := PermutationHas(r, s, j);
      assert r[i] != r[j];
      assert k != l;
    }
  }

  lemma PermutationStaysPristine(s: seq<Entry>, r: seq<Entry>)
    requires multiset(r) == multiset(s) && Pristine(s)
    ensures Pristine(r)
  {
    forall p | p in r
      ensures p in s
    {
      assert p in multiset(r) && p in multiset(s);
    }
  }

  lemma {:induction false} TotalOfOrigins(s: seq<Entry>)
    ensures TotalWeight(Origins(s)) == TotalWeight(s)
  {
    if s != [] {
      assert Origins(s)[1..] == Origins(s[1..]);
      TotalOfOrigins(s[1..]);
    }
  }

  lemma SchemasOfOrigins(s: seq<Entry>)
    requires Pristine(s)
    ensures SchemasOf(s) == Schemas(Origins(s))
  {
    var values := Origins(s);
    forall p | p in s
      ensures p.0.Schema() in Schemas(values)
    {
      var i :| 0 <= i < |s| && s[i] == p;
      UntouchedParts(p.0);
      assert values[i] in values;
    }
    forall q | q in values
      ensures FeatureSchema(q.0) in SchemasOf(s)
    {
      var i :| 0 <= i < |values| && values[i] == q;
      assert s[i] in s;
      UntouchedParts(s[i].0);
    }
  }

  lemma {:induction false} AppendedLast(others: seq<WeightedModel>, last: WeightedModel, total: nat)
    requires total > 0 && Positive(others + [last])
    ensures Positive(others) && last.1 > 0
    ensures Appended(others + [last], total) == Appended(others, total) + Included(last, total)
  {
    assert (others + [last])[|others|] == last;
    assert forall i | 0 <= i < |others| :: (others + [last])[i] == others[i];
    if others == [] {
      assert [last][1..] == [];
      assert others + [last] == [last];
    } else {
      assert (others + [last])[1..] == others[1..] + [last];
      AppendedLast(others[1..], last, total);
    }
  }

  lemma UsableOneMore(inputs: seq<Contribution>, i: nat)
    requires i < |inputs|
    ensures Usable(inputs[..i + 1])
         == Usable(inputs[..i]) + if IsUsable(inputs[i]) then [(inputs[i].document.value, inputs[i].weight)] else []
  {
    assert inputs[..i + 1] == inputs[..i] + [inputs[i]];
    UsableConcat(inputs[..i], [inputs[i]]);
    assert Usable([inputs[i]][1..]) == [];
  }

  lemma OneMoreEntry(parsed: seq<Entry>, m: ModelObject, weight: int)
    requires Pristine(parsed) && Apart(parsed) && Untouched(m)
    requires forall p | p in parsed :: p.0 != m && SharesNoTree(p.0, m)
    ensures Origins(parsed + [(m, weight)]) == Origins(parsed) + [(m.origin, weight)]
    ensures Pristine(parsed + [(m, weight)]) && Apart(parsed + [(m, weight)])
  {
    var all := parsed + [(m, weight)];
    forall i, j | 0 <= i < |all| && 0 <= j < |all| && i != j
      ensures all[i].0 != all[j].0 && SharesNoTree(all[i].0, all[j].0)
    {
      if i < |parsed| && j == |parsed| {
        assert all[i] in parsed;
      } else if j < |parsed| && i == |parsed| {
        assert all[j] in parsed;
      }
    }
  }

  /** Parsing and filtering. */
  method ParseUsable(inputs: seq<Contribution>) returns (parsed: seq<Entry>)
    ensures Origins(parsed) == Usable(inputs)
    ensures Pristine(parsed) && Apart(parsed)
    ensures forall p | p in parsed :: fresh(p.0) && fresh(p.0.trees)
  {
    parsed := [];
    for i := 0 to |inputs|
      invariant Origins(parsed) == Usable(inputs[..i])
      invariant Pristine(parsed) && Apart(parsed)
      invariant forall p | p in parsed :: fresh(p.0) && fresh(p.0.trees)
    {
      UsableOneMore(inputs, i);
      if inputs[i].document.Some? {
        var m := Load(inputs[i].document.value);
        UntouchedParts(m);
        if inputs[i].weight > 0 && m.trees != [] {
          OneMoreEntry(parsed, m, inputs[i].weight);
          parsed := parsed + [(m, inputs[i].weight)];
        }
      }
    }
    assert inputs[..|inputs|] == inputs;
  }

  ghost predicate OwnsTrees(owned: set<TreeObject>, s: seq<Entry>)
    reads set p | p in s :: p.0
  {
    forall p, t | p in s && t in p.0.trees :: t in owned
  }

  ghost predicate AvoidsFrom(trees: seq<TreeObject>, s: seq<Entry>, j: nat)
    reads set p | p in s :: p.0
  {
    forall i, t | j <= i < |s| && t in s[i].0.trees :: t !in trees
  }

  lemma ExtendStaysUnaliased(trees: seq<TreeObject>, taken: seq<TreeObject>)
    requires Unaliased(trees) && Unaliased(taken) && forall t | t in taken :: t !in trees
    ensures Unaliased(trees + taken)
    ensures Values(trees + taken) == Values(trees) + Values(taken)
  {
    var all := trees + taken;
    forall i, j | 0 <= i < j < |all|
      ensures all[i] != all[j]
    {
      if i < |trees| <= j {
        assert all[j] in taken && all[i] in trees;
      }
    }
  }

  lemma ExtendStillAvoids(trees: seq<TreeObject>, taken: seq<TreeObject>, s: seq<Entry>, j: nat)
    requires Apart(s) && j < |s| && AvoidsFrom(trees, s, j)
    requires forall t | t in taken :: t in s[j].0.trees
    ensures AvoidsFrom(trees + taken, s, j + 1)
  {
    forall i, t | j + 1 <= i < |s| && t in s[i].0.trees
      ensures t !in trees + taken
    {
      assert SharesNoTree(s[i].0, s[j].0);
    }
  }

  /** What the trees collected from the first j models have to satisfy. */
  ghost predicate Collected(trees: seq<TreeObject>, s: seq<Entry>, total: nat, j: nat, owned: set<TreeObject>)
    requires total > 0 && 0 < j <= |s| && Positive(Origins(s))
    reads set p | p in s :: p.0, trees
  {
    && Positive(Origins(s)[1..j])
    && Values(trees) == Origins(s)[0].0.trees + Appended(Origins(s)[1..j], total)
    && Unaliased(trees) && AvoidsFrom(trees, s, j)
    && forall t | t in trees :: t in owned
  }

  function Taken(trees: seq<TreeObject>, weight: nat, total: nat): seq<TreeObject>
    requires total > 0
  {
    Prefix(trees, Quota(|trees|, weight, total))
  }

  lemma CollectOne(trees: seq<TreeObject>, s: seq<Entry>, total: nat, j: nat, owned: set<TreeObject>)
    requires total > 0 && 0 < j < |s| && Positive(Origins(s))
    requires Pristine(s) && Apart(s) && OwnsTrees(owned, s)
    requires Collected(trees, s, total, j, owned) && s[j].1 > 0
    ensures Collected(trees + Taken(s[j].0.trees, s[j].1, total), s, total, j + 1, owned)
  {
    var values := Origins(s);
    var taken := Taken(s[j].0.trees, s[j].1, total);
    assert s[j] in s;
    UntouchedParts(s[j].0);
    assert Values(taken) == Included(values[j], total);
    assert values[1..j + 1] == values[1..j] + [values[j]];
    AppendedLast(values[1..j], values[j], total);
    ExtendStaysUnaliased(trees, taken);
    ExtendStillAvoids(trees, taken, s, j);
  }

  /** The base's own tree list, extended with each other model's prefix. */
  method CollectTrees(sorted: seq<Entry>, total: nat, ghost owned: set<TreeObject>) returns (trees: seq<TreeObject>)
    requires sorted != [] && total > 0 && Positive(Origins(sorted))
    requires Pristine(sorted) && Apart(sorted) && OwnsTrees(owned, sorted)
    ensures Values(trees) == Pool(Origins(sorted), total) && Unaliased(trees)
    ensures forall t | t in trees :: t in owned
  {
    ghost var values := Origins(sorted);
    trees := sorted[0].0.trees;
    assert sorted[0] in sorted;
    UntouchedParts(sorted[0].0);
    assert values[1..1] == [];
    ExtendStillAvoids([], trees, sorted, 0);
    assert [] + trees == trees;
    for j := 1 to |sorted|
      invariant Collected(trees, sorted, total, j, owned)
    {
      assert values[j].1 == sorted[j].1;
      CollectOne(trees, sorted, total, j, owned);
      var clientTrees := sorted[j].0.trees;
      if clientTrees == [] {
        assert trees + Taken(clientTrees, sorted[j].1, total) == trees;
        continue;
      }
      trees := trees + Taken(clientTrees, sorted[j].1, total);
    }
    assert values[1..|sorted|] == values[1..];
  }

  /** Extend, cap and renumber the heaviest model. */
  method Bag(sorted: seq<Entry>, total: nat, ghost owned: set<TreeObject>) returns (merged: Merged)
    requires sorted != [] && total > 0 && Positive(Origins(sorted))
    requires Pristine(sorted) && Apart(sorted) && OwnsTrees(owned, sorted)
    modifies sorted[0].0, owned
    ensures merged == MergeSorted(Origins(sorted), total)
  {
    var base := sorted[0].0;
    assert sorted[0] in sorted;
    assert Untouched(base);
    var baseTrees := CollectTrees(sorted, total, owned);
    ghost var pool := Pool(Origins(sorted), total);
    assert |Values(baseTrees)| == |baseTrees|;
    var capped := |baseTrees| > MAX_GLOBAL_TREES;
    if capped {
      baseTrees := baseTrees[..MAX_GLOBAL_TREES];
    }
    ghost var kept := Prefix(pool, MAX_GLOBAL_TREES);
    assert Values(baseTrees) == kept;
    SetTrees(base, baseTrees);
    RenumberedValues(baseTrees, kept);
    merged := Merged(base.Value(), MergeInfo(|sorted|, |baseTrees|, capped));
  }

  lemma RenumberedValues(trees: seq<TreeObject>, kept: seq<NumberedTree>)
    requires |trees| == |kept|
    requires forall i | 0 <= i < |trees| :: trees[i].id == i && trees[i].body == kept[i].body
    ensures Values(trees) == Renumbered(kept)
  {
  }

  lemma AfterSort(inputs: seq<Contribution>, parsed: seq<Entry>, owned: set<TreeObject>)
    requires Origins(parsed) == Usable(inputs) && parsed != []
    requires Pristine(parsed) && Apart(parsed) && OwnsTrees(owned, parsed)
    ensures var sorted := SortDescending(parsed);
      && |sorted| == |parsed| && Pristine(sorted) && Apart(sorted) && OwnsTrees(owned, sorted)
      && Origins(sorted) == SortDescending(Usable(inputs)) && Positive(Origins(sorted))
      && TotalWeight(parsed) == TotalWeight(Usable(inputs)) && TotalWeight(parsed) > 0
      && exists p :: p in parsed && p.0 == sorted[0].0
  {
    var sorted := SortDescending(parsed);
    SortKeepsMembers(parsed);
    SortOrigins(parsed);
    UsableIsPositive(inputs);
    TotalIsPositive(Usable(inputs));
    SortKeepsPositive(Usable(inputs));
    TotalOfOrigins(parsed);
    PermutationStaysApart(parsed, sorted);
    PermutationStaysPristine(parsed, sorted);
    forall p | p in sorted
      ensures p in parsed
    {
      assert p in multiset(sorted) && p in multiset(parsed);
    }
    assert sorted[0] in sorted;
  }

  /** The merge: parse, refuse mixed schemas, sort, extend, cap, renumber. */
  method MergeXgboostModels(inputs: seq<Contribution>) returns (result: Result<Merged, MergeError>)
    ensures result == Merge(inputs)
  {
    var parsed := ParseUsable(inputs);
    assert |parsed| == |Usable(inputs)|;
    if parsed == [] {
      return Failure(NoUsableModels);
    }
    var schemas := SchemasOf(parsed);
    SchemasOfOrigins(parsed);
    if |schemas| > 1 {
      return Failure(SchemaMismatch(schemas));
    }
    var total := TotalWeight(parsed);
    ghost var owned := set p, t | p in parsed && t in p.0.trees :: t;
    AfterSort(inputs, parsed, owned);
    parsed := SortDescending(parsed);
    var merged := Bag(parsed, total, owned);
    result := Success(merged);
  }
}
