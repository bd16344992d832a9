/**
 Federated bagging: what the merge of weighted tree ensembles is, as a function of its
 inputs, and what that function guarantees. AggregationInPlace proves that the mutating
 algorithm computes it.
 */
module Aggregation {
  import opened Wrappers
  import opened Trees
  import opened Sorting

  const MAX_GLOBAL_TREES: nat := 500

  datatype NumberedTree = NumberedTree(id: int, body: Tree)

  /** The parts of an XGBoost JSON model that merging reads or writes. */
  datatype Model = Model(
    featureNames: seq<string>,
    numFeature: Option<int>,       // None: absent, or not an integer
    trees: seq<NumberedTree>,
    treeInfo: seq<int>,
    iterationIndptr: seq<int>,
    numTrees: Option<int>)         // None: the document has no gbtree_model_param

  datatype Schema = Names(names: seq<string>) | Dimension(count: int)

  function FeatureSchema(m: Model): Schema {
    if m.featureNames != [] then Names(m.featureNames)
    else Dimension(if m.numFeature.Some? then m.numFeature.value else 0)
  }

  /** One upload and its weight; the document is None when the bytes are not JSON. */
  datatype Contribution = Contribution(document: Option<Model>, weight: int)

  datatype MergeInfo = MergeInfo(numModels: nat, totalTrees: nat, capped: bool)
  datatype Merged = Merged(model: Model, info: MergeInfo)
  datatype MergeError = NoUsableModels | SchemaMismatch(schemas: set<Schema>)

  type WeightedModel = (Model, int)

  predicate IsUsable(c: Contribution) {
    c.document.Some? && c.weight > 0 && c.document.value.trees != []
  }

  function Usable(inputs: seq<Contribution>): seq<WeightedModel> {
    if inputs == [] then []
    else (if IsUsable(inputs[0]) then [(inputs[0].document.value, inputs[0].weight)] else []) + Usable(inputs[1..])
  }

  function TotalWeight<T>(s: seq<(T, int)>): int {
    if s == [] then 0 else s[0].1 + TotalWeight(s[1..])
  }

  function Schemas(s: seq<WeightedModel>): set<Schema> {
    set p | p in s :: FeatureSchema(p.0)
  }

  /** How many of a model's `length` trees its share of the total weight buys; never none. */
  function Quota(length: nat, weight: nat, total: nat): nat
    requires total > 0
  {
    var share := length * weight / total;
    if share > 1 then share else 1
  }

  /** A slice from the start, clamped to the length of s. */
  function Prefix<T>(s: seq<T>, n: nat): seq<T> {
    if n <= |s| then s[..n] else s
  }

  ghost predicate Positive<T>(s: seq<(T, int)>) {
    forall i | 0 <= i < |s| :: s[i].1 > 0
  }

  function Included(p: WeightedModel, total: nat): seq<NumberedTree>
    requires total > 0 && p.1 > 0
  {
    Prefix(p.0.trees, Quota(|p.0.trees|, p.1, total))
  }

  function Appended(others: seq<WeightedModel>, total: nat): seq<NumberedTree>
    requires total > 0 && Positive(others)
  {
    if others == [] then [] else Included(others[0], total) + Appended(others[1..], total)
  }

  /** The trees before the cap: all of the heaviest model's, then each other model's share. */
  function Pool(sorted: seq<WeightedModel>, total: nat): seq<NumberedTree>
    requires total > 0 && Positive(sorted) && sorted != []
  {
    sorted[0].0.trees + Appended(sorted[1..], total)
  }

  function Renumbered(trees: seq<NumberedTree>): seq<NumberedTree> {
    seq(|trees|, i requires 0 <= i < |trees| => trees[i].(id := i))
  }

  /** The model with its tree list replaced and every parallel array rebuilt. */
  function WithTrees(m: Model, trees: seq<NumberedTree>): Model {
    m.(trees := Renumbered(trees),
       treeInfo := seq(|trees|, i => 0),
       iterationIndptr := seq(|trees| + 1, i => i),
       numTrees := if m.numTrees.Some? then Some(|trees|) else None)
  }

  lemma {:induction false} UsableIsPositive(inputs: seq<Contribution>)
    ensures Positive(Usable(inputs))
    ensures forall i | 0 <= i < |Usable(inputs)| :: Usable(inputs)[i].0.trees != []
  {
    if inputs != [] {
      UsableIsPositive(inputs[1..]);
    }
  }

  lemma {:induction false} TotalIsPositive<T>(s: seq<(T, int)>)
    requires Positive(s)
    ensures TotalWeight(s) >= 0
    ensures s != [] ==> TotalWeight(s) > 0
  {
    if s != [] {
      TotalIsPositive(s[1..]);
    }
  }

  lemma SortKeepsPositive<T>(s: seq<(T, int)>)
    requires Positive(s)
    ensures Positive(SortDescending(s))
  {
    SortKeepsMembers(s);
    forall i | 0 <= i < |SortDescending(s)|
      ensures SortDescending(s)[i].1 > 0
    {
      var j := PermutationHas(SortDescending(s), s, i);
    }
  }

  /** The result of merging, given the usable models in descending order and their total weight. */
  function MergeSorted(sorted: seq<WeightedModel>, total: int): Merged
    requires sorted != [] && Positive(sorted) && total > 0
  {
    var pool := Pool(sorted, total);
    var kept := Prefix(pool, MAX_GLOBAL_TREES);
    Merged(WithTrees(sorted[0].0, kept), MergeInfo(|sorted|, |kept|, |pool| > MAX_GLOBAL_TREES))
  }

  function Merge(inputs: seq<Contribution>): Result<Merged, MergeError> {
    var usable := Usable(inputs);
    UsableIsPositive(inputs);
    TotalIsPositive(usable);
    SortKeepsPositive(usable);
    SortKeepsMembers(usable);
    if usable == [] then Failure(NoUsableModels)
    else if |Schemas(usable)| > 1 then Failure(SchemaMismatch(Schemas(usable)))
    else Success(MergeSorted(SortDescending(usable), TotalWeight(usable)))
  }
}
