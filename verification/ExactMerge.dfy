/**
 The merge in plain numbers and fields: which inputs take part, when it is refused, how many of each
 model's trees it takes, and which trees those are. Nothing here is said through the functions that
 compute the merge.
 */
module ExactMerge {
  import opened Wrappers
  import opened Arithmetic
  import opened Trees
  import opened Sorting
  import opened Aggregation
  import opened AggregationTheorems

  // ---------- Who takes part ----------

  ghost predicate TakesPart(c: Contribution) {
    c.weight > 0 && c.document.Some? && |c.document.value.trees| > 0
  }

  /** `at` lists, in order, the places of the documents with trees and a positive weight; `list` is what they hold. */
  ghost predicate TakePart(inputs: seq<Contribution>, list: seq<WeightedModel>, at: seq<nat>) {
    && |at| == |list| && (forall k, l | 0 <= k < l < |at| :: at[k] < at[l])
    && (forall k | 0 <= k < |at| ::
          at[k] < |inputs| && inputs[at[k]].document == Some(list[k].0) && inputs[at[k]].weight == list[k].1)
    && (forall i | 0 <= i < |inputs| :: i in at <==> TakesPart(inputs[i]))
  }

  /** Non-JSON, weightless and treeless inputs are skipped, and all others take part in their order. */
  lemma {:induction false} UsableIsExact(inputs: seq<Contribution>) returns (at: seq<nat>)
    ensures TakePart(inputs, Usable(inputs), at)
  {
    at := [];
    if inputs != [] {
      var n := |inputs| - 1;
      at := UsableIsExact(inputs[..n]);
      LastUsable(inputs);
      if TakesPart(inputs[n]) {
        OneMorePart(inputs, Usable(inputs[..n]), at);
        at := at + [n];
      } else {
        NoMorePart(inputs, Usable(inputs[..n]), at);
      }
    }
  }

  lemma LastUsable(inputs: seq<Contribution>)
    requires inputs != []
    ensures var n := |inputs| - 1; var last := inputs[n];
      Usable(inputs) == Usable(inputs[..n])
        + if TakesPart(last) then [(last.document.value, last.weight)] else []
  {
    var n := |inputs| - 1;
    assert inputs == inputs[..n] + [inputs[n]];
    UsableConcat(inputs[..n], [inputs[n]]);
    assert Usable([inputs[n]][1..]) == [];
  }

  lemma OneMorePart(inputs: seq<Contribution>, list: seq<WeightedModel>, at: seq<nat>)
    requires inputs != [] && TakePart(inputs[..|inputs| - 1], list, at) && TakesPart(inputs[|inputs| - 1])
    ensures var last := inputs[|inputs| - 1];
      TakePart(inputs, list + [(last.document.value, last.weight)], at + [|inputs| - 1])
  {
    var n, more := |inputs| - 1, at + [|inputs| - 1];
    assert n in more;
    forall i | 0 <= i < n
      ensures i in more <==> TakesPart(inputs[i])
    {
      assert inputs[..n][i] == inputs[i];
    }
  }

  lemma NoMorePart(inputs: seq<Contribution>, list: seq<WeightedModel>, at: seq<nat>)
    requires inputs != [] && TakePart(inputs[..|inputs| - 1], list, at) && !TakesPart(inputs[|inputs| - 1])
    ensures TakePart(inputs, list, at)
  {
    forall i | 0 <= i < |inputs| - 1
      ensures i in at <==> TakesPart(inputs[i])
    {
      assert inputs[..|inputs| - 1][i] == inputs[i];
    }
  }

  /** The total is the sum of the weights. */
  lemma TotalIsSum(a: seq<WeightedModel>, b: seq<WeightedModel>, p: WeightedModel)
    ensures TotalWeight<Model>([]) == 0
    ensures TotalWeight(a + [p] + b) == TotalWeight(a) + p.1 + TotalWeight(b)
  {
    TotalSplits(a + [p], b);
    TotalSplits(a, [p]);
    assert [p][1..] == [];
  }

  lemma {:induction false} TotalSplits(a: seq<WeightedModel>, b: seq<WeightedModel>)
    ensures TotalWeight(a + b) == TotalWeight(a) + TotalWeight(b)
  {
    if a == [] {
      assert a + b == b;
    } else {
      assert (a + b)[0] == a[0] && (a + b)[1..] == a[1..] + b;
      TotalSplits(a[1..], b);
    }
  }

  // ---------- When models share a feature space ----------

  /** The number of features a model states; 0 when it states none. */
  function FeatureCount(m: Model): int {
    match m.numFeature
    case Some(n) => n
    case None => 0
  }

  /** The same names in the same order or, where neither has names, the same number of features. */
  ghost predicate SameFeatures(p: Model, q: Model) {
    p.featureNames == q.featureNames && (p.featureNames == [] ==> FeatureCount(p) == FeatureCount(q))
  }

  /** The schema keys of two models agree exactly when their features do. */
  lemma SchemasAgreeIff(p: Model, q: Model)
    ensures FeatureSchema(p) == FeatureSchema(q) <==> SameFeatures(p, q)
  {
  }

  /** Reordered columns are different columns. */
  lemma ReorderedNamesDiffer(p: Model, q: Model)
    requires p.featureNames == ["age", "dose"] && q.featureNames == ["dose", "age"]
    ensures FeatureSchema(p) != FeatureSchema(q)
  {
    assert p.featureNames[0] != q.featureNames[0];
    SchemasAgreeIff(p, q);
  }

  ghost predicate SomeDiffer(list: seq<WeightedModel>) {
    exists i, j | 0 <= i < |list| && 0 <= j < |list| :: !SameFeatures(list[i].0, list[j].0)
  }

  lemma SchemasCount(list: seq<WeightedModel>)
    ensures |Schemas(list)| > 1 <==> SomeDiffer(list)
  {
    if i, j :| 0 <= i < |list| && 0 <= j < |list| && !SameFeatures(list[i].0, list[j].0) {
      SchemasAgreeIff(list[i].0, list[j].0);
      var a, b := FeatureSchema(list[i].0), FeatureSchema(list[j].0);
      assert list[i] in list && list[j] in list;
      assert {a, b} <= Schemas(list);
      CardinalityMonotone({a, b}, Schemas(list));
    } else if list != [] {
      forall p | p in list
        ensures FeatureSchema(p.0) == FeatureSchema(list[0].0)
      {
        var k :| 0 <= k < |list| && list[k] == p;
        SchemasAgreeIff(p.0, list[0].0);
        assert SameFeatures(list[k].0, list[0].0);
      }
      assert list[0] in list;
      assert Schemas(list) == {FeatureSchema(list[0].0)};
    }
  }

  lemma CardinalityMonotone<T>(a: set<T>, b: set<T>)
    requires a <= b
    ensures |a| <= |b|
  {
    assert b == a + (b - a);
  }

  /**
   Exactly when a merge is refused, and why: nothing takes part, or two models that do differ in their
   features.
   */
  lemma RefusedIff(inputs: seq<Contribution>, list: seq<WeightedModel>, at: seq<nat>)
    requires TakePart(inputs, list, at)
    ensures Merge(inputs) == Failure(NoUsableModels) <==> list == []
    ensures Merge(inputs).Failure? && Merge(inputs).error.SchemaMismatch? <==> SomeDiffer(list)
    ensures Merge(inputs).Success? <==> list != [] && !SomeDiffer(list)
  {
    var other := UsableIsExact(inputs);
    TakePartOnce(inputs, list, at, Usable(inputs), other);
    SchemasCount(list);
  }

  lemma TakePartOnce(inputs: seq<Contribution>, list: seq<WeightedModel>, at: seq<nat>,
                     other: seq<WeightedModel>, places: seq<nat>)
    requires TakePart(inputs, list, at) && TakePart(inputs, other, places)
    ensures at == places && list == other
  {
    RisingIsUnique(at, places);
    assert |list| == |other|;
    forall k | 0 <= k < |list|
      ensures list[k] == other[k]
    {
      assert inputs[at[k]].document == Some(list[k].0) == Some(other[k].0);
    }
  }

  lemma {:induction false} RisingIsUnique(a: seq<nat>, b: seq<nat>)
    requires forall k, l | 0 <= k < l < |a| :: a[k] < a[l]
    requires forall k, l | 0 <= k < l < |b| :: b[k] < b[l]
    requires forall x :: x in a <==> x in b
    ensures a == b
  {
    assert |a| > 0 ==> a[0] in b;
    assert |b| > 0 ==> b[0] in a;
    if a != [] && b != [] {
      var m, n := |a| - 1, |b| - 1;
      LastIsLargest(a, b);
      assert a == a[..m] + [a[m]] && b == b[..n] + [b[n]];
      forall x
        ensures x in a[..m] <==> x in b[..n]
      {
        assert x in a[..m] <==> x in a && x != a[m];
        assert x in b[..n] <==> x in b && x != b[n];
      }
      RisingIsUnique(a[..m], b[..n]);
    }
  }

  lemma LastIsLargest(a: seq<nat>, b: seq<nat>)
    requires a != [] && b != []
    requires forall k, l | 0 <= k < l < |a| :: a[k] < a[l]
    requires forall k, l | 0 <= k < l < |b| :: b[k] < b[l]
    requires forall x :: x in a <==> x in b
    ensures a[|a| - 1] == b[|b| - 1]
  {
    assert a[|a| - 1] in a && b[|b| - 1] in b;
    var k :| 0 <= k < |b| && b[k] == a[|a| - 1];
    var l :| 0 <= l < |a| && a[l] == b[|b| - 1];
  }

  // ---------- Shares in numbers ----------

  /** n of len trees are what the share w of the total buys, rounded down, and one where that would be none. */
  ghost predicate ExactShare(n: int, len: int, w: int, total: int) {
    n >= 1 && (n * total <= len * w < (n + 1) * total || (n == 1 && len * w < total))
  }

  lemma QuotaIsExact(length: nat, weight: nat, total: nat)
    requires total > 0
    ensures ExactShare(Quota(length, weight, total), length, weight, total)
  {
    Divided(length * weight, total);
  }

  /** There is only one such number. */
  lemma ShareIsUnique(n: int, m: int, len: int, w: int, total: int)
    requires total > 0 && ExactShare(n, len, w, total) && ExactShare(m, len, w, total)
    ensures n == m
  {
    if n < m {
      MulKeepsOrder(n + 1, m, total);
      MulKeepsOrder(1, m, total);
    } else if m < n {
      MulKeepsOrder(m + 1, n, total);
      MulKeepsOrder(1, n, total);
    }
  }

  /** Two equal models: half of the second one's trees are appended. */
  lemma HalfOfHundred()
    ensures ExactShare(50, 100, 1, 2) && Quota(100, 1, 2) == 50
  {
  }

  /** The first ns[i] trees of each model. */
  function FirstTrees(s: seq<WeightedModel>, ns: seq<nat>): seq<Tree>
    requires |ns| == |s| && forall i | 0 <= i < |s| :: ns[i] <= |s[i].0.trees|
  {
    if s == [] then [] else Bodies(s[0].0.trees[..ns[0]]) + FirstTrees(s[1..], ns[1..])
  }

  function Sum(ns: seq<nat>): nat {
    if ns == [] then 0 else ns[0] + Sum(ns[1..])
  }

  ghost predicate ExactShares(s: seq<WeightedModel>, total: int, ns: seq<nat>) {
    |ns| == |s| && forall i | 0 <= i < |s| ::
      ns[i] <= |s[i].0.trees| && ExactShare(ns[i], |s[i].0.trees|, s[i].1, total)
  }

  lemma {:induction false} FirstTreesCount(s: seq<WeightedModel>, ns: seq<nat>)
    requires |ns| == |s| && forall i | 0 <= i < |s| :: ns[i] <= |s[i].0.trees|
    ensures |FirstTrees(s, ns)| == Sum(ns)
  {
    if s != [] {
      FirstTreesCount(s[1..], ns[1..]);
    }
  }

  lemma {:induction false} AppendedIsExact(s: seq<WeightedModel>, total: nat) returns (ns: seq<nat>)
    requires total > 0 && Positive(s)
    requires forall i | 0 <= i < |s| :: s[i].1 <= total && s[i].0.trees != []
    ensures ExactShares(s, total, ns)
    ensures Bodies(Appended(s, total)) == FirstTrees(s, ns)
  {
    ns := [];
    if s != [] {
      var rest := AppendedIsExact(s[1..], total);
      var n := IncludedIsExact(s[0], total);
      ns := [n] + rest;
      AppendedStep(s, total, n, rest);
      SharesCons(s, total, n, rest);
    }
  }

  lemma IncludedIsExact(p: WeightedModel, total: nat) returns (n: nat)
    requires 0 < p.1 <= total && p.0.trees != []
    ensures n <= |p.0.trees| && ExactShare(n, |p.0.trees|, p.1, total)
    ensures Included(p, total) == p.0.trees[..n]
  {
    n := Quota(|p.0.trees|, p.1, total);
    QuotaIsExact(|p.0.trees|, p.1, total);
    QuotaFits(|p.0.trees|, p.1, total);
  }

  lemma SharesCons(s: seq<WeightedModel>, total: int, n: nat, rest: seq<nat>)
    requires s != [] && ExactShares(s[1..], total, rest)
    requires n <= |s[0].0.trees| && ExactShare(n, |s[0].0.trees|, s[0].1, total)
    ensures ExactShares(s, total, [n] + rest)
  {
    forall i | 0 <= i < |s|
      ensures ([n] + rest)[i] <= |s[i].0.trees| && ExactShare(([n] + rest)[i], |s[i].0.trees|, s[i].1, total)
    {
      if i > 0 {
        assert s[i] == s[1..][i - 1] && ([n] + rest)[i] == rest[i - 1];
      }
    }
  }

  lemma AppendedStep(s: seq<WeightedModel>, total: nat, n: nat, rest: seq<nat>)
    requires s != [] && total > 0 && Positive(s) && n <= |s[0].0.trees|
    requires |rest| == |s| - 1 && forall i | 0 <= i < |rest| :: rest[i] <= |s[1..][i].0.trees|
    requires Included(s[0], total) == s[0].0.trees[..n]
    requires Bodies(Appended(s[1..], total)) == FirstTrees(s[1..], rest)
    ensures forall i | 0 <= i < |s| :: ([n] + rest)[i] <= |s[i].0.trees|
    ensures Bodies(Appended(s, total)) == FirstTrees(s, [n] + rest)
  {
    assert forall i | 1 <= i < |s| :: s[i] == s[1..][i - 1] && ([n] + rest)[i] == rest[i - 1];
    assert ([n] + rest)[1..] == rest;
    var a, b := Included(s[0], total), Appended(s[1..], total);
    assert Bodies(a + b) == Bodies(a) + Bodies(b);
  }

  lemma {:induction false} WeightWithinTotal(s: seq<WeightedModel>, i: nat)
    requires Positive(s) && i < |s|
    ensures s[i].1 <= TotalWeight(s)
  {
    TotalIsPositive(s[1..]);
    if i > 0 {
      WeightWithinTotal(s[1..], i - 1);
    }
  }

  /** What a merge takes: everything of the base, and exact shares of the others. */
  ghost predicate TakesShares(s: seq<WeightedModel>, total: int, ns: seq<nat>) {
    && s != [] && |ns| == |s| && ns[0] == |s[0].0.trees|
    && ExactShares(s[1..], total, ns[1..])
  }

  lemma SortedFacts(inputs: seq<Contribution>)
    requires Merge(inputs).Success?
    ensures var s, total := SortDescending(Usable(inputs)), TotalWeight(Usable(inputs));
      && s != [] && |s| == |Usable(inputs)| && Positive(s) && total > 0
      && Merge(inputs) == Success(MergeSorted(s, total))
      && forall i | 0 <= i < |s| :: s[i].1 <= total && s[i].0.trees != []
  {
    var u := Usable(inputs);
    var s := SortDescending(u);
    UsableIsPositive(inputs);
    TotalIsPositive(u);
    SortKeepsPositive(u);
    SortKeepsMembers(u);
    forall i | 0 <= i < |s|
      ensures s[i].1 <= TotalWeight(u) && s[i].0.trees != []
    {
      var j := PermutationHas(s, u, i);
      WeightWithinTotal(u, j);
    }
  }

  /** The first 500 of these trees, recorded as such. */
  ghost predicate KeepsFirst(merged: Merged, all: seq<Tree>) {
    && (merged.info.capped <==> |all| > 500)
    && merged.info.totalTrees == |merged.model.trees| == (if |all| > 500 then 500 else |all|)
    && Bodies(merged.model.trees) == all[..merged.info.totalTrees]
  }

  /**
   A merge in numbers. Its trees are all of the base's and, of every other model in descending order, its
   own first n, where n is exactly its share of the total weight: these and no others, as far as 500
   reach. The record counts the models, the trees, and whether there were more than 500.
   */
  lemma MergeIsExact(inputs: seq<Contribution>) returns (ns: seq<nat>)
    requires Merge(inputs).Success?
    ensures var s := SortDescending(Usable(inputs));
      && TakesShares(s, TotalWeight(Usable(inputs)), ns)
      && (forall i | 0 <= i < |s| :: ns[i] <= |s[i].0.trees|)
      && |FirstTrees(s, ns)| == Sum(ns)
      && KeepsFirst(Merge(inputs).value, FirstTrees(s, ns))
      && Merge(inputs).value.info.numModels == |Usable(inputs)|
  {
    var s, total := SortDescending(Usable(inputs)), TotalWeight(Usable(inputs));
    SortedFacts(inputs);
    ns := SharesOf(s, total);
    FirstTreesCount(s, ns);
    KeptIsExact(s, total, FirstTrees(s, ns));
  }

  lemma SharesOf(s: seq<WeightedModel>, total: nat) returns (ns: seq<nat>)
    requires s != [] && total > 0 && Positive(s)
    requires forall i | 0 <= i < |s| :: s[i].1 <= total && s[i].0.trees != []
    ensures TakesShares(s, total, ns) && forall i | 0 <= i < |s| :: ns[i] <= |s[i].0.trees|
    ensures Bodies(Pool(s, total)) == FirstTrees(s, ns)
  {
    var tail := AppendedIsExact(s[1..], total);
    ns := [|s[0].0.trees|] + tail;
    assert ns[1..] == tail;
    PoolIsExact(s, total, ns);
  }

  lemma PoolIsExact(s: seq<WeightedModel>, total: nat, ns: seq<nat>)
    requires s != [] && total > 0 && Positive(s) && TakesShares(s, total, ns)
    requires Bodies(Appended(s[1..], total)) == FirstTrees(s[1..], ns[1..])
    ensures forall i | 0 <= i < |s| :: ns[i] <= |s[i].0.trees|
    ensures Bodies(Pool(s, total)) == FirstTrees(s, ns)
  {
    assert forall i | 1 <= i < |s| :: s[i] == s[1..][i - 1] && ns[i] == ns[1..][i - 1];
    var a, b := s[0].0.trees, Appended(s[1..], total);
    assert a[..ns[0]] == a;
    assert Bodies(a + b) == Bodies(a) + Bodies(b);
  }

  lemma KeptIsExact(s: seq<WeightedModel>, total: nat, all: seq<Tree>)
    requires s != [] && total > 0 && Positive(s) && Bodies(Pool(s, total)) == all
    ensures KeepsFirst(MergeSorted(s, total), all) && MergeSorted(s, total).info.numModels == |s|
  {
    var pool := Pool(s, total);
    assert |pool| == |all|;
    var kept := MergeSorted(s, total).model.trees;
    forall i | 0 <= i < |kept|
      ensures Bodies(kept)[i] == all[i]
    {
      assert kept[i].body == pool[i].body == Bodies(pool)[i];
    }
  }
}
