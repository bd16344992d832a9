/** What the merge promises: whose trees it takes, how many, and what the result predicts. */
module AggregationTheorems {
  import opened Wrappers
  import opened Arithmetic
  import opened Trees
  import opened Sorting
  import opened Aggregation

  // ---------- The structural base ----------

  lemma {:induction false} SortHead<T>(s: seq<(T, int)>) returns (i: nat)
    requires s != []
    ensures SortDescending(s) != [] && i < |s| && SortDescending(s)[0] == s[i]
    ensures forall j | 0 <= j < |s| :: s[j].1 <= s[i].1
    ensures forall j | 0 <= j < i :: s[j].1 < s[i].1
  {
    if |s| == 1 {
      i := 0;
    } else {
      var k := SortHead(s[1..]);
      i := if s[1 + k].1 <= s[0].1 then 0 else 1 + k;
      assert forall j | 1 <= j < |s| :: s[j] == s[1..][j - 1];
    }
  }

  /** A successful merge is built on the earliest of the heaviest usable models. */
  lemma BaseIsEarliestHeaviest(inputs: seq<Contribution>) returns (i: nat)
    requires Merge(inputs).Success?
    ensures i < |Usable(inputs)|
    ensures forall j | 0 <= j < |Usable(inputs)| :: Usable(inputs)[j].1 <= Usable(inputs)[i].1
    ensures forall j | 0 <= j < i :: Usable(inputs)[j].1 < Usable(inputs)[i].1
    ensures var base := Usable(inputs)[i].0; var merged := Merge(inputs).value.model;
      && merged.featureNames == base.featureNames && merged.numFeature == base.numFeature
      && |base.trees| > 0
      && forall k | 0 <= k < |base.trees| && k < MAX_GLOBAL_TREES ::
           k < |merged.trees| && merged.trees[k].body == base.trees[k].body
  {
    i := SortHead(Usable(inputs));
    UsableIsPositive(inputs);
  }

  // ---------- Consistent arrays ----------

  ghost predicate Consistent(m: Model) {
    && |m.treeInfo| == |m.trees|
    && (forall k | 0 <= k < |m.treeInfo| :: m.treeInfo[k] == 0)
    && |m.iterationIndptr| > 0
    && m.iterationIndptr[0] == 0
    && m.iterationIndptr[|m.iterationIndptr| - 1] == |m.trees|
    && (forall k | 0 <= k < |m.iterationIndptr| - 1 :: m.iterationIndptr[k] <= m.iterationIndptr[k + 1])
  }

  /** The merged document is loadable: ids count up from 0 and every parallel array agrees with the tree list. */
  lemma MergedArraysAgree(inputs: seq<Contribution>)
    requires Merge(inputs).Success?
    ensures var m := Merge(inputs).value.model; var n := |m.trees|;
      && 0 < n <= MAX_GLOBAL_TREES
      && Merge(inputs).value.info.totalTrees == n
      && (forall k | 0 <= k < n :: m.trees[k].id == k)
      && (forall k, l | 0 <= k < l < n :: m.trees[k].id != m.trees[l].id)
      && |m.treeInfo| == n && |m.iterationIndptr| == n + 1
      && (forall k | 0 <= k <= n :: m.iterationIndptr[k] == k)
      && (m.numTrees.Some? ==> m.numTrees.value == n)
      && Consistent(m)
  {
    UsableIsPositive(inputs);
    var i := SortHead(Usable(inputs));
  }

  // ---------- Shares ----------

  lemma QuotaFits(length: nat, weight: nat, total: nat)
    requires length > 0 && 0 < weight <= total
    ensures 1 <= Quota(length, weight, total) <= length
  {
    Divided(length * weight, total);
    MulKeepsOrder(weight, total, length);
    CancelOrder(length * weight / total, length, total);
  }

  lemma {:induction false} PrefixWeighsMore<T>(s: seq<(T, int)>, j: nat)
    requires Descending(s) && Positive(s) && j < |s|
    ensures TotalWeight(s) >= (j + 1) * s[j].1
  {
    if j == 0 {
      TotalIsPositive(s[1..]);
    } else {
      PrefixWeighsMore(s[1..], j - 1);
      assert (j + 1) * s[j].1 == j * s[j].1 + s[j].1;
    }
  }

  /** The model in place j (from 0) of the descending order cannot buy more than a (j+1)-th of its own trees. */
  lemma ShareOfRank(s: seq<WeightedModel>, j: nat)
    requires Descending(s) && Positive(s) && j < |s| && s[j].0.trees != []
    requires TotalWeight(s) > 0
    ensures var length := |s[j].0.trees|; var q := Quota(length, s[j].1, TotalWeight(s));
      q <= length && (q == 1 || q <= length / (j + 1))
  {
    PrefixWeighsMore(s, j);
    RankedQuota(|s[j].0.trees|, s[j].1, TotalWeight(s), j + 1);
  }

  lemma RankedQuota(length: nat, w: nat, total: nat, rank: nat)
    requires length > 0 && w > 0 && rank > 0 && total >= rank * w
    ensures total > 0 && (var q := Quota(length, w, total); q <= length && (q == 1 || q <= length / rank))
  {
    assert w <= total by { MulKeepsOrder(1, rank, w); }
    QuotaFits(length, w, total);
    RankDivides(length, w, total, rank);
  }

  lemma RankDivides(length: nat, w: nat, total: nat, rank: nat)
    requires w > 0 && rank > 0 && total > 0 && total >= rank * w
    ensures length * w / total <= length / rank
  {
    var share := length * w / total;
    assert share * total <= length * w by { Divided(length * w, total); }
    RankCosts(share, length, w, total, rank);
    AtMostQuotient(share, length, rank);
  }

  lemma RankCosts(share: nat, length: nat, w: nat, total: nat, rank: nat)
    requires w > 0 && total >= rank * w && share * total <= length * w
    ensures share * rank <= length
  {
    MulKeepsOrder(rank * w, total, share);
    Regroup(share, rank, w);
    CancelOrder(share * rank, length, w);
  }

  ghost predicate TreesAtMost(s: seq<WeightedModel>, longest: nat) {
    forall i | 0 <= i < |s| :: 0 < |s[i].0.trees| <= longest
  }

  /** Beyond one tree each, the appended trees cost their models' weight out of the total. */
  lemma {:induction false} AppendedCost(others: seq<WeightedModel>, total: nat, longest: nat)
    requires total > 0 && Positive(others) && TreesAtMost(others, longest)
    ensures TotalWeight(others) >= 0
    ensures |Appended(others, total)| * total <= |others| * total + longest * TotalWeight(others)
  {
    TotalIsPositive(others);
    if others != [] {
      AppendedCost(others[1..], total, longest);
      IncludedCost(others[0], total);
      CostStep(|Included(others[0], total)|, |Appended(others[1..], total)|, |Appended(others, total)|,
               |others[0].0.trees|, others[0].1, total, longest,
               |others[1..]|, |others|, TotalWeight(others[1..]), TotalWeight(others));
    }
  }

  lemma IncludedCost(p: WeightedModel, total: nat)
    requires total > 0 && p.1 > 0
    ensures |Included(p, total)| * total <= total + |p.0.trees| * p.1
  {
    var share := |p.0.trees| * p.1 / total;
    Divided(|p.0.trees| * p.1, total);
    MulKeepsOrder(|Included(p, total)|, 1 + share, total);
    Add(1, share, total);
  }

  lemma CostStep(q: nat, rest: nat, all: nat, length: nat, w: nat, total: nat, longest: nat,
                 n: nat, k: nat, restWeight: nat, weight: nat)
    requires all == q + rest && k == n + 1 && weight == w + restWeight && length <= longest
    requires q * total <= total + length * w
    requires rest * total <= n * total + longest * restWeight
    ensures all * total <= k * total + longest * weight
  {
    MulKeepsOrder(length, longest, w);
    Add(q, rest, total);
    Add(n, 1, total);
    Add(w, restWeight, longest);
  }

  /**
   With k models and no ensemble beyond the base longer than `longest`, all the others together
   bring at most (k-1) + longest*(k-1)/k trees before the cap.
   */
  lemma TotalShareBound(sorted: seq<WeightedModel>, longest: nat)
    requires sorted != [] && Descending(sorted) && Positive(sorted) && TreesAtMost(sorted[1..], longest)
    requires TotalWeight(sorted) > 0
    ensures var k := |sorted|; var others := |Appended(sorted[1..], TotalWeight(sorted))|;
      others <= (k - 1) + longest * (k - 1) / k
  {
    var k, total := |sorted|, TotalWeight(sorted);
    var others := |Appended(sorted[1..], total)|;
    AppendedCost(sorted[1..], total, longest);
    HeadWeighsAverage(sorted);
    var rest := TotalWeight(sorted[1..]);
    if others > k - 1 {
      Add(others - (k - 1), k - 1, total);
      BoundByAverage(others - (k - 1), total, longest, rest, k);
    } else {
      AtMostQuotient(0, longest * (k - 1), k) by {
        MulKeepsOrder(0, longest, k - 1);
      }
    }
  }

  lemma BoundByAverage(extra: nat, total: nat, longest: nat, rest: nat, k: nat)
    requires total > 0 && k > 0
    requires extra * total <= longest * rest && k * rest <= (k - 1) * total
    ensures extra <= longest * (k - 1) / k
  {
    MulKeepsOrder(extra * total, longest * rest, k);
    MulKeepsOrder(k * rest, (k - 1) * total, longest);
    Regroup(k, extra, total);
    Regroup(k, longest, rest);
    Regroup(longest, k, rest);
    Regroup(longest, k - 1, total);
    CancelOrder(k * extra, longest * (k - 1), total);
    AtMostQuotient(extra, longest * (k - 1), k);
  }

  lemma {:induction false} TotalAtMost<T>(s: seq<(T, int)>, w: int)
    requires forall i | 0 <= i < |s| :: s[i].1 <= w
    ensures TotalWeight(s) <= |s| * w
  {
    if s != [] {
      TotalAtMost(s[1..], w);
    }
  }

  lemma HeadWeighsAverage(s: seq<WeightedModel>)
    requires s != [] && Descending(s)
    ensures |s| * TotalWeight(s[1..]) <= (|s| - 1) * TotalWeight(s)
  {
    TotalAtMost(s[1..], s[0].1);
    AverageStep(|s| - 1, |s|, s[0].1, TotalWeight(s[1..]), TotalWeight(s));
  }

  lemma AverageStep(n: int, k: int, w: int, rest: int, total: int)
    requires k == n + 1 && total == w + rest && rest <= n * w
    ensures k * rest <= n * total
  {
    Add(w, rest, n);
    Add(n, 1, rest);
  }

  /** Both share bounds, for the models that a successful merge really used. */
  lemma SharesOfMerge(inputs: seq<Contribution>, longest: nat)
    requires Usable(inputs) != []
    requires forall i | 1 <= i < |SortDescending(Usable(inputs))| ::
               |SortDescending(Usable(inputs))[i].0.trees| <= longest
    ensures var s := SortDescending(Usable(inputs)); var k := |s|; var total := TotalWeight(Usable(inputs));
      && k == |Usable(inputs)| > 0 && total > 0 && Positive(s)
      && |Appended(s[1..], total)| <= (k - 1) + longest * (k - 1) / k
      && forall j | 0 <= j < k :: s[j].0.trees != [] &&
           (var length := |s[j].0.trees|; var q := Quota(length, s[j].1, total);
            1 <= q <= length && (q == 1 || q <= length / (j + 1)))
  {
    var u := Usable(inputs);
    var s := SortDescending(u);
    UsableIsPositive(inputs);
    TotalIsPositive(u);
    SortKeepsPositive(u);
    SortKeepsMembers(u);
    SortIsStableDescending(u);
    SortKeepsTotal(u);
    forall j | 0 <= j < |s|
      ensures s[j].0.trees != []
    {
      var i := PermutationHas(s, u, j);
    }
    forall j | 0 <= j < |s|
      ensures var length := |s[j].0.trees|; var q := Quota(length, s[j].1, TotalWeight(u));
        1 <= q <= length && (q == 1 || q <= length / (j + 1))
    {
      ShareOfRank(s, j);
    }
    assert TreesAtMost(s[1..], longest) by {
      forall i | 0 <= i < |s[1..]|
        ensures 0 < |s[1..][i].0.trees| <= longest
      {
        assert s[1..][i] == s[i + 1];
      }
    }
    TotalShareBound(s, longest);
  }

  // ---------- Scale and order of the inputs ----------

  lemma {:induction false} InsertKeepsTotal<T>(x: (T, int), s: seq<(T, int)>)
    ensures TotalWeight(Insert(x, s)) == x.1 + TotalWeight(s)
  {
    if s == [] || s[0].1 <= x.1 {
      assert ([x] + s)[1..] == s;
    } else {
      InsertKeepsTotal(x, s[1..]);
      assert ([s[0]] + Insert(x, s[1..]))[1..] == Insert(x, s[1..]);
    }
  }

  lemma {:induction false} SortKeepsTotal<T>(s: seq<(T, int)>)
    ensures TotalWeight(SortDescending(s)) == TotalWeight(s)
  {
    if s != [] {
      SortKeepsTotal(s[1..]);
      InsertKeepsTotal(s[0], SortDescending(s[1..]));
    }
  }

  lemma SortKeepsSchemas(s: seq<WeightedModel>)
    ensures Schemas(SortDescending(s)) == Schemas(s)
  {
    SortKeepsMembers(s);
    forall p | p in s
      ensures p in SortDescending(s)
    {
      assert p in multiset(s) && p in multiset(SortDescending(s));
    }
    forall p | p in SortDescending(s)
      ensures p in s
    {
      assert p in multiset(SortDescending(s)) && p in multiset(s);
    }
  }

  /** Merging sees the usable models only through their descending order. */
  lemma MergeSeesSortedOnly(a: seq<Contribution>, b: seq<Contribution>)
    requires SortDescending(Usable(a)) == SortDescending(Usable(b))
    ensures Merge(a) == Merge(b)
  {
    SortKeepsTotal(Usable(a));
    SortKeepsTotal(Usable(b));
    SortKeepsSchemas(Usable(a));
    SortKeepsSchemas(Usable(b));
    SortKeepsMembers(Usable(a));
    SortKeepsMembers(Usable(b));
  }

  lemma {:induction false} UsableConcat(a: seq<Contribution>, b: seq<Contribution>)
    ensures Usable(a + b) == Usable(a) + Usable(b)
  {
    if a == [] {
      assert a + b == b;
    } else {
      var head: seq<WeightedModel> := if IsUsable(a[0]) then [(a[0].document.value, a[0].weight)] else [];
      UsableConcat(a[1..], b);
      assert (a + b)[0] == a[0] && (a + b)[1..] == a[1..] + b;
      assert Usable(a + b) == head + (Usable(a[1..]) + Usable(b));
      assert Usable(a) == head + Usable(a[1..]);
    }
  }

  lemma {:induction false} UsableOfPermutation(a: seq<Contribution>, b: seq<Contribution>)
    requires multiset(a) == multiset(b)
    ensures multiset(Usable(a)) == multiset(Usable(b))
  {
    SameLength(a, b);
    if a != [] {
      var j := PermutationHas(a, b, 0);
      var rest := b[..j] + b[j + 1..];
      assert b == b[..j] + ([b[j]] + b[j + 1..]);
      assert a == [a[0]] + a[1..];
      assert multiset(b) == multiset(rest) + multiset{b[j]};
      assert multiset(a[1..]) == multiset(a) - multiset{a[0]};
      UsableOfPermutation(a[1..], rest);
      UsableConcat(b[..j], [b[j]] + b[j + 1..]);
      UsableConcat(b[..j], b[j + 1..]);
      UsableConcat([b[j]], b[j + 1..]);
      UsableConcat([a[0]], a[1..]);
    }
  }

  /** When no two different usable models weigh the same, the order of arrival is irrelevant. */
  lemma OrderInvariance(a: seq<Contribution>, b: seq<Contribution>)
    requires multiset(a) == multiset(b)
    requires WeightsSeparate(Usable(a))
    ensures Merge(a) == Merge(b)
  {
    UsableOfPermutation(a, b);
    SortOfPermutation(Usable(a), Usable(b));
    MergeSeesSortedOnly(a, b);
  }

  /** The structural base: the model on top of the sorted list. */
  function BaseOf(inputs: seq<Contribution>): Model
    requires Usable(inputs) != []
  {
    SortKeepsMembers(Usable(inputs));
    SortDescending(Usable(inputs))[0].0
  }

  /** Where the base is in the result: its trees come first, as far as the cap lets them. */
  lemma MergeStartsWithBase(inputs: seq<Contribution>)
    requires Merge(inputs).Success?
    ensures Usable(inputs) != []
    ensures Prefix(Bodies(Merge(inputs).value.model.trees), |BaseOf(inputs).trees|)
         == Prefix(Bodies(BaseOf(inputs).trees), MAX_GLOBAL_TREES)
  {
  }

  ghost predicate Heaviest(s: seq<WeightedModel>, p: WeightedModel) {
    p in s && forall q | q in s :: q.1 <= p.1
  }

  lemma BaseIsHeaviest(inputs: seq<Contribution>) returns (w: int)
    requires Usable(inputs) != []
    ensures Heaviest(Usable(inputs), (BaseOf(inputs), w))
  {
    var i := SortHead(Usable(inputs));
    w := Usable(inputs)[i].1;
  }

  lemma {:induction false} UsableSource(inputs: seq<Contribution>, p: WeightedModel) returns (k: nat)
    requires p in Usable(inputs)
    ensures k < |inputs| && IsUsable(inputs[k]) && p == (inputs[k].document.value, inputs[k].weight)
  {
    if IsUsable(inputs[0]) && p == (inputs[0].document.value, inputs[0].weight) {
      k := 0;
    } else {
      var l := UsableSource(inputs[1..], p);
      k := l + 1;
    }
  }

  /** Any of the heaviest usable models is the base of some permutation: the one in which it comes first. */
  lemma HeaviestCanBeBase(inputs: seq<Contribution>, p: WeightedModel) returns (b: seq<Contribution>)
    requires Heaviest(Usable(inputs), p)
    ensures multiset(b) == multiset(inputs) && Usable(b) != [] && BaseOf(b) == p.0
  {
    var k := UsableSource(inputs, p);
    var rest := inputs[..k] + inputs[k + 1..];
    b := [inputs[k]] + rest;
    assert inputs == inputs[..k] + ([inputs[k]] + inputs[k + 1..]);
    assert multiset(b) == multiset(inputs);
    assert b[1..] == rest;
    assert Usable(b)[0] == p;
    UsableOfPermutation(inputs, b);
    SamePermutationMembers(Usable(inputs), Usable(b));
    assert forall q | q in Usable(b) :: q.1 <= p.1;
    var i := SortHead(Usable(b));
    assert Usable(b)[i] in Usable(b);
  }

  lemma SamePermutationMembers<E>(a: seq<E>, b: seq<E>)
    requires multiset(a) == multiset(b)
    ensures forall x :: x in a <==> x in b
  {
    forall x
      ensures x in a <==> x in b
    {
      assert x in a <==> x in multiset(a);
      assert x in b <==> x in multiset(b);
    }
  }

  ghost predicate HeaviestAgree(s: seq<WeightedModel>) {
    forall p, q | Heaviest(s, p) && Heaviest(s, q) :: Bodies(p.0.trees) == Bodies(q.0.trees)
  }

  ghost predicate BaseTreesFixed(inputs: seq<Contribution>)
    requires Usable(inputs) != []
  {
    forall b | multiset(b) == multiset(inputs) && Usable(b) != [] ::
      Bodies(BaseOf(b).trees) == Bodies(BaseOf(inputs).trees)
  }

  /**
   Exactly when the order of arrival cannot change the structural base's trees: all of the heaviest
   usable models have the same ones.
   */
  lemma BaseIgnoresOrderIff(inputs: seq<Contribution>)
    requires Usable(inputs) != []
    ensures BaseTreesFixed(inputs) <==> HeaviestAgree(Usable(inputs))
  {
    if HeaviestAgree(Usable(inputs)) {
      forall b | multiset(b) == multiset(inputs) && Usable(b) != []
        ensures Bodies(BaseOf(b).trees) == Bodies(BaseOf(inputs).trees)
      {
        UsableOfPermutation(inputs, b);
        SamePermutationMembers(Usable(inputs), Usable(b));
        var v := BaseIsHeaviest(inputs);
        var w := BaseIsHeaviest(b);
        assert Heaviest(Usable(inputs), (BaseOf(b), w));
      }
    }
    if BaseTreesFixed(inputs) {
      forall p, q | Heaviest(Usable(inputs), p) && Heaviest(Usable(inputs), q)
        ensures Bodies(p.0.trees) == Bodies(q.0.trees)
      {
        var b := HeaviestCanBeBase(inputs, p);
        var c := HeaviestCanBeBase(inputs, q);
      }
    }
  }

  /** With a tie the order does matter: the earlier of two equals becomes the structural base. */
  lemma TiesDependOnOrder(p: Model, q: Model, w: int)
    requires p.trees != [] && q.trees != [] && w > 0
    requires FeatureSchema(p) == FeatureSchema(q)
    requires p.trees[0].body != q.trees[0].body
    ensures Merge([Contribution(Some(p), w), Contribution(Some(q), w)])
         != Merge([Contribution(Some(q), w), Contribution(Some(p), w)])
  {
    TieBase(p, q, w);
    TieBase(q, p, w);
  }

  lemma TieBase(p: Model, q: Model, w: int)
    requires p.trees != [] && q.trees != [] && w > 0
    requires FeatureSchema(p) == FeatureSchema(q)
    ensures var r := Merge([Contribution(Some(p), w), Contribution(Some(q), w)]);
      r.Success? && r.value.model.trees != [] && r.value.model.trees[0].body == p.trees[0].body
  {
    var inputs := [Contribution(Some(p), w), Contribution(Some(q), w)];
    TwoUsable(p, q, w);
    var i := BaseIsEarliestHeaviest(inputs);
    assert i == 0;
  }

  lemma TwoUsable(p: Model, q: Model, w: int)
    requires p.trees != [] && q.trees != [] && w > 0
    requires FeatureSchema(p) == FeatureSchema(q)
    ensures var inputs := [Contribution(Some(p), w), Contribution(Some(q), w)];
      Usable(inputs) == [(p, w), (q, w)] && Merge(inputs).Success?
  {
    var a, b := Contribution(Some(p), w), Contribution(Some(q), w);
    assert [a, b][1..] == [b] && [b][1..] == [];
    assert Usable([b]) == [(q, w)];
    assert Schemas([(p, w), (q, w)]) == {FeatureSchema(p)};
  }

  function ScaleInputs(inputs: seq<Contribution>, c: int): seq<Contribution> {
    seq(|inputs|, i requires 0 <= i < |inputs| => inputs[i].(weight := inputs[i].weight * c))
  }

  function Same<T>(x: T): T { x }

  lemma {:induction false} UsableOfScaled(inputs: seq<Contribution>, c: int)
    requires c > 0
    ensures Usable(ScaleInputs(inputs, c)) == Relabel(Usable(inputs), Same<Model>, c)
  {
    if inputs != [] {
      ScaleKeepsOrder(inputs[0].weight, 0, c);
      ScaleKeepsOrder(0, inputs[0].weight, c);
      assert ScaleInputs(inputs, c)[1..] == ScaleInputs(inputs[1..], c);
      UsableOfScaled(inputs[1..], c);
      var hd := if IsUsable(inputs[0]) then [(inputs[0].document.value, inputs[0].weight)] else [];
      assert IsUsable(ScaleInputs(inputs, c)[0]) == IsUsable(inputs[0]);
      assert Usable(inputs) == hd + Usable(inputs[1..]);
      assert Relabel(Usable(inputs), Same<Model>, c)
          == Relabel(hd, Same<Model>, c) + Relabel(Usable(inputs[1..]), Same<Model>, c);
    }
  }

  lemma {:induction false} TotalOfScaled(s: seq<WeightedModel>, c: int)
    ensures TotalWeight(Relabel(s, Same<Model>, c)) == TotalWeight(s) * c
  {
    if s != [] {
      assert Relabel(s, Same<Model>, c)[1..] == Relabel(s[1..], Same<Model>, c);
      TotalOfScaled(s[1..], c);
    }
  }

  lemma QuotaOfScaled(length: nat, weight: nat, total: nat, c: nat)
    requires total > 0 && c > 0
    ensures total * c > 0 && Quota(length, weight * c, total * c) == Quota(length, weight, total)
  {
    MulKeepsOrder(1, total, c);
    var a := length * weight;
    Regroup(length, weight, c);
    Divided(a, total);
    var q := a / total;
    MulKeepsOrder(q * total, a, c);
    MulKeepsOrder(a + 1, (q + 1) * total, c);
    Add(a, 1, c);
    Regroup(c, q, total);
    Regroup(c, q + 1, total);
    QuotientIsUnique(a * c, total * c, q);
  }

  lemma {:induction false} AppendedOfScaled(s: seq<WeightedModel>, total: nat, c: nat)
    requires Positive(s) && total > 0 && c > 0 && total * c > 0
    requires Positive(Relabel(s, Same<Model>, c))
    ensures Appended(Relabel(s, Same<Model>, c), total * c) == Appended(s, total)
  {
    if s != [] {
      QuotaOfScaled(|s[0].0.trees|, s[0].1, total, c);
      assert Relabel(s, Same<Model>, c)[1..] == Relabel(s[1..], Same<Model>, c);
      AppendedOfScaled(s[1..], total, c);
    }
  }

  lemma SchemasOfScaled(s: seq<WeightedModel>, c: int)
    ensures Schemas(Relabel(s, Same<Model>, c)) == Schemas(s)
  {
    var t := Relabel(s, Same<Model>, c);
    forall p | p in s
      ensures FeatureSchema(p.0) in Schemas(t)
    {
      var i :| 0 <= i < |s| && s[i] == p;
      assert t[i].0 == Same(p.0) == p.0;
      assert t[i] in t;
    }
    forall p | p in t
      ensures FeatureSchema(p.0) in Schemas(s)
    {
      var i :| 0 <= i < |t| && t[i] == p;
      assert p.0 == Same(s[i].0) == s[i].0;
      assert s[i] in s;
    }
  }

  /** Only the proportions of the weights matter: every result, and every refusal, survives rescaling. */
  lemma ScaleInvariance(inputs: seq<Contribution>, c: int)
    requires c > 0
    ensures Merge(ScaleInputs(inputs, c)) == Merge(inputs)
  {
    var u := Usable(inputs);
    UsableOfScaled(inputs, c);
    SchemasOfScaled(u, c);
    if u != [] {
      UsableIsPositive(inputs);
      UsableIsPositive(ScaleInputs(inputs, c));
      TotalIsPositive(u);
      TotalOfScaled(u, c);
      SortRelabel(u, Same<Model>, c);
      SortKeepsPositive(u);
      SortKeepsPositive(Usable(ScaleInputs(inputs, c)));
      SortKeepsMembers(u);
      MergeSortedOfScaled(SortDescending(u), TotalWeight(u), c);
    }
  }

  lemma MergeSortedOfScaled(s: seq<WeightedModel>, total: int, c: int)
    requires s != [] && Positive(s) && total > 0 && c > 0
    requires Positive(Relabel(s, Same<Model>, c))
    ensures total * c > 0
    ensures MergeSorted(Relabel(s, Same<Model>, c), total * c) == MergeSorted(s, total)
  {
    MulKeepsOrder(1, total, c);
    var t := Relabel(s, Same<Model>, c);
    assert t[1..] == Relabel(s[1..], Same<Model>, c);
    AppendedOfScaled(s[1..], total, c);
    assert Pool(t, total * c) == Pool(s, total);
  }

  // ---------- Meaning ----------

  function Bodies(trees: seq<NumberedTree>): seq<Tree> {
    seq(|trees|, i requires 0 <= i < |trees| => trees[i].body)
  }

  /** The scores of the group-0 trees with positions lo..hi. */
  function GroupSum(m: Model, x: Features, lo: int, hi: int): real
    decreases hi - lo
  {
    if lo >= hi then 0.0
    else (if 0 <= lo < |m.trees| && lo < |m.treeInfo| && m.treeInfo[lo] == 0
          then Score(m.trees[lo].body, x) else 0.0) + GroupSum(m, x, lo + 1, hi)
  }

  /** The margin as a booster computes it: iteration by iteration through iteration_indptr, from iteration k on. */
  function MarginFrom(m: Model, x: Features, k: nat): real
    decreases |m.iterationIndptr| - k
  {
    if k + 1 >= |m.iterationIndptr| then 0.0
    else GroupSum(m, x, m.iterationIndptr[k], m.iterationIndptr[k + 1]) + MarginFrom(m, x, k + 1)
  }

  function Margin(m: Model, x: Features): real {
    MarginFrom(m, x, 0)
  }

  lemma {:induction false} GroupSumIsTreeSum(m: Model, x: Features, lo: nat, hi: nat)
    requires lo <= hi <= |m.trees| == |m.treeInfo|
    requires forall k | 0 <= k < |m.treeInfo| :: m.treeInfo[k] == 0
    ensures GroupSum(m, x, lo, hi) == TreeSum(Bodies(m.trees)[lo..hi], x)
    decreases hi - lo
  {
    if lo < hi {
      GroupSumIsTreeSum(m, x, lo + 1, hi);
      assert Bodies(m.trees)[lo..hi][1..] == Bodies(m.trees)[lo + 1..hi];
    }
  }

  lemma {:induction false} IndptrRises(m: Model, k: nat, l: nat)
    requires Consistent(m) && k <= l < |m.iterationIndptr|
    ensures m.iterationIndptr[k] <= m.iterationIndptr[l]
    decreases l - k
  {
    if k < l {
      IndptrRises(m, k + 1, l);
    }
  }

  lemma {:induction false} MarginFromIsTreeSum(m: Model, x: Features, k: nat)
    requires Consistent(m) && k < |m.iterationIndptr|
    ensures 0 <= m.iterationIndptr[k] <= |m.trees|
    ensures MarginFrom(m, x, k) == TreeSum(Bodies(m.trees)[m.iterationIndptr[k]..], x)
    decreases |m.iterationIndptr| - k
  {
    IndptrRises(m, 0, k);
    IndptrRises(m, k, |m.iterationIndptr| - 1);
    if k + 1 < |m.iterationIndptr| {
      var lo, hi := m.iterationIndptr[k], m.iterationIndptr[k + 1];
      IndptrRises(m, k + 1, |m.iterationIndptr| - 1);
      MarginFromIsTreeSum(m, x, k + 1);
      GroupSumIsTreeSum(m, x, lo, hi);
      var bodies := Bodies(m.trees);
      assert bodies[lo..] == bodies[lo..hi] + bodies[hi..];
      TreeSumConcat(bodies[lo..hi], bodies[hi..], x);
    } else {
      assert Bodies(m.trees)[m.iterationIndptr[k]..] == [];
    }
  }

  /** However the iterations are cut, a consistent model's margin is the plain sum over its trees. */
  lemma MarginIsTreeSum(m: Model, x: Features)
    requires Consistent(m)
    ensures Margin(m, x) == TreeSum(Bodies(m.trees), x)
  {
    MarginFromIsTreeSum(m, x, 0);
    assert Bodies(m.trees)[0..] == Bodies(m.trees);
  }

  /** The tree-sums of the prefixes that the other models contribute. */
  function IncludedSum(others: seq<WeightedModel>, total: nat, x: Features): real
    requires total > 0 && Positive(others)
  {
    if others == [] then 0.0
    else TreeSum(Bodies(Included(others[0], total)), x) + IncludedSum(others[1..], total, x)
  }

  lemma {:induction false} AppendedSum(others: seq<WeightedModel>, total: nat, x: Features)
    requires total > 0 && Positive(others)
    ensures TreeSum(Bodies(Appended(others, total)), x) == IncludedSum(others, total, x)
  {
    if others != [] {
      AppendedSum(others[1..], total, x);
      var a, b := Included(others[0], total), Appended(others[1..], total);
      assert Bodies(a + b) == Bodies(a) + Bodies(b);
      TreeSumConcat(Bodies(a), Bodies(b), x);
    }
  }

  lemma PoolSum(s: seq<WeightedModel>, total: nat, x: Features)
    requires s != [] && Positive(s) && total > 0
    ensures TreeSum(Bodies(Pool(s, total)), x) == TreeSum(Bodies(s[0].0.trees), x) + IncludedSum(s[1..], total, x)
  {
    var a, b := s[0].0.trees, Appended(s[1..], total);
    assert Bodies(a + b) == Bodies(a) + Bodies(b);
    TreeSumConcat(Bodies(a), Bodies(b), x);
    AppendedSum(s[1..], total, x);
  }

  /**
   For every input, the merged model predicts the base's margin plus the included prefixes of
   the others; when the cap bites, the margin of the first 500 trees of that list.
   */
  lemma MeaningOfMerge(inputs: seq<Contribution>, x: Features)
    requires Merge(inputs).Success?
    ensures var s := SortDescending(Usable(inputs)); var total := TotalWeight(Usable(inputs));
      var merged := Merge(inputs).value;
      && s != [] && Positive(s) && total > 0
      && (!merged.info.capped ==>
            Margin(merged.model, x) == TreeSum(Bodies(s[0].0.trees), x) + IncludedSum(s[1..], total, x))
      && (!merged.info.capped && Consistent(s[0].0) ==>
            Margin(merged.model, x) == Margin(s[0].0, x) + IncludedSum(s[1..], total, x))
      && (merged.info.capped ==>
            Margin(merged.model, x) == TreeSum(Bodies(Pool(s, total)[..MAX_GLOBAL_TREES]), x))
  {
    var u := Usable(inputs);
    var s, total := SortDescending(u), TotalWeight(u);
    UsableIsPositive(inputs);
    TotalIsPositive(u);
    SortKeepsPositive(u);
    SortKeepsMembers(u);
    var merged := Merge(inputs).value;
    MergedArraysAgree(inputs);
    MarginIsTreeSum(merged.model, x);
    var kept := Prefix(Pool(s, total), MAX_GLOBAL_TREES);
    assert Bodies(merged.model.trees) == Bodies(kept);
    if !merged.info.capped {
      assert kept == Pool(s, total);
      PoolSum(s, total, x);
    }
    if Consistent(s[0].0) {
      MarginIsTreeSum(s[0].0, x);
    }
  }
}
