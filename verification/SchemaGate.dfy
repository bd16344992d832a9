/**
 The feature-schema gate between trust validation and the merge: the heaviest survivor sets the
 schema, survivors that disagree are dropped, and their rows in the round's results are flipped.
 */
module SchemaGate {
  import opened Wrappers
  import opened Sorting
  import opened Aggregation
  import opened AggregationTheorems
  import opened Trust

  /** What became of one accepted upload: its file was gone, trust refused it, or it survived. */
  datatype Judgement =
    | Missing(org: string, trust: int)
    | Distrusted(org: string, evaluation: Evaluation)
    | Survived(org: string, evaluation: Evaluation, document: Model)

  datatype RowReason = FileMissing | ByTrust(reason: Reason) | SchemaExcluded(expected: Schema, got: Schema)

  datatype ResultRow = ResultRow(org: string, accepted: bool, accuracy: Option<real>, trust: int, reason: RowReason)

  datatype Survivor = Survivor(org: string, document: Model)

  type Ranked = seq<(Survivor, int)>

  function RowOf(j: Judgement): ResultRow {
    match j
    case Missing(org, trust) => ResultRow(org, false, None, trust, FileMissing)
    case Distrusted(org, e) => ResultRow(org, false, e.accuracy, e.trust, ByTrust(e.reason))
    case Survived(org, e, _) => ResultRow(org, true, e.accuracy, e.trust, ByTrust(e.reason))
  }

  function Rows(judged: seq<Judgement>): seq<ResultRow> {
    seq(|judged|, i requires 0 <= i < |judged| => RowOf(judged[i]))
  }

  function Survivors(judged: seq<Judgement>): Ranked {
    if judged == [] then []
    else
      var head := if judged[0].Survived?
                  then [(Survivor(judged[0].org, judged[0].document), judged[0].evaluation.weight)] else [];
      head + Survivors(judged[1..])
  }

  /** Survivors in descending weight; the first one's schema is canonical. */
  function Ranking(judged: seq<Judgement>): Ranked {
    SortDescending(Survivors(judged))
  }

  function Canonical(ranked: Ranked): Schema
    requires ranked != []
  {
    FeatureSchema(ranked[0].0.document)
  }

  predicate Matches(s: Survivor, canonical: Schema) {
    FeatureSchema(s.document) == canonical
  }

  /** What is handed to the merge, in ranking order. */
  function Gated(ranked: Ranked, canonical: Schema): seq<Contribution> {
    if ranked == [] then []
    else
      var head := if Matches(ranked[0].0, canonical)
                  then [Contribution(Some(ranked[0].0.document), ranked[0].1)] else [];
      head + Gated(ranked[1..], canonical)
  }

  function Excluded(ranked: Ranked, canonical: Schema): seq<string> {
    if ranked == [] then []
    else (if Matches(ranked[0].0, canonical) then [] else [ranked[0].0.org]) + Excluded(ranked[1..], canonical)
  }

  function FlipRow(row: ResultRow, org: string, reason: RowReason): ResultRow {
    if row.org == org then row.(accepted := false, reason := reason) else row
  }

  function Flip(rows: seq<ResultRow>, org: string, reason: RowReason): seq<ResultRow> {
    seq(|rows|, i requires 0 <= i < |rows| => FlipRow(rows[i], org, reason))
  }

  function FlipFor(rows: seq<ResultRow>, s: Survivor, canonical: Schema): seq<ResultRow> {
    if Matches(s, canonical) then rows
    else Flip(rows, s.org, SchemaExcluded(canonical, FeatureSchema(s.document)))
  }

  function FlipAll(rows: seq<ResultRow>, ranked: Ranked, canonical: Schema): seq<ResultRow>
    decreases ranked
  {
    if ranked == [] then rows else FlipAll(FlipFor(rows, ranked[0].0, canonical), ranked[1..], canonical)
  }

  /** The inner loop: every row of the organisation is overwritten where it stands. */
  method FlipInPlace(rows: array<ResultRow>, org: string, reason: RowReason)
    modifies rows
    ensures rows[..] == Flip(old(rows[..]), org, reason)
  {
    for i := 0 to rows.Length
      invariant forall k | 0 <= k < i :: rows[k] == FlipRow(old(rows[k]), org, reason)
      invariant forall k | i <= k < rows.Length :: rows[k] == old(rows[k])
    {
      if rows[i].org == org {
        rows[i] := rows[i].(accepted := false, reason := reason);
      }
    }
  }

  lemma GateStep(ranked: Ranked, canonical: Schema, i: nat, rows: seq<ResultRow>)
    requires i < |ranked|
    ensures FlipAll(rows, ranked[i..], canonical)
         == FlipAll(FlipFor(rows, ranked[i].0, canonical), ranked[i + 1..], canonical)
    ensures Gated(ranked[i..], canonical)
         == (if Matches(ranked[i].0, canonical) then [Contribution(Some(ranked[i].0.document), ranked[i].1)] else [])
            + Gated(ranked[i + 1..], canonical)
    ensures Excluded(ranked[i..], canonical)
         == (if Matches(ranked[i].0, canonical) then [] else [ranked[i].0.org]) + Excluded(ranked[i + 1..], canonical)
  {
    assert ranked[i..][0] == ranked[i] && ranked[i..][1..] == ranked[i + 1..];
  }

  lemma Regrouped<T>(a: seq<T>, b: seq<T>, c: seq<T>)
    ensures a + b + c == a + (b + c)
    ensures a + ([] + c) == a + c
  {
  }

  method ApplyGate(judged: seq<Judgement>)
    returns (rows: seq<ResultRow>, weighted: seq<Contribution>, excluded: seq<string>)
    requires Survivors(judged) != []
    ensures Ranking(judged) != []
    ensures var canonical := Canonical(Ranking(judged));
      && rows == FlipAll(Rows(judged), Ranking(judged), canonical)
      && weighted == Gated(Ranking(judged), canonical)
      && excluded == Excluded(Ranking(judged), canonical)
  {
    var initial := Rows(judged);
    var results := new ResultRow[|initial|](i requires 0 <= i < |initial| => initial[i]);
    var ranked := Ranking(judged);
    SortKeepsMembers(Survivors(judged));
    var canonical := Canonical(ranked);
    weighted, excluded := [], [];
    assert results[..] == initial;
    for i := 0 to |ranked|
      invariant fresh(results)
      invariant FlipAll(results[..], ranked[i..], canonical) == FlipAll(initial, ranked, canonical)
      invariant weighted + Gated(ranked[i..], canonical) == Gated(ranked, canonical)
      invariant excluded + Excluded(ranked[i..], canonical) == Excluded(ranked, canonical)
    {
      var s := ranked[i].0;
      GateStep(ranked, canonical, i, results[..]);
      Regrouped(weighted, [Contribution(Some(s.document), ranked[i].1)], Gated(ranked[i + 1..], canonical));
      Regrouped(excluded, [s.org], Excluded(ranked[i + 1..], canonical));
      if FeatureSchema(s.document) == canonical {
        weighted := weighted + [Contribution(Some(s.document), ranked[i].1)];
      } else {
        FlipInPlace(results, s.org, SchemaExcluded(canonical, FeatureSchema(s.document)));
        excluded := excluded + [s.org];
      }
    }
    rows := results[..];
  }

  // ---------- Agreement of the gate with the merge ----------

  function GatedHead(p: (Survivor, int), canonical: Schema): seq<WeightedModel> {
    if Matches(p.0, canonical) && p.1 > 0 && p.0.document.trees != [] then [(p.0.document, p.1)] else []
  }

  lemma UsableOfGatedStep(ranked: Ranked, canonical: Schema)
    requires ranked != []
    ensures Usable(Gated(ranked, canonical)) == GatedHead(ranked[0], canonical) + Usable(Gated(ranked[1..], canonical))
  {
    if Matches(ranked[0].0, canonical) {
      var first := Contribution(Some(ranked[0].0.document), ranked[0].1);
      assert Gated(ranked, canonical) == [first] + Gated(ranked[1..], canonical);
      UsableConcat([first], Gated(ranked[1..], canonical));
      assert [first][1..] == [];
      assert Usable([first]) == GatedHead(ranked[0], canonical);
    } else {
      assert Gated(ranked, canonical) == Gated(ranked[1..], canonical);
    }
  }

  lemma {:induction false} UsableOfGated(ranked: Ranked, canonical: Schema)
    ensures forall i | 0 <= i < |Usable(Gated(ranked, canonical))| ::
              FeatureSchema(Usable(Gated(ranked, canonical))[i].0) == canonical
  {
    if ranked != [] {
      UsableOfGated(ranked[1..], canonical);
      UsableOfGatedStep(ranked, canonical);
    }
  }

  /** After the gate the merge's own schema check can never fire. */
  lemma GateSilencesMismatch(ranked: Ranked, canonical: Schema)
    ensures var result := Merge(Gated(ranked, canonical)); result.Failure? ==> result.error == NoUsableModels
  {
    var usable := Usable(Gated(ranked, canonical));
    UsableOfGated(ranked, canonical);
    if usable != [] {
      assert usable[0] in usable;
      assert Schemas(usable) == {canonical};
    }
  }

  ghost predicate AllAtMost(s: seq<WeightedModel>, top: int) {
    forall i | 0 <= i < |s| :: s[i].1 <= top
  }

  lemma PrependDescends(head: seq<WeightedModel>, rest: seq<WeightedModel>, top: int)
    requires Descending(rest) && AllAtMost(rest, top)
    requires head == [] || (|head| == 1 && head[0].1 == top)
    ensures Descending(head + rest) && AllAtMost(head + rest, top)
  {
  }

  lemma {:induction false} GatedDescends(ranked: Ranked, canonical: Schema)
    requires Descending(ranked)
    ensures Descending(Usable(Gated(ranked, canonical)))
    ensures ranked != [] ==> AllAtMost(Usable(Gated(ranked, canonical)), ranked[0].1)
  {
    if ranked != [] {
      var rest := Usable(Gated(ranked[1..], canonical));
      GatedDescends(ranked[1..], canonical);
      assert AllAtMost(rest, ranked[0].1);
      UsableOfGatedStep(ranked, canonical);
      PrependDescends(GatedHead(ranked[0], canonical), rest, ranked[0].1);
    }
  }

  /** The merge's sort leaves the gate's order alone. */
  lemma GateOrderIsMergeOrder(judged: seq<Judgement>, canonical: Schema)
    ensures var usable := Usable(Gated(Ranking(judged), canonical)); SortDescending(usable) == usable
  {
    SortIsStableDescending(Survivors(judged));
    var usable := Usable(Gated(Ranking(judged), canonical));
    GatedDescends(Ranking(judged), canonical);
    SortIsStableDescending(usable);
    StableOrderIsUnique(SortDescending(usable), usable);
  }

  ghost predicate PositiveWeights(judged: seq<Judgement>) {
    forall i | 0 <= i < |judged| && judged[i].Survived? :: judged[i].evaluation.weight > 0
  }

  lemma {:induction false} SurvivorsArePositive(judged: seq<Judgement>)
    requires PositiveWeights(judged)
    ensures Positive(Survivors(judged))
  {
    if judged != [] {
      SurvivorsArePositive(judged[1..]);
    }
  }

  /**
   When the heaviest survivor has trees it sets the canonical schema and is also the model that
   the merge builds on; the merge then cannot fail.
   */
  lemma HeaviestSurvivorIsBase(judged: seq<Judgement>)
    requires PositiveWeights(judged) && Survivors(judged) != []
    requires Ranking(judged) != [] && Ranking(judged)[0].0.document.trees != []
    ensures var ranked := Ranking(judged);
      var weighted := Gated(ranked, Canonical(ranked));
      && Usable(weighted) != []
      && SortDescending(Usable(weighted)) != []
      && SortDescending(Usable(weighted))[0] == (ranked[0].0.document, ranked[0].1)
      && Merge(weighted).Success?
      && FeatureSchema(Merge(weighted).value.model) == Canonical(ranked)
  {
    var ranked := Ranking(judged);
    var canonical := Canonical(ranked);
    SurvivorsArePositive(judged);
    SortKeepsPositive(Survivors(judged));
    UsableOfGatedStep(ranked, canonical);
    GateOrderIsMergeOrder(judged, canonical);
    GateSilencesMismatch(ranked, canonical);
  }

  // ---------- Reported and merged counts ----------

  function Count<T>(s: seq<(T, int)>, p: T -> bool): nat {
    if s == [] then 0 else (if p(s[0].0) then 1 else 0) + Count(s[1..], p)
  }

  function Spared(out: seq<string>): Survivor -> bool {
    (s: Survivor) => s.org !in out
  }

  function Matching(canonical: Schema): Survivor -> bool {
    (s: Survivor) => Matches(s, canonical)
  }

  function MatchingTreeless(canonical: Schema): Survivor -> bool {
    (s: Survivor) => Matches(s, canonical) && s.document.trees == []
  }

  function MatchingWithin(canonical: Schema, out: seq<string>): Survivor -> bool {
    (s: Survivor) => Matches(s, canonical) && s.org in out
  }

  lemma {:induction false} CountInsert<T>(x: (T, int), s: seq<(T, int)>, p: T -> bool)
    ensures Count(Insert(x, s), p) == Count([x] + s, p)
  {
    assert ([x] + s)[1..] == s;
    if s != [] && s[0].1 > x.1 {
      CountInsert(x, s[1..], p);
      assert ([x] + s[1..])[1..] == s[1..];
      assert Insert(x, s) == [s[0]] + Insert(x, s[1..]);
      assert ([s[0]] + Insert(x, s[1..]))[1..] == Insert(x, s[1..]);
    }
  }

  lemma {:induction false} CountSort<T>(s: seq<(T, int)>, p: T -> bool)
    ensures Count(SortDescending(s), p) == Count(s, p)
  {
    if s != [] {
      CountSort(s[1..], p);
      CountInsert(s[0], SortDescending(s[1..]), p);
      assert ([s[0]] + SortDescending(s[1..]))[1..] == SortDescending(s[1..]);
    }
  }

  function AcceptedRows(rows: seq<ResultRow>): nat {
    if rows == [] then 0 else (if rows[0].accepted then 1 else 0) + AcceptedRows(rows[1..])
  }

  /** Flipping changes a row's verdict exactly when its organisation has an excluded survivor. */
  lemma {:induction false} FlipAllVerdicts(rows: seq<ResultRow>, ranked: Ranked, canonical: Schema)
    ensures |FlipAll(rows, ranked, canonical)| == |rows|
    ensures forall i | 0 <= i < |rows| ::
              && FlipAll(rows, ranked, canonical)[i].org == rows[i].org
              && (FlipAll(rows, ranked, canonical)[i].accepted
                  <==> rows[i].accepted && rows[i].org !in Excluded(ranked, canonical))
    decreases ranked
  {
    if ranked != [] {
      FlipAllVerdicts(FlipFor(rows, ranked[0].0, canonical), ranked[1..], canonical);
    }
  }

  lemma {:induction false} AcceptedRowsCount(judged: seq<Judgement>, rows: seq<ResultRow>, out: seq<string>)
    requires |rows| == |judged|
    requires forall i | 0 <= i < |rows| :: rows[i].accepted <==> judged[i].Survived? && judged[i].org !in out
    ensures AcceptedRows(rows) == Count(Survivors(judged), Spared(out))
  {
    if judged != [] {
      AcceptedRowsCount(judged[1..], rows[1..], out);
      if judged[0].Survived? {
        assert Survivors(judged)[0].0.org == judged[0].org;
        assert Survivors(judged)[1..] == Survivors(judged[1..]);
      } else {
        assert Survivors(judged) == Survivors(judged[1..]);
      }
    }
  }

  /** Survivors of the canonical schema without trees: the merge skips them though they stay accepted. */
  function Treeless(ranked: Ranked, canonical: Schema): nat {
    Count(ranked, MatchingTreeless(canonical))
  }

  /** Survivors of the canonical schema whose organisation also has an excluded one: merged though not reported. */
  function Shadowed(ranked: Ranked, canonical: Schema, out: seq<string>): nat {
    Count(ranked, MatchingWithin(canonical, out))
  }

  lemma {:induction false} ModelsMerged(ranked: Ranked, canonical: Schema)
    requires Positive(ranked)
    ensures |Usable(Gated(ranked, canonical))| + Treeless(ranked, canonical)
         == Count(ranked, Matching(canonical))
  {
    if ranked != [] {
      ModelsMerged(ranked[1..], canonical);
      UsableOfGatedStep(ranked, canonical);
    }
  }

  lemma {:induction false} RowsReported(ranked: Ranked, canonical: Schema, out: seq<string>)
    requires forall s | s in Excluded(ranked, canonical) :: s in out
    ensures Count(ranked, Spared(out)) + Shadowed(ranked, canonical, out)
         == Count(ranked, Matching(canonical))
  {
    if ranked != [] {
      if !Matches(ranked[0].0, canonical) {
        assert Excluded(ranked, canonical)[0] == ranked[0].0.org;
        assert Excluded(ranked, canonical)[1..] == Excluded(ranked[1..], canonical);
      }
      RowsReported(ranked[1..], canonical, out);
    }
  }

  /**
   The reported accepted count and the number of merged models are two sides of one balance:
   they differ by the shadowed and the treeless survivors, and by nothing else.
   */
  lemma CountsBalance(judged: seq<Judgement>)
    requires PositiveWeights(judged) && Survivors(judged) != []
    ensures Ranking(judged) != []
    ensures var ranked := Ranking(judged);
      var canonical := Canonical(ranked);
      AcceptedRows(FlipAll(Rows(judged), ranked, canonical)) + Shadowed(ranked, canonical, Excluded(ranked, canonical))
        == |Usable(Gated(ranked, canonical))| + Treeless(ranked, canonical)
  {
    SortKeepsMembers(Survivors(judged));
    var ranked := Ranking(judged);
    var canonical := Canonical(ranked);
    var out := Excluded(ranked, canonical);
    FlipAllVerdicts(Rows(judged), ranked, canonical);
    AcceptedRowsCount(judged, FlipAll(Rows(judged), ranked, canonical), out);
    CountSort(Survivors(judged), Spared(out));
    SurvivorsArePositive(judged);
    SortKeepsPositive(Survivors(judged));
    ModelsMerged(ranked, canonical);
    RowsReported(ranked, canonical, out);
  }

  /** So the two numbers agree exactly when as many merged models are shadowed as accepted ones are treeless. */
  lemma CountsAgreeIff(judged: seq<Judgement>)
    requires PositiveWeights(judged) && Survivors(judged) != []
    requires Ranking(judged) != [] && Merge(Gated(Ranking(judged), Canonical(Ranking(judged)))).Success?
    ensures var ranked := Ranking(judged);
      var canonical := Canonical(ranked);
      (AcceptedRows(FlipAll(Rows(judged), ranked, canonical)) == Merge(Gated(ranked, canonical)).value.info.numModels)
      == (Shadowed(ranked, canonical, Excluded(ranked, canonical)) == Treeless(ranked, canonical))
  {
    CountsBalance(judged);
    SortKeepsMembers(Usable(Gated(Ranking(judged), Canonical(Ranking(judged)))));
  }

  ghost predicate OrgsDistinct(judged: seq<Judgement>) {
    forall i, j | 0 <= i < j < |judged| && judged[i].Survived? && judged[j].Survived? :: judged[i].org != judged[j].org
  }

  ghost predicate AllHaveTrees(judged: seq<Judgement>) {
    forall i | 0 <= i < |judged| && judged[i].Survived? :: judged[i].document.trees != []
  }

  lemma {:induction false} CountZero<T>(s: seq<(T, int)>, p: T -> bool)
    ensures Count(s, p) == 0 <==> forall i | 0 <= i < |s| :: !p(s[i].0)
  {
    if s != [] {
      CountZero(s[1..], p);
      assert forall i | 1 <= i < |s| :: s[i] == s[1..][i - 1];
    }
  }

  lemma {:induction false} SurvivorSource(judged: seq<Judgement>, k: nat) returns (i: nat)
    requires k < |Survivors(judged)|
    ensures i < |judged| && judged[i].Survived?
    ensures Survivors(judged)[k] == (Survivor(judged[i].org, judged[i].document), judged[i].evaluation.weight)
    ensures k <= i && |Survivors(judged[..i])| == k
  {
    if judged[0].Survived? && k == 0 {
      i := 0;
    } else {
      var skipped := if judged[0].Survived? then 1 else 0;
      var j := SurvivorSource(judged[1..], k - skipped);
      i := j + 1;
      assert judged[..i][0] == judged[0] && judged[..i][1..] == judged[1..][..j];
    }
  }

  lemma SurvivorOrgsDistinct(judged: seq<Judgement>)
    requires OrgsDistinct(judged)
    ensures forall k, l | 0 <= k < |Survivors(judged)| && 0 <= l < |Survivors(judged)| && k != l ::
              Survivors(judged)[k].0.org != Survivors(judged)[l].0.org
  {
    forall k, l | 0 <= k < |Survivors(judged)| && 0 <= l < |Survivors(judged)| && k != l
      ensures Survivors(judged)[k].0.org != Survivors(judged)[l].0.org
    {
      var i := SurvivorSource(judged, k);
      var j := SurvivorSource(judged, l);
    }
  }

  lemma {:induction false} ExcludedSource(ranked: Ranked, canonical: Schema, org: string) returns (i: nat)
    requires org in Excluded(ranked, canonical)
    ensures i < |ranked| && ranked[i].0.org == org && !Matches(ranked[i].0, canonical)
  {
    if !Matches(ranked[0].0, canonical) && ranked[0].0.org == org {
      i := 0;
    } else {
      assert org in Excluded(ranked[1..], canonical);
      var j := ExcludedSource(ranked[1..], canonical, org);
      i := j + 1;
    }
  }

  /** With one upload per organisation and trees in every surviving model, the counts agree. */
  lemma CountsAgree(judged: seq<Judgement>)
    requires PositiveWeights(judged) && Survivors(judged) != []
    requires OrgsDistinct(judged) && AllHaveTrees(judged)
    ensures Ranking(judged) != []
    ensures var ranked := Ranking(judged);
      var canonical := Canonical(ranked);
      var merged := Merge(Gated(ranked, canonical));
      && merged.Success?
      && merged.value.info.numModels == AcceptedRows(FlipAll(Rows(judged), ranked, canonical))
  {
    var survivors := Survivors(judged);
    SortKeepsMembers(survivors);
    var ranked := Ranking(judged);
    var canonical := Canonical(ranked);
    var out := Excluded(ranked, canonical);
    SurvivorOrgsDistinct(judged);
    PermutationStaysDistinct(survivors, ranked);
    forall i | 0 <= i < |ranked|
      ensures ranked[i].0.document.trees != []
      ensures !(Matches(ranked[i].0, canonical) && ranked[i].0.org in out)
    {
      var k := PermutationHas(ranked, survivors, i);
      var j := SurvivorSource(judged, k);
      if ranked[i].0.org in out {
        var i' := ExcludedSource(ranked, canonical, ranked[i].0.org);
        var k' := PermutationHas(ranked, survivors, i');
        assert k == k';
      }
    }
    CountZero(ranked, MatchingWithin(canonical, out));
    CountZero(ranked, MatchingTreeless(canonical));
    HeaviestSurvivorIsBase(judged);
    CountsAgreeIff(judged);
  }

  /** Two accepted evaluations, the first with more weight. */
  ghost predicate FirstOutweighs(e: Evaluation, f: Evaluation) {
    e.accepted && f.accepted && e.weight > f.weight > 0
  }

  /** When both uploads come from organisations in full standing, the larger one outweighs the smaller. */
  lemma LargerOutweighs(n: int, m: int, cap: int)
    requires 0 < m < n <= cap
    ensures FirstOutweighs(Evaluate(ENROLLED, NoValidationSet, n, cap), Evaluate(ENROLLED, NoValidationSet, m, cap))
  {
  }

  /**
   Two surviving uploads of one organisation break the agreement: when their schemas differ, the
   heavier is merged while both rows are reported as rejected.
   */
  lemma RepeatedOrgBreaksCounts(org: string, p: Model, q: Model, e: Evaluation, f: Evaluation)
    requires FirstOutweighs(e, f) && p.trees != [] && FeatureSchema(p) != FeatureSchema(q)
    ensures var judged := [Survived(org, e, p), Survived(org, f, q)];
      var ranked := Ranking(judged);
      && ranked == [(Survivor(org, p), e.weight), (Survivor(org, q), f.weight)]
      && AcceptedRows(FlipAll(Rows(judged), ranked, Canonical(ranked))) == 0
      && Merge(Gated(ranked, Canonical(ranked))).Success?
      && Merge(Gated(ranked, Canonical(ranked))).value.info.numModels == 1
  {
    RankPair(org, org, p, q, e, f);
    GateTwo((Survivor(org, p), e.weight), (Survivor(org, q), f.weight));
    MergedPair([Survived(org, e, p), Survived(org, f, q)]);
  }

  /** Two organisations with different schemas: one model is merged, and one row reported. */
  lemma OtherSchemaIsExcluded(a: string, b: string, p: Model, q: Model, e: Evaluation, f: Evaluation)
    requires a != b && FirstOutweighs(e, f) && p.trees != [] && FeatureSchema(p) != FeatureSchema(q)
    ensures var judged := [Survived(a, e, p), Survived(b, f, q)];
      var ranked := Ranking(judged);
      && ranked == [(Survivor(a, p), e.weight), (Survivor(b, q), f.weight)]
      && Gated(ranked, Canonical(ranked)) == [Contribution(Some(p), e.weight)]
      && AcceptedRows(FlipAll(Rows(judged), ranked, Canonical(ranked))) == 1
      && Merge(Gated(ranked, Canonical(ranked))).Success?
      && Merge(Gated(ranked, Canonical(ranked))).value.info.numModels == 1
  {
    RankPair(a, b, p, q, e, f);
    GateTwo((Survivor(a, p), e.weight), (Survivor(b, q), f.weight));
    MergedPair([Survived(a, e, p), Survived(b, f, q)]);
  }

  /** A surviving model without trees breaks it too: it is reported as accepted and adds nothing to the merge. */
  lemma TreelessBreaksCounts(a: string, b: string, p: Model, q: Model, e: Evaluation, f: Evaluation)
    requires FirstOutweighs(e, f) && p.trees != [] && q.trees == [] && FeatureSchema(p) == FeatureSchema(q)
    ensures var judged := [Survived(a, e, p), Survived(b, f, q)];
      var ranked := Ranking(judged);
      && ranked == [(Survivor(a, p), e.weight), (Survivor(b, q), f.weight)]
      && AcceptedRows(FlipAll(Rows(judged), ranked, Canonical(ranked))) == 2
      && Merge(Gated(ranked, Canonical(ranked))).Success?
      && Merge(Gated(ranked, Canonical(ranked))).value.info.numModels == 1
  {
    RankPair(a, b, p, q, e, f);
    GateTreeless((Survivor(a, p), e.weight), (Survivor(b, q), f.weight));
    MergedPair([Survived(a, e, p), Survived(b, f, q)]);
  }

  lemma RankPair(a: string, b: string, p: Model, q: Model, e: Evaluation, f: Evaluation)
    requires FirstOutweighs(e, f)
    ensures var judged := [Survived(a, e, p), Survived(b, f, q)];
      && PositiveWeights(judged) && Survivors(judged) == Ranking(judged)
      && Ranking(judged) == [(Survivor(a, p), e.weight), (Survivor(b, q), f.weight)]
  {
    var judged := [Survived(a, e, p), Survived(b, f, q)];
    assert judged[1..] == [Survived(b, f, q)] && judged[1..][1..] == [];
    assert Survivors(judged[1..]) == [(Survivor(b, q), f.weight)];
    RankTwo((Survivor(a, p), e.weight), (Survivor(b, q), f.weight));
  }

  /** The balance, and the number of models merged, for a list whose heaviest survivor has trees. */
  lemma MergedPair(judged: seq<Judgement>)
    requires PositiveWeights(judged) && Survivors(judged) != []
    requires Ranking(judged) != [] && Ranking(judged)[0].0.document.trees != []
    ensures var ranked := Ranking(judged);
      var canonical := Canonical(ranked);
      var merged := Merge(Gated(ranked, canonical));
      && merged.Success? && merged.value.info.numModels == |Usable(Gated(ranked, canonical))|
      && AcceptedRows(FlipAll(Rows(judged), ranked, canonical))
         + Shadowed(ranked, canonical, Excluded(ranked, canonical))
         == merged.value.info.numModels + Treeless(ranked, canonical)
  {
    HeaviestSurvivorIsBase(judged);
    CountsBalance(judged);
    SortKeepsMembers(Usable(Gated(Ranking(judged), Canonical(Ranking(judged)))));
  }

  lemma RankTwo(a: (Survivor, int), b: (Survivor, int))
    requires a.1 > b.1
    ensures SortDescending([a, b]) == [a, b]
  {
    assert [a, b][1..] == [b] && [b][1..] == [];
    assert SortDescending([b]) == [b];
  }

  /** The second survivor has another schema: it is excluded, and shadows the first if the organisation is the same. */
  lemma GateTwo(a: (Survivor, int), b: (Survivor, int))
    requires a.1 > 0 && a.0.document.trees != []
    requires FeatureSchema(a.0.document) != FeatureSchema(b.0.document)
    ensures var canonical := FeatureSchema(a.0.document); var ranked := [a, b];
      && Gated(ranked, canonical) == [Contribution(Some(a.0.document), a.1)]
      && |Usable(Gated(ranked, canonical))| == 1
      && Treeless(ranked, canonical) == 0
      && Shadowed(ranked, canonical, Excluded(ranked, canonical)) == if a.0.org == b.0.org then 1 else 0
  {
    var canonical := FeatureSchema(a.0.document);
    assert [a, b][1..] == [b] && [b][1..] == [];
    UsableOfGatedStep([a, b], canonical);
    UsableOfGatedStep([b], canonical);
    assert Excluded([b], canonical) == [b.0.org];
    assert Excluded([a, b], canonical) == [b.0.org];
    CountTwo(a, b, MatchingTreeless(canonical));
    CountTwo(a, b, MatchingWithin(canonical, [b.0.org]));
  }

  /** The second survivor has the same schema and no trees. */
  lemma GateTreeless(a: (Survivor, int), b: (Survivor, int))
    requires a.1 > 0 && a.0.document.trees != [] && b.0.document.trees == []
    requires FeatureSchema(a.0.document) == FeatureSchema(b.0.document)
    ensures var canonical := FeatureSchema(a.0.document); var ranked := [a, b];
      && |Usable(Gated(ranked, canonical))| == 1
      && Treeless(ranked, canonical) == 1
      && Shadowed(ranked, canonical, Excluded(ranked, canonical)) == 0
  {
    var canonical := FeatureSchema(a.0.document);
    assert [a, b][1..] == [b] && [b][1..] == [];
    UsableOfGatedStep([a, b], canonical);
    UsableOfGatedStep([b], canonical);
    assert Excluded([b], canonical) == [];
    assert Excluded([a, b], canonical) == [];
    CountTwo(a, b, MatchingTreeless(canonical));
    CountTwo(a, b, MatchingWithin(canonical, []));
  }

  lemma CountTwo(a: (Survivor, int), b: (Survivor, int), p: Survivor -> bool)
    ensures Count([a, b], p) == (if p(a.0) then 1 else 0) + (if p(b.0) then 1 else 0)
  {
    assert [a, b][1..] == [b] && [b][1..] == [];
    assert Count([b], p) == if p(b.0) then 1 else 0;
  }
}
