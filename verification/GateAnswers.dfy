/**
 The aggregation's judgements, gate and report in plain terms: how each upload was evaluated, who is let
 into the merge, and what the round's results say of every upload.
 */
module GateAnswers {
  import opened Wrappers
  import opened Sorting
  import opened Aggregation
  import opened ExactMerge
  import opened SchemaGate
  import opened Trust
  import opened Attestation
  import opened Store
  import opened Protocol
  import opened Standing
  import opened Provenance

  // ---------- How uploads are evaluated ----------

  /** The scores an organisation has when the n-th upload of a round is evaluated. */
  function ScoresBefore(s: State, rows: seq<Row>, scorings: nat -> Scoring, n: nat): Scores
    requires n < |rows| && AllOnDisk(rows)
  {
    After(if rows[n].org in s.db.orgs then s.db.orgs[rows[n].org].scores else ENROLLED,
          if rows[n].org in s.db.orgs then Scored(s, rows, scorings, rows[n].org, n) else [])
  }

  /** The evaluation of the n-th upload, on those scores, its own outcome and its own number of examples. */
  function EvaluationAt(env: Env, s: State, rows: seq<Row>, scorings: nat -> Scoring, n: nat): Evaluation
    requires n < |rows| && AllOnDisk(rows)
  {
    Evaluate(ScoresBefore(s, rows, scorings, n), scorings(n), rows[n].numExamples, env.maxExamples)
  }

  /**
   A missing file is reported with the trust the organisation had before the round, 0.50 if it is unknown;
   any other upload survives exactly if it is accepted and is JSON.
   */
  ghost predicate JudgedAs(env: Env, s: State, rows: seq<Row>, scorings: nat -> Scoring, n: nat, j: Judgement)
    requires n < |rows| && AllOnDisk(rows)
  {
    var row, e := rows[n], EvaluationAt(env, s, rows, scorings, n);
    if row.path.value !in s.files then
      j == Missing(row.org, if row.org in s.db.orgs then s.db.orgs[row.org].scores.trust else 50)
    else
      var document := env.parse(s.files[row.path.value]);
      if e.accepted && document.Some? then j == Survived(row.org, e, document.value) else j == Distrusted(row.org, e)
  }

  /** The organisation is sent its new trust and the reason. */
  function NoticeAt(env: Env, s: State, rows: seq<Row>, scorings: nat -> Scoring, now: int, n: nat): Payload
    requires n < |rows| && AllOnDisk(rows)
  {
    var e := EvaluationAt(env, s, rows, scorings, n);
    TrustUpdate(rows[n].org, rows[n].round, e.trust, e.reason, now)
  }

  /** An upload that is accepted and yet not JSON. */
  predicate BreaksAt(env: Env, s: State, rows: seq<Row>, scorings: nat -> Scoring, n: nat)
    requires n < |rows| && AllOnDisk(rows)
  {
    && rows[n].path.value in s.files && EvaluationAt(env, s, rows, scorings, n).accepted
    && env.parse(s.files[rows[n].path.value]).None?
  }

  lemma {:induction false} ScoresWhenJudged(env: Env, s: State, rows: seq<Row>, scorings: nat -> Scoring, now: int,
                                            n: nat)
    requires n < |rows| && AllOnDisk(rows)
    ensures ScoresOf(JudgeFirst(env, s, rows, scorings, now, n).db, rows[n].org) == ScoresBefore(s, rows, scorings, n)
  {
    var org := rows[n].org;
    if org in s.db.orgs {
      JudgingFollowsScorings(env, s, rows, scorings, now, n, org);
    } else {
      NobodyAppears(env, s, rows, scorings, now, n, org);
    }
  }

  lemma {:induction false} NobodyAppears(env: Env, s: State, rows: seq<Row>, scorings: nat -> Scoring, now: int,
                                         n: nat, org: string)
    requires n <= |rows| && AllOnDisk(rows) && org !in s.db.orgs
    ensures org !in JudgeFirst(env, s, rows, scorings, now, n).db.orgs
  {
    if n > 0 {
      NobodyAppears(env, s, rows, scorings, now, n - 1, org);
    }
  }

  ghost predicate AllJudgedAs(env: Env, s: State, rows: seq<Row>, scorings: nat -> Scoring, n: nat,
                              judged: seq<Judgement>)
    requires n <= |rows| && AllOnDisk(rows)
  {
    |judged| == n && forall i | 0 <= i < n :: JudgedAs(env, s, rows, scorings, i, judged[i])
  }

  /** Every upload is judged on its own file, outcome and example count, and on what earlier ones left of the scores. */
  lemma {:induction false} JudgementsAre(env: Env, s: State, rows: seq<Row>, scorings: nat -> Scoring, now: int, n: nat)
    requires n <= |rows| && AllOnDisk(rows)
    ensures AllJudgedAs(env, s, rows, scorings, n, JudgeFirst(env, s, rows, scorings, now, n).judged)
  {
    if n > 0 {
      JudgementsAre(env, s, rows, scorings, now, n - 1);
      OneJudgementIs(env, s, rows, scorings, now, n - 1);
      OneMoreJudged(env, s, rows, scorings, n - 1, JudgeFirst(env, s, rows, scorings, now, n - 1).judged,
                    JudgeFirst(env, s, rows, scorings, now, n).judged);
    } else {
      assert JudgeFirst(env, s, rows, scorings, now, 0).judged == [];
    }
  }

  lemma OneMoreJudged(env: Env, s: State, rows: seq<Row>, scorings: nat -> Scoring, n: nat,
                      before: seq<Judgement>, after: seq<Judgement>)
    requires n < |rows| && AllOnDisk(rows) && AllJudgedAs(env, s, rows, scorings, n, before)
    requires |after| == n + 1 && after[..n] == before && JudgedAs(env, s, rows, scorings, n, after[n])
    ensures AllJudgedAs(env, s, rows, scorings, n + 1, after)
  {
    assert forall i | 0 <= i < n :: after[i] == before[i];
  }

  lemma OneJudgementIs(env: Env, s: State, rows: seq<Row>, scorings: nat -> Scoring, now: int, n: nat)
    requires n < |rows| && AllOnDisk(rows)
    ensures var before := JudgeFirst(env, s, rows, scorings, now, n).judged;
      var after := JudgeFirst(env, s, rows, scorings, now, n + 1).judged;
      && |after| == |before| + 1 && after[..|before|] == before
      && JudgedAs(env, s, rows, scorings, n, after[|before|])
  {
    ScoresWhenJudged(env, s, rows, scorings, now, n);
  }

  lemma OneNoticeIs(env: Env, s: State, rows: seq<Row>, scorings: nat -> Scoring, now: int, n: nat)
    requires n < |rows| && AllOnDisk(rows)
    ensures JudgeFirst(env, s, rows, scorings, now, n + 1).notices
         == JudgeFirst(env, s, rows, scorings, now, n).notices
            + if rows[n].path.value in s.files then {NoticeAt(env, s, rows, scorings, now, n)} else {}
  {
    ScoresWhenJudged(env, s, rows, scorings, now, n);
  }

  lemma OneBreakIs(env: Env, s: State, rows: seq<Row>, scorings: nat -> Scoring, now: int, n: nat)
    requires n < |rows| && AllOnDisk(rows)
    ensures JudgeFirst(env, s, rows, scorings, now, n + 1).broken
      <==> JudgeFirst(env, s, rows, scorings, now, n).broken || BreaksAt(env, s, rows, scorings, n)
  {
    ScoresWhenJudged(env, s, rows, scorings, now, n);
  }

  /** One of the first n uploads was evaluated and its organisation sent this. */
  ghost predicate Noticed(env: Env, s: State, rows: seq<Row>, scorings: nat -> Scoring, now: int, n: nat, p: Payload)
    requires n <= |rows| && AllOnDisk(rows)
  {
    exists i | 0 <= i < n :: rows[i].path.value in s.files && p == NoticeAt(env, s, rows, scorings, now, i)
  }

  lemma NoticeCarries(env: Env, s: State, rows: seq<Row>, scorings: nat -> Scoring, now: int, n: nat, p: Payload,
                      before: set<Payload>, after: set<Payload>)
    requires n < |rows| && AllOnDisk(rows)
    requires p in before <==> Noticed(env, s, rows, scorings, now, n, p)
    requires after == before
      + if rows[n].path.value in s.files then {NoticeAt(env, s, rows, scorings, now, n)} else {}
    ensures p in after <==> Noticed(env, s, rows, scorings, now, n + 1, p)
  {
    NoticedStep(env, s, rows, scorings, now, n, p);
  }

  lemma NoticedStep(env: Env, s: State, rows: seq<Row>, scorings: nat -> Scoring, now: int, n: nat, p: Payload)
    requires n < |rows| && AllOnDisk(rows)
    ensures Noticed(env, s, rows, scorings, now, n + 1, p) <==>
      Noticed(env, s, rows, scorings, now, n, p)
      || (rows[n].path.value in s.files && p == NoticeAt(env, s, rows, scorings, now, n))
  {
  }

  /** Exactly the organisations whose uploads were evaluated are notified, each of its own outcome. */
  lemma {:induction false} NoticesAre(env: Env, s: State, rows: seq<Row>, scorings: nat -> Scoring, now: int, n: nat,
                                      p: Payload)
    requires n <= |rows| && AllOnDisk(rows)
    ensures NoticedExactly(env, s, rows, scorings, now, n, p)
  {
    if n > 0 {
      NoticesAre(env, s, rows, scorings, now, n - 1, p);
      NoticesStep(env, s, rows, scorings, now, n - 1, p);
    } else {
      NobodyNoticed(env, s, rows, scorings, now, p);
    }
  }

  lemma NobodyNoticed(env: Env, s: State, rows: seq<Row>, scorings: nat -> Scoring, now: int, p: Payload)
    requires AllOnDisk(rows)
    ensures NoticedExactly(env, s, rows, scorings, now, 0, p)
  {
    assert JudgeFirst(env, s, rows, scorings, now, 0).notices == {};
  }

  ghost predicate NoticedExactly(env: Env, s: State, rows: seq<Row>, scorings: nat -> Scoring, now: int, n: nat,
                                 p: Payload)
    requires n <= |rows| && AllOnDisk(rows)
  {
    p in JudgeFirst(env, s, rows, scorings, now, n).notices <==> Noticed(env, s, rows, scorings, now, n, p)
  }

  lemma NoticesStep(env: Env, s: State, rows: seq<Row>, scorings: nat -> Scoring, now: int, n: nat, p: Payload)
    requires n < |rows| && AllOnDisk(rows) && NoticedExactly(env, s, rows, scorings, now, n, p)
    ensures NoticedExactly(env, s, rows, scorings, now, n + 1, p)
  {
    OneNoticeIs(env, s, rows, scorings, now, n);
    NoticeCarries(env, s, rows, scorings, now, n, p, JudgeFirst(env, s, rows, scorings, now, n).notices,
                  JudgeFirst(env, s, rows, scorings, now, n + 1).notices);
  }

  ghost predicate SomeBreaks(env: Env, s: State, rows: seq<Row>, scorings: nat -> Scoring, n: nat)
    requires n <= |rows| && AllOnDisk(rows)
  {
    exists i | 0 <= i < n :: BreaksAt(env, s, rows, scorings, i)
  }

  lemma BreaksStep(env: Env, s: State, rows: seq<Row>, scorings: nat -> Scoring, n: nat)
    requires n < |rows| && AllOnDisk(rows)
    ensures SomeBreaks(env, s, rows, scorings, n + 1) <==>
      SomeBreaks(env, s, rows, scorings, n) || BreaksAt(env, s, rows, scorings, n)
  {
  }

  /** Judging breaks exactly on an accepted upload that is not JSON. */
  lemma {:induction false} BrokenIff(env: Env, s: State, rows: seq<Row>, scorings: nat -> Scoring, now: int, n: nat)
    requires n <= |rows| && AllOnDisk(rows)
    ensures BrokenExactly(env, s, rows, scorings, now, n)
  {
    if n > 0 {
      BrokenIff(env, s, rows, scorings, now, n - 1);
      BrokenStep(env, s, rows, scorings, now, n - 1);
    } else {
      assert !JudgeFirst(env, s, rows, scorings, now, 0).broken;
    }
  }

  ghost predicate BrokenExactly(env: Env, s: State, rows: seq<Row>, scorings: nat -> Scoring, now: int, n: nat)
    requires n <= |rows| && AllOnDisk(rows)
  {
    JudgeFirst(env, s, rows, scorings, now, n).broken <==> SomeBreaks(env, s, rows, scorings, n)
  }

  lemma BrokenStep(env: Env, s: State, rows: seq<Row>, scorings: nat -> Scoring, now: int, n: nat)
    requires n < |rows| && AllOnDisk(rows) && BrokenExactly(env, s, rows, scorings, now, n)
    ensures BrokenExactly(env, s, rows, scorings, now, n + 1)
  {
    OneBreakIs(env, s, rows, scorings, now, n);
    BreaksStep(env, s, rows, scorings, n);
  }

  // ---------- Who is let into the merge ----------

  /** `at` lists, in order, the places of `list` in `ranked` that satisfy p. */
  ghost predicate Picks<T>(ranked: Ranked, list: seq<T>, at: seq<nat>, of: ((Survivor, int)) -> T,
                           p: Survivor -> bool)
  {
    && |at| == |list| && (forall k, l | 0 <= k < l < |at| :: at[k] < at[l])
    && (forall k | 0 <= k < |at| :: at[k] < |ranked| && list[k] == of(ranked[at[k]]))
    && (forall i | 0 <= i < |ranked| :: i in at <==> p(ranked[i].0))
  }

  function AsContribution(e: (Survivor, int)): Contribution {
    Aggregation.Contribution.Contribution(Some(e.0.document), e.1)
  }

  function OrgOf(e: (Survivor, int)): string { e.0.org }

  function Fits(heaviest: Model): Survivor -> bool {
    (s: Survivor) => s.document.featureNames == heaviest.featureNames
      && (heaviest.featureNames == [] ==> FeatureCount(s.document) == FeatureCount(heaviest))
  }

  function Misfits(heaviest: Model): Survivor -> bool {
    (s: Survivor) => !Fits(heaviest)(s)
  }

  /** A choice made place by place from the front. */
  lemma PickFirst<T>(ranked: Ranked, rest: seq<T>, before: seq<nat>, of: ((Survivor, int)) -> T, p: Survivor -> bool)
    returns (at: seq<nat>)
    requires ranked != [] && Picks(ranked[1..], rest, before, of, p)
    ensures Picks(ranked, (if p(ranked[0].0) then [of(ranked[0])] else []) + rest, at, of, p)
  {
    at := seq(|before|, k requires 0 <= k < |before| => before[k] + 1);
    PickLater(ranked, rest, before, at, of, p);
    if p(ranked[0].0) {
      PickHead(ranked, rest, at, of, p);
      at := [0] + at;
    } else {
      assert [] + rest == rest;
    }
  }

  /** The same choice, of places from 1 on. */
  ghost predicate PicksLater<T>(ranked: Ranked, list: seq<T>, at: seq<nat>, of: ((Survivor, int)) -> T,
                                p: Survivor -> bool)
  {
    && |at| == |list| && (forall k, l | 0 <= k < l < |at| :: at[k] < at[l]) && 0 !in at
    && (forall k | 0 <= k < |at| :: at[k] < |ranked| && list[k] == of(ranked[at[k]]))
    && (forall i | 1 <= i < |ranked| :: i in at <==> p(ranked[i].0))
  }

  lemma PickLater<T>(ranked: Ranked, rest: seq<T>, before: seq<nat>, at: seq<nat>, of: ((Survivor, int)) -> T,
                     p: Survivor -> bool)
    requires ranked != [] && Picks(ranked[1..], rest, before, of, p)
    requires |at| == |before| && forall k | 0 <= k < |before| :: at[k] == before[k] + 1
    ensures PicksLater(ranked, rest, at, of, p)
    ensures !p(ranked[0].0) ==> Picks(ranked, rest, at, of, p)
  {
    ShiftedPlaces(before, at);
    forall k | 0 <= k < |at|
      ensures at[k] < |ranked| && rest[k] == of(ranked[at[k]])
    {
      assert ranked[1..][before[k]] == ranked[at[k]];
    }
    forall i | 1 <= i < |ranked|
      ensures i in at <==> p(ranked[i].0)
    {
      assert ranked[i] == ranked[1..][i - 1];
    }
  }

  lemma PickHead<T>(ranked: Ranked, rest: seq<T>, at: seq<nat>, of: ((Survivor, int)) -> T, p: Survivor -> bool)
    requires ranked != [] && PicksLater(ranked, rest, at, of, p) && p(ranked[0].0)
    ensures Picks(ranked, [of(ranked[0])] + rest, [0] + at, of, p)
  {
    var more := [0] + at;
    assert forall k | 0 <= k < |at| :: at[k] in at && at[k] != 0;
    forall i | 0 <= i < |ranked|
      ensures i in more <==> p(ranked[i].0)
    {
      assert i in more <==> i == 0 || i in at;
    }
  }

  lemma ShiftedPlaces(before: seq<nat>, shifted: seq<nat>)
    requires |shifted| == |before| && forall k | 0 <= k < |before| :: shifted[k] == before[k] + 1
    ensures forall i: int :: i in shifted <==> i - 1 in before
    ensures 0 !in shifted
  {
    forall i: int | i - 1 in before
      ensures i in shifted
    {
      var k :| 0 <= k < |before| && before[k] == i - 1;
      assert shifted[k] == i;
    }
  }

  lemma FitsIff(heaviest: Model, s: Survivor)
    ensures Matches(s, FeatureSchema(heaviest)) <==> Fits(heaviest)(s)
  {
    SchemasAgreeIff(s.document, heaviest);
  }

  lemma {:induction false} GatedPicks(ranked: Ranked, heaviest: Model) returns (at: seq<nat>)
    ensures Picks(ranked, Gated(ranked, FeatureSchema(heaviest)), at, AsContribution, Fits(heaviest))
  {
    at := [];
    if ranked != [] {
      var before := GatedPicks(ranked[1..], heaviest);
      FitsIff(heaviest, ranked[0].0);
      at := PickFirst(ranked, Gated(ranked[1..], FeatureSchema(heaviest)), before, AsContribution, Fits(heaviest));
    }
  }

  lemma {:induction false} ExcludedPicks(ranked: Ranked, heaviest: Model) returns (at: seq<nat>)
    ensures Picks(ranked, Excluded(ranked, FeatureSchema(heaviest)), at, OrgOf, Misfits(heaviest))
  {
    at := [];
    if ranked != [] {
      var before := ExcludedPicks(ranked[1..], heaviest);
      FitsIff(heaviest, ranked[0].0);
      at := PickFirst(ranked, Excluded(ranked[1..], FeatureSchema(heaviest)), before, OrgOf, Misfits(heaviest));
    }
  }

  /**
   A survivor is handed to the merge, with its own document and weight, exactly if its features are those of
   the heaviest survivor; all others, and no more, are listed as excluded. Both lists are in ranking order.
   */
  lemma GateIsExact(ranked: Ranked) returns (kept: seq<nat>, out: seq<nat>)
    requires ranked != []
    ensures var heaviest := ranked[0].0.document;
      && Picks(ranked, Gated(ranked, Canonical(ranked)), kept, AsContribution, Fits(heaviest))
      && Picks(ranked, Excluded(ranked, Canonical(ranked)), out, OrgOf, Misfits(heaviest))
  {
    kept := GatedPicks(ranked, ranked[0].0.document);
    out := ExcludedPicks(ranked, ranked[0].0.document);
  }

  // ---------- Ranking ----------

  /** The survivors, each with its evaluation's weight, are ranked by weight. */
  lemma HeavierRanksFirst(judged: seq<Judgement>, a: Judgement, b: Judgement) returns (k: nat, l: nat)
    requires a in judged && b in judged && a.Survived? && b.Survived?
    requires a.evaluation.weight > b.evaluation.weight
    ensures k < l < |Ranking(judged)|
    ensures Ranking(judged)[k] == (Survivor(a.org, a.document), a.evaluation.weight)
    ensures Ranking(judged)[l] == (Survivor(b.org, b.document), b.evaluation.weight)
  {
    SortIsStableDescending(Survivors(judged));
    k := RankOf(judged, a);
    l := RankOf(judged, b);
  }

  lemma RankOf(judged: seq<Judgement>, a: Judgement) returns (k: nat)
    requires a in judged && a.Survived?
    ensures k < |Ranking(judged)| && Ranking(judged)[k] == (Survivor(a.org, a.document), a.evaluation.weight)
  {
    var p := (Survivor(a.org, a.document), a.evaluation.weight);
    SurvivorListed(judged, a);
    SortKeepsMembers(Survivors(judged));
    assert p in multiset(Survivors(judged)) && p in multiset(Ranking(judged));
    k :| 0 <= k < |Ranking(judged)| && Ranking(judged)[k] == p;
  }

  lemma {:induction false} SurvivorListed(judged: seq<Judgement>, a: Judgement)
    requires a in judged && a.Survived?
    ensures (Survivor(a.org, a.document), a.evaluation.weight) in Survivors(judged)
  {
    if judged[0] != a {
      SurvivorListed(judged[1..], a);
    }
  }

  /** With equal examples, the survivor that has more trust after its evaluation ranks before the other. */
  lemma MoreTrustedRanksFirst(judged: seq<Judgement>, a: Judgement, b: Judgement, s: Scores, t: Scores,
                              x: Scoring, y: Scoring, n: int, cap: int) returns (k: nat, l: nat)
    requires a in judged && b in judged && a.Survived? && b.Survived? && cap > 0
    requires a.evaluation == Evaluate(s, x, n, cap) && b.evaluation == Evaluate(t, y, n, cap)
    requires a.evaluation.accepted && b.evaluation.accepted && a.evaluation.trust > b.evaluation.trust
    ensures k < l < |Ranking(judged)|
    ensures Ranking(judged)[k].0 == Survivor(a.org, a.document) && Ranking(judged)[l].0 == Survivor(b.org, b.document)
  {
    MoreTrustedOutweighs(t, s, y, x, n, cap);
    k, l := HeavierRanksFirst(judged, a, b);
  }

  // ---------- What the results say ----------

  /** The line of the results for one upload, given the heaviest survivor's model. */
  function ReportOf(j: Judgement, heaviest: Model): ResultRow {
    match j
    case Missing(org, trust) => ResultRow(org, false, None, trust, FileMissing)
    case Distrusted(org, e) => ResultRow(org, false, e.accuracy, e.trust, ByTrust(e.reason))
    case Survived(org, e, d) =>
      if Fits(heaviest)(Survivor(org, d)) then ResultRow(org, true, e.accuracy, e.trust, ByTrust(e.reason))
      else ResultRow(org, false, e.accuracy, e.trust, SchemaExcluded(FeatureSchema(heaviest), FeatureSchema(d)))
  }

  lemma {:induction false} RowUntouched(rows: seq<ResultRow>, ranked: Ranked, canonical: Schema, i: nat)
    requires i < |rows|
    requires forall k | 0 <= k < |ranked| :: Matches(ranked[k].0, canonical) || ranked[k].0.org != rows[i].org
    ensures |FlipAll(rows, ranked, canonical)| == |rows| && FlipAll(rows, ranked, canonical)[i] == rows[i]
    decreases ranked
  {
    if ranked != [] {
      RowUntouched(FlipFor(rows, ranked[0].0, canonical), ranked[1..], canonical, i);
    }
  }

  lemma {:induction false} RowFlippedOnce(rows: seq<ResultRow>, ranked: Ranked, canonical: Schema, i: nat, k: nat)
    requires i < |rows| && k < |ranked| && ranked[k].0.org == rows[i].org && !Matches(ranked[k].0, canonical)
    requires forall l | 0 <= l < |ranked| && l != k :: ranked[l].0.org != rows[i].org
    ensures |FlipAll(rows, ranked, canonical)| == |rows|
    ensures FlipAll(rows, ranked, canonical)[i]
         == rows[i].(accepted := false, reason := SchemaExcluded(canonical, FeatureSchema(ranked[k].0.document)))
    decreases ranked
  {
    var next := FlipFor(rows, ranked[0].0, canonical);
    if k == 0 {
      assert forall l | 0 <= l < |ranked[1..]| :: ranked[1..][l] == ranked[l + 1];
      RowUntouched(next, ranked[1..], canonical, i);
    } else {
      assert forall l | 0 <= l < |ranked[1..]| :: ranked[1..][l] == ranked[l + 1];
      assert next[i] == rows[i];
      RowFlippedOnce(next, ranked[1..], canonical, i, k - 1);
    }
  }

  /** Where one organisation has one upload, its line of the results is about that upload, in every field. */
  lemma ReportsAre(judged: seq<Judgement>, i: nat)
    requires JudgedOnce(judged) && Ranking(judged) != [] && i < |judged|
    ensures var ranked := Ranking(judged);
      var results := FlipAll(Rows(judged), ranked, Canonical(ranked));
      |results| == |judged| && results[i] == ReportOf(judged[i], ranked[0].0.document)
  {
    var ranked := Ranking(judged);
    var canonical, rows := Canonical(ranked), Rows(judged);
    RankedSources(judged);
    if judged[i].Survived? && !Matches(Survivor(judged[i].org, judged[i].document), canonical) {
      FitsIff(ranked[0].0.document, Survivor(judged[i].org, judged[i].document));
      var k := RankOf(judged, judged[i]);
      OthersElsewhere(judged, i, k);
      RowFlippedOnce(rows, ranked, canonical, i, k);
    } else {
      if judged[i].Survived? {
        FitsIff(ranked[0].0.document, Survivor(judged[i].org, judged[i].document));
      }
      NobodyFlips(judged, i, canonical);
      RowUntouched(rows, ranked, canonical, i);
    }
  }

  /** Every ranked survivor comes from a judgement. */
  lemma RankedSources(judged: seq<Judgement>)
    ensures forall k | 0 <= k < |Ranking(judged)| :: RankedFrom(judged, Ranking(judged)[k])
  {
    var survivors, ranked := Survivors(judged), Ranking(judged);
    SortKeepsMembers(survivors);
    forall k | 0 <= k < |ranked|
      ensures RankedFrom(judged, ranked[k])
    {
      var j := PermutationHas(ranked, survivors, k);
      var i := SurvivorSource(judged, j);
    }
  }

  ghost predicate RankedFrom(judged: seq<Judgement>, p: (Survivor, int)) {
    exists i | 0 <= i < |judged| :: judged[i].Survived?
      && p == (Survivor(judged[i].org, judged[i].document), judged[i].evaluation.weight)
  }

  lemma NobodyFlips(judged: seq<Judgement>, i: nat, canonical: Schema)
    requires JudgedOnce(judged) && i < |judged|
    requires judged[i].Survived? ==> Matches(Survivor(judged[i].org, judged[i].document), canonical)
    ensures forall k | 0 <= k < |Ranking(judged)| ::
              Matches(Ranking(judged)[k].0, canonical) || Ranking(judged)[k].0.org != judged[i].org
  {
    RankedSources(judged);
    forall k | 0 <= k < |Ranking(judged)|
      ensures Matches(Ranking(judged)[k].0, canonical) || Ranking(judged)[k].0.org != judged[i].org
    {
      assert RankedFrom(judged, Ranking(judged)[k]);
    }
  }

  lemma OthersElsewhere(judged: seq<Judgement>, i: nat, k: nat)
    requires JudgedOnce(judged) && i < |judged| && k < |Ranking(judged)|
    requires Ranking(judged)[k].0.org == judged[i].org
    ensures forall l | 0 <= l < |Ranking(judged)| && l != k :: Ranking(judged)[l].0.org != judged[i].org
  {
    var survivors, ranked := Survivors(judged), Ranking(judged);
    SortKeepsMembers(survivors);
    OnceEachDistinct(judged);
    PermutationStaysDistinct(survivors, ranked);
    forall l | 0 <= l < |ranked| && l != k
      ensures ranked[l].0.org != judged[i].org
    {
      var a := PermutationHas(ranked, survivors, k);
      var b := PermutationHas(ranked, survivors, l);
      var x := SurvivorSource(judged, a);
      var y := SurvivorSource(judged, b);
    }
  }

  lemma OnceEachDistinct(judged: seq<Judgement>)
    requires JudgedOnce(judged)
    ensures forall a, b | 0 <= a < |Survivors(judged)| && 0 <= b < |Survivors(judged)| && a != b ::
              Survivors(judged)[a] != Survivors(judged)[b]
  {
    SurvivorOrgsDistinct(judged);
  }
}
