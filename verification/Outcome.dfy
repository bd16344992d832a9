/**
 The aggregation handler as a whole: when it succeeds, when it is refused, and that the numbers it
 writes to the round are the numbers of what it merged.
 */
module Outcome {
  import opened Wrappers
  import opened Sorting
  import opened Aggregation
  import opened SchemaGate
  import opened Trust
  import opened Store
  import opened Protocol
  import opened Frames
  import opened ContributionTheorems

  /** A survivor weighs something and stands above the floor. */
  ghost predicate InGoodStanding(j: Judgement) {
    j.Survived? ==> j.evaluation.weight > 0 && j.evaluation.trust >= MIN_TRUST + 2
  }

  /** The judgement of one upload: of the organisation that sent it and, if it survived, of the file it is stored in. */
  ghost predicate JudgesRow(env: Env, s: State, j: Judgement, row: Row) {
    && j.org == row.org
    && (j.Survived? ==>
          row.path.Some? && row.path.value in s.files && env.parse(s.files[row.path.value]) == Some(j.document))
  }

  lemma JudgedOne(env: Env, s: State, row: Row, scoring: Scoring, now: int, j: Judging) returns (one: Judgement)
    requires row.path.Some? && env.maxExamples > 0
    ensures JudgeOne(env, s, row, scoring, now, j).judged == j.judged + [one]
    ensures JudgesRow(env, s, one, row) && InGoodStanding(one)
  {
    var after := JudgeOne(env, s, row, scoring, now, j).judged;
    one := after[|after| - 1];
    var scores := ScoresOf(j.db, row.org);
    if Evaluate(scores, scoring, row.numExamples, env.maxExamples).accepted {
      AcceptedWeight(scores, scoring, row.numExamples, env.maxExamples);
    }
  }

  /** Judgements come in the order of the uploads and judge their files, and every survivor is in good standing. */
  lemma {:induction false} JudgedRows(env: Env, s: State, rows: seq<Row>, scorings: nat -> Scoring, now: int, n: nat)
    requires n <= |rows| && AllOnDisk(rows) && env.maxExamples > 0
    ensures var judged := JudgeFirst(env, s, rows, scorings, now, n).judged;
      && |judged| == n && PositiveWeights(judged)
      && forall i | 0 <= i < n :: JudgesRow(env, s, judged[i], rows[i]) && InGoodStanding(judged[i])
  {
    if n > 0 {
      var before := JudgeFirst(env, s, rows, scorings, now, n - 1);
      JudgedRows(env, s, rows, scorings, now, n - 1);
      var one := JudgedOne(env, s, rows[n - 1], scorings(n - 1), now, before);
      assert JudgeFirst(env, s, rows, scorings, now, n).judged == before.judged + [one];
    }
  }

  /** Some survivor of the canonical schema has trees. */
  ghost predicate Mergeable(ranked: Ranked)
    requires ranked != []
  {
    exists i | 0 <= i < |ranked| :: Matches(ranked[i].0, Canonical(ranked)) && ranked[i].0.document.trees != []
  }

  lemma {:induction false} GatedUsableIff(ranked: Ranked, canonical: Schema)
    requires Positive(ranked)
    ensures Usable(Gated(ranked, canonical)) != []
      <==> exists i | 0 <= i < |ranked| :: Matches(ranked[i].0, canonical) && ranked[i].0.document.trees != []
  {
    if ranked != [] {
      UsableOfGatedStep(ranked, canonical);
      GatedUsableIff(ranked[1..], canonical);
      assert forall i | 1 <= i < |ranked| :: ranked[i] == ranked[1..][i - 1];
    }
  }

  lemma RankingIsPositive(judged: seq<Judgement>)
    requires PositiveWeights(judged)
    ensures Positive(Ranking(judged)) && |Ranking(judged)| == |Survivors(judged)|
  {
    SurvivorsArePositive(judged);
    SortKeepsPositive(Survivors(judged));
    SortKeepsMembers(Survivors(judged));
  }

  /** The three ways in which the evaluated uploads can combine; a schema mismatch is not among them. */
  lemma CombineOutcome(j: Judging)
    requires PositiveWeights(j.judged)
    ensures |Ranking(j.judged)| == |Survivors(j.judged)|
    ensures Combine(j) == Failure(422) <==> !j.broken && Survivors(j.judged) == []
    ensures Combine(j).Success? <==> !j.broken && Survivors(j.judged) != [] && Mergeable(Ranking(j.judged))
    ensures Combine(j).Failure? ==> Combine(j).error == 422 || Combine(j).error == 500
  {
    RankingIsPositive(j.judged);
    if !j.broken && Survivors(j.judged) != [] {
      var ranked := Ranking(j.judged);
      GateSilencesMismatch(ranked, Canonical(ranked));
      GatedUsableIff(ranked, Canonical(ranked));
    }
  }

  /** Exactly when an aggregation that may start is completed, and exactly when it is refused for want of survivors. */
  lemma AggregateOutcome(env: Env, s: State, round: int, scorings: nat -> Scoring, check: int, commit: int)
    requires env.maxExamples > 0 && AggregateGuard(s, round, check) == Done
    ensures var j := JudgeRound(env, s, round, scorings, commit);
      var (t, response) := HandleAggregate(env, s, round, scorings, check, commit);
      && |Ranking(j.judged)| == |Survivors(j.judged)|
      && (response == Done <==> !j.broken && Survivors(j.judged) != [] && Mergeable(Ranking(j.judged)))
      && (response == Refused(422) <==> !j.broken && Survivors(j.judged) == [])
      && (response.Refused? ==> t.db.rounds == s.db.rounds && t.db.versions == s.db.versions && t.files == s.files)
  {
    var rows := AcceptedFor(s.db.rows, round);
    AcceptedForMembers(s.db.rows, round);
    JudgedRows(env, s, rows, scorings, commit, |rows|);
    CombineOutcome(JudgeRound(env, s, round, scorings, commit));
    var bytes := AggregateFrame(env, s, round, scorings, check, commit);
  }

  /** What a completed aggregation stages is the merge of the gated survivors, and nothing else is written to disk. */
  lemma AggregateStagesMerge(env: Env, s: State, round: int, scorings: nat -> Scoring, check: int, commit: int)
    requires HandleAggregate(env, s, round, scorings, check, commit).1 == Done
    ensures var t := HandleAggregate(env, s, round, scorings, check, commit).0;
      var ranked := Ranking(JudgeRound(env, s, round, scorings, commit).judged);
      && ranked != []
      && var merged := Merge(Gated(ranked, Canonical(ranked)));
         && merged.Success? && t.files == s.files[ModelFile(round) := env.dump(merged.value.model)]
  {
    SortKeepsMembers(Survivors(JudgeRound(env, s, round, scorings, commit).judged));
  }

  lemma AggregateCloses(env: Env, s: State, round: int, scorings: nat -> Scoring, check: int, commit: int)
    requires HandleAggregate(env, s, round, scorings, check, commit).1 == Done
    ensures var t := HandleAggregate(env, s, round, scorings, check, commit).0;
      HasRound(t.db, round) && t.db.rounds[round].status != Running
  {
    var bytes := AggregateFrame(env, s, round, scorings, check, commit);
  }

  /**
   Whatever state it starts in, a completed aggregation writes to its round the number of models it merged
   exactly if as many merged models are shadowed by an excluded one as accepted ones have no trees.
   */
  lemma AcceptedCountIsMergedIff(env: Env, s: State, round: int, scorings: nat -> Scoring, check: int, commit: int)
    requires env.maxExamples > 0 && HandleAggregate(env, s, round, scorings, check, commit).1 == Done
    ensures var t := HandleAggregate(env, s, round, scorings, check, commit).0;
      var ranked := Ranking(JudgeRound(env, s, round, scorings, commit).judged);
      && ranked != [] && HasRound(t.db, round)
      && var canonical := Canonical(ranked);
         var merged := Merge(Gated(ranked, canonical));
         && merged.Success?
         && (t.db.rounds[round].accepted == merged.value.info.numModels
             <==> Shadowed(ranked, canonical, Excluded(ranked, canonical)) == Treeless(ranked, canonical))
  {
    var rows := AcceptedFor(s.db.rows, round);
    var j := JudgeRound(env, s, round, scorings, commit);
    AcceptedForMembers(s.db.rows, round);
    JudgedRows(env, s, rows, scorings, commit, |rows|);
    AggregateStagesMerge(env, s, round, scorings, check, commit);
    CombineOutcome(j);
    CountsAgreeIff(j.judged);
  }

  lemma {:induction false} AcceptedForDistinct(rows: seq<Row>, round: int)
    requires forall i, j | 0 <= i < j < |rows| && rows[i].accepted && rows[j].accepted ::
               !(rows[i].round == rows[j].round && rows[i].org == rows[j].org)
    ensures forall k, l | 0 <= k < l < |AcceptedFor(rows, round)| ::
              AcceptedFor(rows, round)[k].org != AcceptedFor(rows, round)[l].org
  {
    if rows != [] {
      var n := |rows| - 1;
      AcceptedForDistinct(rows[..n], round);
      AcceptedForMembers(rows[..n], round);
      assert forall r | r in rows[..n] :: exists i :: 0 <= i < n && rows[i] == r;
    }
  }

  /**
   After an atomic run, a completed aggregation of models that all have trees writes to its round
   exactly the number of models it merged, and stages exactly their merge.
   */
  lemma AcceptedCountIsMerged(env: Env, start: int, run: seq<Moment>, round: int, scorings: nat -> Scoring,
                              check: int, commit: int)
    requires TimelyRun(start, run) && AtomicRun(run) && env.maxExamples > 0
    requires var s := Play(env, start, run);
      && HandleAggregate(env, s, round, scorings, check, commit).1 == Done
      && AllHaveTrees(JudgeRound(env, s, round, scorings, commit).judged)
    ensures var s := Play(env, start, run);
      var t := HandleAggregate(env, s, round, scorings, check, commit).0;
      var ranked := Ranking(JudgeRound(env, s, round, scorings, commit).judged);
      && ranked != [] && HasRound(t.db, round)
      && var merged := Merge(Gated(ranked, Canonical(ranked)));
         && merged.Success?
         && t.db.rounds[round].accepted == merged.value.info.numModels
         && t.files == s.files[ModelFile(round) := env.dump(merged.value.model)]
  {
    var s := Play(env, start, run);
    var rows := AcceptedFor(s.db.rows, round);
    AcceptedForMembers(s.db.rows, round);
    JudgedRows(env, s, rows, scorings, commit, |rows|);
    AtomicAlways(env, start, run);
    AcceptedForDistinct(s.db.rows, round);
    var j := JudgeRound(env, s, round, scorings, commit);
    CombineOutcome(j);
    CountsAgree(j.judged);
  }
}
