/**
 Where a staged model comes from: the step that merged it, the uploads whose documents were merged, and
 the attestations those uploads were accepted on; and when the organisations attested are the merged ones.
 */
module Provenance {
  import opened Wrappers
  import opened Sorting
  import opened Aggregation
  import opened SchemaGate
  import opened Trust
  import opened Attestation
  import opened Store
  import opened Protocol
  import opened Frames
  import opened Lifecycle
  import opened Contributions
  import opened ContributionTheorems
  import opened Distribution
  import opened Outcome

  // ---------- Which uploads are merged ----------

  predicate IsMerged(j: Judgement, canonical: Schema) {
    j.Survived? && FeatureSchema(j.document) == canonical && j.document.trees != []
  }

  /** The survivors whose trees go into the merge, in ranking order. */
  function MergedSurvivors(ranked: Ranked, canonical: Schema): Ranked {
    if ranked == [] then []
    else
      (if Matches(ranked[0].0, canonical) && ranked[0].0.document.trees != [] then [ranked[0]] else [])
      + MergedSurvivors(ranked[1..], canonical)
  }

  function Documents(ranked: Ranked): seq<WeightedModel> {
    seq(|ranked|, i requires 0 <= i < |ranked| => (ranked[i].0.document, ranked[i].1))
  }

  /** These are the models that the merge uses, one for one. */
  lemma {:induction false} MergedAreUsed(ranked: Ranked, canonical: Schema)
    requires Positive(ranked)
    ensures Usable(Gated(ranked, canonical)) == Documents(MergedSurvivors(ranked, canonical))
  {
    if ranked != [] {
      MergedAreUsed(ranked[1..], canonical);
      UsableOfGatedStep(ranked, canonical);
      var rest := MergedSurvivors(ranked[1..], canonical);
      if Matches(ranked[0].0, canonical) && ranked[0].0.document.trees != [] {
        assert Documents([ranked[0]] + rest) == [(ranked[0].0.document, ranked[0].1)] + Documents(rest);
      } else {
        assert [] + rest == rest;
      }
    }
  }

  lemma {:induction false} MergedMembers(ranked: Ranked, canonical: Schema)
    ensures forall p :: p in MergedSurvivors(ranked, canonical)
              <==> p in ranked && Matches(p.0, canonical) && p.0.document.trees != []
  {
    if ranked != [] {
      MergedMembers(ranked[1..], canonical);
      assert ranked == [ranked[0]] + ranked[1..];
    }
  }

  lemma {:induction false} SurvivorMembers(judged: seq<Judgement>)
    ensures forall p :: p in Survivors(judged) <==>
              exists j :: j in judged && j.Survived? && p == (Survivor(j.org, j.document), j.evaluation.weight)
  {
    if judged != [] {
      SurvivorMembers(judged[1..]);
      assert judged == [judged[0]] + judged[1..];
    }
  }

  lemma RankingMembers(judged: seq<Judgement>)
    ensures forall p :: p in Ranking(judged) <==> p in Survivors(judged)
  {
    SortKeepsMembers(Survivors(judged));
    forall p
      ensures p in Ranking(judged) <==> p in Survivors(judged)
    {
      assert p in Ranking(judged) <==> p in multiset(Ranking(judged));
      assert p in Survivors(judged) <==> p in multiset(Survivors(judged));
    }
  }

  function MergedOrgs(judged: seq<Judgement>, canonical: Schema): set<string> {
    set p | p in MergedSurvivors(Ranking(judged), canonical) :: p.0.org
  }

  function JudgedOrgs(judged: seq<Judgement>): set<string> {
    set j | j in judged :: j.org
  }

  /** The judgement behind a merged survivor. */
  lemma MergedSource(judged: seq<Judgement>, canonical: Schema, p: (Survivor, int)) returns (j: Judgement)
    requires p in MergedSurvivors(Ranking(judged), canonical)
    ensures j in judged && IsMerged(j, canonical) && j.org == p.0.org && j.document == p.0.document
  {
    MergedMembers(Ranking(judged), canonical);
    RankingMembers(judged);
    SurvivorMembers(judged);
    j :| j in judged && j.Survived? && p == (Survivor(j.org, j.document), j.evaluation.weight);
  }

  lemma MergedIsListed(judged: seq<Judgement>, canonical: Schema, j: Judgement)
    requires j in judged && IsMerged(j, canonical)
    ensures j.org in MergedOrgs(judged, canonical)
  {
    var p := (Survivor(j.org, j.document), j.evaluation.weight);
    MergedMembers(Ranking(judged), canonical);
    RankingMembers(judged);
    SurvivorMembers(judged);
    assert p in MergedSurvivors(Ranking(judged), canonical);
  }

  /** Every organisation judged has sent an upload that survived, with the canonical schema, and has trees. */
  ghost predicate EveryOrgMerged(judged: seq<Judgement>, canonical: Schema) {
    forall i | 0 <= i < |judged| :: SomeMerged(judged, canonical, judged[i].org)
  }

  ghost predicate SomeMerged(judged: seq<Judgement>, canonical: Schema, org: string) {
    exists k | 0 <= k < |judged| :: judged[k].org == org && IsMerged(judged[k], canonical)
  }

  lemma MergedOrgsMembers(judged: seq<Judgement>, canonical: Schema, org: string)
    ensures org in MergedOrgs(judged, canonical) <==> SomeMerged(judged, canonical, org)
  {
    if org in MergedOrgs(judged, canonical) {
      var p :| p in MergedSurvivors(Ranking(judged), canonical) && p.0.org == org;
      var j := MergedSource(judged, canonical, p);
      var k :| 0 <= k < |judged| && judged[k] == j;
    }
    if k :| 0 <= k < |judged| && judged[k].org == org && IsMerged(judged[k], canonical) {
      MergedIsListed(judged, canonical, judged[k]);
    }
  }

  lemma MergedOrgsAreJudged(judged: seq<Judgement>, canonical: Schema)
    ensures MergedOrgs(judged, canonical) <= JudgedOrgs(judged)
    ensures JudgedOrgs(judged) == MergedOrgs(judged, canonical) <==> EveryOrgMerged(judged, canonical)
  {
    forall org
      ensures org in MergedOrgs(judged, canonical) <==> SomeMerged(judged, canonical, org)
    {
      MergedOrgsMembers(judged, canonical, org);
    }
    assert forall k | 0 <= k < |judged| :: judged[k] in judged && judged[k].org in JudgedOrgs(judged);
    forall org | org in JudgedOrgs(judged)
      ensures exists i :: 0 <= i < |judged| && judged[i].org == org
    {
    }
  }

  ghost predicate AllMerged(judged: seq<Judgement>, canonical: Schema) {
    forall i | 0 <= i < |judged| :: IsMerged(judged[i], canonical)
  }

  ghost predicate JudgedOnce(judged: seq<Judgement>) {
    forall i, j | 0 <= i < j < |judged| :: judged[i].org != judged[j].org
  }

  /** With one upload for each organisation that is every upload. */
  lemma EveryOrgMeansEveryUpload(judged: seq<Judgement>, canonical: Schema)
    requires JudgedOnce(judged)
    ensures EveryOrgMerged(judged, canonical) <==> AllMerged(judged, canonical)
  {
    if EveryOrgMerged(judged, canonical) {
      forall i | 0 <= i < |judged|
        ensures IsMerged(judged[i], canonical)
      {
        assert SomeMerged(judged, canonical, judged[i].org);
      }
    }
    if AllMerged(judged, canonical) {
      forall i | 0 <= i < |judged|
        ensures SomeMerged(judged, canonical, judged[i].org)
      {
        assert IsMerged(judged[i], canonical);
      }
    }
  }

  // ---------- Attested and merged organisations ----------

  lemma ListedOrgs(rows: seq<Row>, round: int)
    requires forall r | r in rows && r.accepted :: r.path.Some?
    ensures (set r | r in rows && r.accepted && r.round == round :: r.org)
         == (set r | r in AcceptedFor(rows, round) :: r.org)
  {
    var list := AcceptedFor(rows, round);
    var at := AcceptedForIsExact(rows, round);
    AcceptedForMembers(rows, round);
    assert forall r | r in list :: r in rows && r.accepted && r.round == round;
    forall r | r in rows && r.accepted && r.round == round
      ensures r in list
    {
      var i :| 0 <= i < |rows| && rows[i] == r;
      assert Listed(rows[i], round);
      var k :| 0 <= k < |at| && at[k] == i;
      assert list[k] == r;
    }
  }

  /** Who is attested for a round is who was judged when it was aggregated. */
  lemma AttestedAreJudged(env: Env, s: State, round: int, scorings: nat -> Scoring, now: int)
    requires RowsOk(s) && env.maxExamples > 0
    ensures AttestedOrgs(s.db, round) == JudgedOrgs(JudgeRound(env, s, round, scorings, now).judged)
  {
    var rows := AcceptedFor(s.db.rows, round);
    var judged := JudgeRound(env, s, round, scorings, now).judged;
    AcceptedForMembers(s.db.rows, round);
    JudgedRows(env, s, rows, scorings, now, |rows|);
    forall r | r in s.db.rows && r.accepted
      ensures r.path.Some?
    {
      var i :| 0 <= i < |s.db.rows| && s.db.rows[i] == r;
      assert RowAttested(s.db.rows[i]);
    }
    ListedOrgs(s.db.rows, round);
    SameOrgs(env, s, rows, judged);
  }

  lemma SameOrgs(env: Env, s: State, rows: seq<Row>, judged: seq<Judgement>)
    requires |judged| == |rows| && forall i | 0 <= i < |rows| :: JudgesRow(env, s, judged[i], rows[i])
    ensures (set r | r in rows :: r.org) == JudgedOrgs(judged)
  {
    forall r | r in rows
      ensures r.org in JudgedOrgs(judged)
    {
      var i :| 0 <= i < |rows| && rows[i] == r;
      assert judged[i] in judged && JudgesRow(env, s, judged[i], rows[i]);
    }
    forall j | j in judged
      ensures exists r :: r in rows && r.org == j.org
    {
      var i :| 0 <= i < |judged| && judged[i] == j;
      assert JudgesRow(env, s, judged[i], rows[i]) && rows[i] in rows;
    }
  }

  /** The organisations of the requests of round r that are let through in `more`, played from state s. */
  ghost function LateOrgs(env: Env, s: State, more: seq<Moment>, r: int): set<string>
    decreases more
  {
    if more == [] then {}
    else
      (if LetThrough(env, s, more[0], r) then {s.inflight[more[0].event.request].org} else {})
      + LateOrgs(env, Step(env, s, more[0]), more[1..], r)
  }

  lemma OneMoreAttested(s: Database, t: Database, row: Row)
    requires t.rows == s.rows + [row]
    ensures forall r :: AttestedOrgs(t, r)
              == AttestedOrgs(s, r) + if row.accepted && row.round == r then {row.org} else {}
  {
    assert forall x | x in t.rows :: x in s.rows || x == row;
    assert forall x | x in s.rows :: x in t.rows;
    assert row in t.rows;
  }

  lemma FinishAttests(env: Env, s: State, m: Moment, r: int)
    requires m.event.FinishEvent?
    ensures AttestedOrgs(Step(env, s, m).db, r) == AttestedOrgs(s.db, r) + LateOrgs(env, s, [m], r)
  {
    var request := m.event.request;
    LateOrgsOne(env, s, m, r);
    if request in s.inflight && s.inflight[request].payload.Contribution? {
      var u, rest := s.inflight[request], s.(inflight := s.inflight - {request});
      var t := VerifyAndRecord(env, rest, u, m.check, m.commit).0;
      VerifyAndRecordEffect(env, rest, u, m.check, m.commit);
      RecordsExactlyWhen(env, rest, u, m.check, m.commit);
      if t.db.rows != s.db.rows {
        OneMoreAttested(s.db, t.db, RowFor(env, u, PassesAfterAwait(env, s.db, u, m.check, m.commit), m.commit));
      }
    }
  }

  lemma LateOrgsOne(env: Env, s: State, m: Moment, r: int)
    ensures LateOrgs(env, s, [m], r)
         == if LetThrough(env, s, m, r) then {s.inflight[m.event.request].org} else {}
  {
    assert [m][1..] == [];
  }

  lemma StepAttests(env: Env, s: State, m: Moment, r: int)
    requires HasRound(s.db, r) && s.db.rounds[r].status != Running
    ensures AttestedOrgs(Step(env, s, m).db, r) == AttestedOrgs(s.db, r) + LateOrgs(env, s, [m], r)
  {
    LateOrgsOne(env, s, m, r);
    if m.event.FinishEvent? {
      FinishAttests(env, s, m, r);
    } else if m.event.ContributeEvent? {
      ContributeSparesClosed(env, s, m.event.upload, m.check, m.commit, r);
    } else if m.event.ChallengeEvent? {
      IssuingFrame(env, s, m);
    } else {
      RowsFrame(env, s, m);
    }
  }

  /** Who is attested for a closed round grows by exactly the organisations let through late. */
  lemma {:induction false} AttestedGrowByLate(env: Env, s: State, more: seq<Moment>, r: int)
    requires HasRound(s.db, r) && s.db.rounds[r].status != Running
    ensures AttestedOrgs(PlayFrom(env, s, more).db, r) == AttestedOrgs(s.db, r) + LateOrgs(env, s, more, r)
    decreases more
  {
    if more != [] {
      StepAttests(env, s, more[0], r);
      LateOrgsOne(env, s, more[0], r);
      ClosedRoundStep(env, s, more[0], r);
      AttestedGrowByLate(env, Step(env, s, more[0]), more[1..], r);
    }
  }

  /** What an aggregation judged, and the schema it merged. */
  function JudgedBy(env: Env, s: State, m: Moment): seq<Judgement>
    requires m.event.AggregateEvent?
  {
    JudgeRound(env, s, m.event.round, m.event.scorings, m.commit).judged
  }

  ghost predicate Aggregates(env: Env, s: State, m: Moment) {
    m.event.AggregateEvent? && Handle(env, s, m).1 == Done
  }

  lemma AggregateAttests(env: Env, s: State, m: Moment)
    requires RowsOk(s) && env.maxExamples > 0 && Aggregates(env, s, m)
    ensures var t, r := Step(env, s, m), m.event.round;
      && HasRound(t.db, r) && t.db.rounds[r].status != Running && Ranking(JudgedBy(env, s, m)) != []
      && AttestedOrgs(t.db, r) == JudgedOrgs(JudgedBy(env, s, m))
  {
    var e := m.event;
    AggregateCloses(env, s, e.round, e.scorings, m.check, m.commit);
    AggregateStagesMerge(env, s, e.round, e.scorings, m.check, m.commit);
    AggregateKeepsRows(env, s, e.round, e.scorings, m.check, m.commit);
    AttestedAreJudged(env, s, e.round, e.scorings, m.commit);
  }

  lemma SplitEquality(judged: set<string>, late: set<string>, merged: set<string>)
    requires merged <= judged
    ensures judged + late == merged <==> judged == merged && late <= merged
  {
  }

  /**
   Under every interleaving, at any time after a round was aggregated: the organisations attested for it
   contain those of the merged models, and are the same exactly if every organisation judged has an upload
   that was merged, and so has every organisation whose request was let through late.
   */
  lemma AttestedAreMergedIff(env: Env, start: int, run: seq<Moment>, m: Moment, more: seq<Moment>)
    requires TimelyRun(start, run) && env.maxExamples > 0 && Aggregates(env, Play(env, start, run), m)
    ensures var s, now := Play(env, start, run), Play(env, start, run + [m] + more);
      var judged, late := JudgedBy(env, s, m), LateOrgs(env, Step(env, s, m), more, m.event.round);
      && Ranking(judged) != []
      && var canonical := Canonical(Ranking(judged));
         && MergedOrgs(judged, canonical) <= AttestedOrgs(now.db, m.event.round)
         && (AttestedOrgs(now.db, m.event.round) == MergedOrgs(judged, canonical)
             <==> EveryOrgMerged(judged, canonical) && late <= MergedOrgs(judged, canonical))
  {
    var s, r := Play(env, start, run), m.event.round;
    var t, judged := Step(env, s, m), JudgedBy(env, s, m);
    ContributionsAlways(env, start, run);
    PlayMore(env, start, run, m);
    PlayContinues(env, start, run + [m], more);
    AggregateAttests(env, s, m);
    AttestedGrowByLate(env, t, more, r);
    var canonical := Canonical(Ranking(judged));
    MergedOrgsAreJudged(judged, canonical);
    SplitEquality(JudgedOrgs(judged), LateOrgs(env, t, more, r), MergedOrgs(judged, canonical));
  }

  /** The same of the attestation that participants are sent, whenever they are sent it. */
  lemma ServedOrgsAreMergedIff(env: Env, start: int, run: seq<Moment>, m: Moment, more: seq<Moment>, serve: Moment)
    requires TimelyRun(start, run) && env.maxExamples > 0 && Aggregates(env, Play(env, start, run), m)
    requires serve.event.ServeLiveEvent? || serve.event.ServeRoundEvent?
    requires Handle(env, Play(env, start, run + [m] + more), serve).1.Served?
    requires Handle(env, Play(env, start, run + [m] + more), serve).1.payload.GlobalModel?
    requires Handle(env, Play(env, start, run + [m] + more), serve).1.payload.round == m.event.round
    ensures var s, served := Play(env, start, run), Handle(env, Play(env, start, run + [m] + more), serve).1;
      var judged, late := JudgedBy(env, s, m), LateOrgs(env, Step(env, s, m), more, m.event.round);
      && Ranking(judged) != []
      && var merged := MergedOrgs(judged, Canonical(Ranking(judged)));
         && merged <= served.payload.acceptedOrgs
         && (served.payload.acceptedOrgs == merged
             <==> EveryOrgMerged(judged, Canonical(Ranking(judged))) && late <= merged)
  {
    AttestedAreMergedIff(env, start, run, m, more);
    ServingSigns(env, Play(env, start, run + [m] + more), serve);
  }

  lemma {:induction false} NoneLateWhenAtomic(env: Env, s: State, more: seq<Moment>, r: int)
    requires AtomicRun(more)
    ensures LateOrgs(env, s, more, r) == {}
    decreases more
  {
    if more != [] {
      NoneLateWhenAtomic(env, Step(env, s, more[0]), more[1..], r);
    }
  }

  /**
   With atomic contributions they are the same exactly if every upload judged survived, with the canonical
   schema, and has trees; and that is settled when the round is aggregated.
   */
  lemma AtomicAttestedAreMergedIff(env: Env, start: int, run: seq<Moment>, m: Moment, more: seq<Moment>)
    requires TimelyRun(start, run) && AtomicRun(run) && AtomicRun(more)
    requires env.maxExamples > 0 && Aggregates(env, Play(env, start, run), m)
    ensures var s, now := Play(env, start, run), Play(env, start, run + [m] + more);
      var judged := JudgedBy(env, s, m);
      && Ranking(judged) != []
      && var canonical := Canonical(Ranking(judged));
         AttestedOrgs(now.db, m.event.round) == MergedOrgs(judged, canonical) <==> AllMerged(judged, canonical)
  {
    var s := Play(env, start, run);
    AttestedAreMergedIff(env, start, run, m, more);
    NoneLateWhenAtomic(env, Step(env, s, m), more, m.event.round);
    AtomicAlways(env, start, run);
    UniqueMeansJudgedOnce(env, s, m.event.round, m.event.scorings, m.commit);
    EveryOrgMeansEveryUpload(JudgedBy(env, s, m), Canonical(Ranking(JudgedBy(env, s, m))));
  }

  lemma UniqueMeansJudgedOnce(env: Env, s: State, round: int, scorings: nat -> Scoring, now: int)
    requires UniqueAccepted(s.db) && env.maxExamples > 0
    ensures JudgedOnce(JudgeRound(env, s, round, scorings, now).judged)
  {
    var rows := AcceptedFor(s.db.rows, round);
    AcceptedForMembers(s.db.rows, round);
    JudgedRows(env, s, rows, scorings, now, |rows|);
    AcceptedForDistinct(s.db.rows, round);
    var judged := JudgeRound(env, s, round, scorings, now).judged;
    forall i, j | 0 <= i < j < |judged|
      ensures judged[i].org != judged[j].org
    {
      assert JudgesRow(env, s, judged[i], rows[i]) && JudgesRow(env, s, judged[j], rows[j]);
    }
  }

  // ---------- From a version back to the attestations ----------

  /** In state s this step stages the merge of the gated uploads of its round, and `bytes` is that merge. */
  ghost predicate StagesMerge(env: Env, s: State, m: Moment, bytes: Bytes) {
    && m.event.AggregateEvent? && Handle(env, s, m).1 == Done
    && var ranked := Ranking(JudgeRound(env, s, m.event.round, m.event.scorings, m.commit).judged);
       && ranked != []
       && var merged := Merge(Gated(ranked, Canonical(ranked)));
          merged.Success? && bytes == env.dump(merged.value.model)
  }

  /** No step changes the file of a version that is there already. */
  lemma VersionFilesStay(env: Env, s: State, m: Moment, v: nat)
    requires LifecycleOk(env, s) && v < |s.db.versions|
    ensures var p, t := s.db.versions[v].path, Step(env, s, m);
      && v < |t.db.versions| && t.db.versions[v].path == p && t.db.versions[v].round == s.db.versions[v].round
      && p in s.files && p in t.files && t.files[p] == s.files[p]
  {
    StepMovesVersions(env, s, m);
    assert VersionProgress(s.db.versions[v], Step(env, s, m).db.versions[v]);
    if !TouchesLifecycle(m.event) {
      LifecycleFrame(env, s, m);
    } else if m.event.AggregateEvent? {
      AggregateSparesVersion(env, s, m.event.round, m.event.scorings, m.check, m.commit, v);
    } else {
      RoundEventFrame(env, s, m);
    }
  }

  lemma AggregateSparesVersion(env: Env, s: State, round: int, scorings: nat -> Scoring, check: int, commit: int,
                               v: nat)
    requires LifecycleOk(env, s) && v < |s.db.versions|
    ensures var p, t := s.db.versions[v].path, HandleAggregate(env, s, round, scorings, check, commit).0;
      p in t.files && t.files[p] == s.files[p]
  {
    var bytes := AggregateFrame(env, s, round, scorings, check, commit);
  }

  /** A step adds a version only by completing an aggregation. */
  lemma NewVersionIsMerge(env: Env, s: State, m: Moment, v: nat)
    requires |s.db.versions| <= v < |Step(env, s, m).db.versions|
    ensures var t := Step(env, s, m);
      && v == |s.db.versions| && m.event.AggregateEvent?
      && t.db.versions[v].round == m.event.round && t.db.versions[v].path == ModelFile(m.event.round)
      && ModelFile(m.event.round) in t.files && StagesMerge(env, s, m, t.files[ModelFile(m.event.round)])
  {
    if !TouchesLifecycle(m.event) {
      LifecycleFrame(env, s, m);
    } else if m.event.AggregateEvent? {
      NewVersionOfAggregate(env, s, m.event.round, m.event.scorings, m.check, m.commit, v);
    } else {
      RoundsAddNoVersion(env, s, m);
    }
  }

  lemma NewVersionOfAggregate(env: Env, s: State, round: int, scorings: nat -> Scoring, check: int, commit: int, v: nat)
    requires |s.db.versions| <= v < |HandleAggregate(env, s, round, scorings, check, commit).0.db.versions|
    ensures var (t, response) := HandleAggregate(env, s, round, scorings, check, commit);
      && v == |s.db.versions| && response == Done
      && t.db.versions[v].round == round && t.db.versions[v].path == ModelFile(round)
      && ModelFile(round) in t.files
      && var ranked := Ranking(JudgeRound(env, s, round, scorings, commit).judged);
         && ranked != []
         && var merged := Merge(Gated(ranked, Canonical(ranked)));
            merged.Success? && t.files[ModelFile(round)] == env.dump(merged.value.model)
  {
    var bytes := AggregateFrame(env, s, round, scorings, check, commit);
    if HandleAggregate(env, s, round, scorings, check, commit).1 == Done {
      AggregateStagesMerge(env, s, round, scorings, check, commit);
    }
  }

  lemma RoundsAddNoVersion(env: Env, s: State, m: Moment)
    requires MovesRounds(m.event)
    ensures |Step(env, s, m).db.versions| == |s.db.versions|
  {
    match m.event
    case StartEvent(_) =>
    case PublishEvent(_) =>
    case RollbackEvent(_) =>
  }

  /** Every version of a run has the step that staged it, and its file is to this day the merge of that step. */
  lemma {:induction false} VersionIsMerge(env: Env, start: int, run: seq<Moment>, v: nat) returns (k: nat)
    requires TimelyRun(start, run) && v < |Play(env, start, run).db.versions|
    ensures k < |run|
    ensures var s, now := Play(env, start, run[..k]), Play(env, start, run);
      && |s.db.versions| == v && run[k].event.AggregateEvent?
      && now.db.versions[v].round == run[k].event.round
      && now.db.versions[v].path in now.files
      && StagesMerge(env, s, run[k], now.files[now.db.versions[v].path])
  {
    var n := |run| - 1;
    var s := Play(env, start, run[..n]);
    if v < |s.db.versions| {
      LifecycleAlways(env, start, run[..n]);
      VersionFilesStay(env, s, run[n], v);
      k := VersionIsMerge(env, start, run[..n], v);
      assert run[..n][..k] == run[..k] && run[..n][k] == run[k];
    } else {
      NewVersionIsMerge(env, s, run[n], v);
      k := n;
    }
  }

  /** Row r of the run is where the merged document p comes from, and moment i is where that row was accepted. */
  ghost predicate AttestedSource(env: Env, start: int, run: seq<Moment>, round: int, p: Survivor, r: nat, i: nat) {
    var s := Play(env, start, run);
    && r < |s.db.rows| && i < |run|
    && var row := s.db.rows[r];
       && row.accepted && row.round == round && row.org == p.org
       && FileMatches(env, s, row) && env.parse(s.files[row.path.value]) == Some(p.document)
       && |Play(env, start, run[..i]).db.rows| == r && Evidence(env, Play(env, start, run[..i]), row)
  }

  /**
   Under every interleaving, what was merged was parsed from bytes that its organisation attested for the
   round while it was active: those of the last upload filed under the name.
   */
  lemma MergedDocumentIsAttested(env: Env, start: int, run: seq<Moment>, round: int, scorings: nat -> Scoring,
                                 now: int, canonical: Schema, p: (Survivor, int)) returns (r: nat, i: nat)
    requires TimelyRun(start, run) && env.maxExamples > 0
    requires var judged := JudgeRound(env, Play(env, start, run), round, scorings, now).judged;
      p in MergedSurvivors(Ranking(judged), canonical)
    ensures AttestedSource(env, start, run, round, p.0, r, i)
  {
    var k := SurvivorRow(env, Play(env, start, run), round, scorings, now, canonical, p);
    r := StoredBytesAreAttested(env, start, run, k);
    i := AcceptedRowHasEvidence(env, start, run, r);
  }

  lemma SurvivorRow(env: Env, s: State, round: int, scorings: nat -> Scoring, now: int, canonical: Schema,
                    p: (Survivor, int)) returns (r: nat)
    requires env.maxExamples > 0
    requires p in MergedSurvivors(Ranking(JudgeRound(env, s, round, scorings, now).judged), canonical)
    ensures r < |s.db.rows|
    ensures var row := s.db.rows[r];
      && row.accepted && row.round == round && row.org == p.0.org
      && row.path.Some? && row.path.value in s.files
      && env.parse(s.files[row.path.value]) == Some(p.0.document)
  {
    var rows := AcceptedFor(s.db.rows, round);
    var judged := JudgeRound(env, s, round, scorings, now).judged;
    AcceptedForMembers(s.db.rows, round);
    JudgedRows(env, s, rows, scorings, now, |rows|);
    var j := MergedSource(judged, canonical, p);
    var k :| 0 <= k < |judged| && judged[k] == j;
    assert JudgesRow(env, s, judged[k], rows[k]) && rows[k] in s.db.rows;
    r :| 0 <= r < |s.db.rows| && s.db.rows[r] == rows[k];
  }

  /**
   Provenance of every version, staged or published: its file is the merge made at moment k, and each
   document merged there was parsed from a stored upload with an attestation behind it.
   */
  lemma VersionProvenance(env: Env, start: int, run: seq<Moment>, v: nat) returns (k: nat)
    requires TimelyRun(start, run) && env.maxExamples > 0
    requires v < |Play(env, start, run).db.versions|
    ensures k < |run| && run[k].event.AggregateEvent?
    ensures var s, now, e := Play(env, start, run[..k]), Play(env, start, run), run[k].event;
      && now.db.versions[v].round == e.round && now.db.versions[v].path in now.files
      && StagesMerge(env, s, run[k], now.files[now.db.versions[v].path])
      && var ranked := Ranking(JudgeRound(env, s, e.round, e.scorings, run[k].commit).judged);
         && Usable(Gated(ranked, Canonical(ranked))) == Documents(MergedSurvivors(ranked, Canonical(ranked)))
         && forall p | p in MergedSurvivors(ranked, Canonical(ranked)) ::
              exists r: nat, i: nat :: AttestedSource(env, start, run[..k], e.round, p.0, r, i)
  {
    k := VersionIsMerge(env, start, run, v);
    var s, e := Play(env, start, run[..k]), run[k].event;
    var judged := JudgeRound(env, s, e.round, e.scorings, run[k].commit).judged;
    var canonical := Canonical(Ranking(judged));
    JudgedArePositive(env, s, e.round, e.scorings, run[k].commit);
    MergedAreUsed(Ranking(judged), canonical);
    forall p | p in MergedSurvivors(Ranking(judged), canonical)
      ensures exists r: nat, i: nat :: AttestedSource(env, start, run[..k], e.round, p.0, r, i)
    {
      var r, i := MergedDocumentIsAttested(env, start, run[..k], e.round, e.scorings, run[k].commit, canonical, p);
    }
  }

  lemma JudgedArePositive(env: Env, s: State, round: int, scorings: nat -> Scoring, now: int)
    requires env.maxExamples > 0
    ensures Positive(Ranking(JudgeRound(env, s, round, scorings, now).judged))
  {
    var rows := AcceptedFor(s.db.rows, round);
    AcceptedForMembers(s.db.rows, round);
    JudgedRows(env, s, rows, scorings, now, |rows|);
    RankingIsPositive(JudgeRound(env, s, round, scorings, now).judged);
  }
}
