/**
 Concrete runs on which a promise of the coordinator fails, in any environment where organisations'
 own signatures verify. Two uploads reach one round: from two organisations, one after the other, or
 from one organisation whose requests overlap.
 */
module Scenarios {
  import opened Wrappers
  import opened Aggregation
  import opened SchemaGate
  import opened Trust
  import opened Attestation
  import opened Store
  import opened Protocol
  import opened Sorting
  import opened Frames
  import opened ContributionTheorems
  import opened Outcome
  import opened Provenance

  datatype Party = Party(org: string, nonce: string, model: Bytes, examples: int)

  /** The environment, the keys organisations have and how they sign, and the two uploads. */
  datatype Setting = Setting(env: Env, key: string -> Key, sign: string -> Payload -> string,
                             first: Party, second: Party)

  ghost predicate Working(x: Setting) {
    && (forall org, p :: x.env.crypto.verify(x.key(org), p, x.sign(org)(p)))
    && x.first.nonce != x.second.nonce
    && |x.first.model| <= x.env.maxModelBytes && |x.second.model| <= x.env.maxModelBytes
  }

  predicate IsParty(x: Setting, p: Party) {
    p == x.first || p == x.second
  }

  /** What the reference client sends. */
  function UploadOf(x: Setting, p: Party): Upload {
    var (payload, signature) :=
      BuildSignedContribution(x.env.crypto, x.sign(p.org), 0, p.org, p.model, p.examples, p.nonce, 0);
    Upload(p.org, 0, payload, signature, p.model)
  }

  function AcceptedRow(x: Setting, p: Party): Row {
    RowFor(x.env, UploadOf(x, p), true, 0)
  }

  function FileOf(x: Setting, p: Party): Path {
    UploadFile(0, p.org, HashPrefix(x.env.crypto.digest(p.model)))
  }

  function At(e: Event): Moment { Moment(e, 0, 0) }

  const PARAMS := RoundParams({}, 1, 0, 1.0, 10)

  /** Both organisations enrol, which changes nothing the second time if they are one; each gets a challenge. */
  function Opening(x: Setting): seq<Moment> {
    [At(EnrollEvent(x.first.org, x.key(x.first.org), 0)), At(EnrollEvent(x.second.org, x.key(x.second.org), 0)),
     At(StartEvent(PARAMS)),
     At(ChallengeEvent(x.first.org, 0, x.first.nonce)), At(ChallengeEvent(x.second.org, 0, x.second.nonce))]
  }

  function Enrolled(x: Setting, org: string): Org {
    Org(x.key(org), 0, Active, ENROLLED, None, None)
  }

  function Issued(p: Party, consumed: set<string>): Challenge {
    Challenge(p.org, 0, 0, CHALLENGE_TTL, if p.nonce in consumed then Some(0) else None)
  }

  /** The round is running; these challenges are consumed, and these rows, files and requests are there. */
  function During(x: Setting, consumed: set<string>, rows: seq<Row>, files: map<Path, Bytes>,
                  inflight: map<nat, Upload>): State
  {
    State(
      Database(map[x.first.org := Enrolled(x, x.first.org)][x.second.org := Enrolled(x, x.second.org)],
               [Round(0, 0, Running, None, 0, 0, 0, None)],
               map[x.first.nonce := Issued(x.first, consumed)][x.second.nonce := Issued(x.second, consumed)],
               rows, []),
      files, {}, inflight, {RoundAnnouncement(0, 1.0, 10, {x.first.org, x.second.org}, 0)}, 0)
  }

  /** Both uploads are recorded as accepted. */
  function Both(x: Setting): State {
    During(x, {x.first.nonce, x.second.nonce}, [AcceptedRow(x, x.first), AcceptedRow(x, x.second)],
           map[FileOf(x, x.first) := x.first.model][FileOf(x, x.second) := x.second.model], map[])
  }

  // ---------- The steps ----------

  lemma BothEnroll(x: Setting)
    ensures Play(x.env, 0, Opening(x)[..2]).db
         == EMPTY.(orgs := map[x.first.org := Enrolled(x, x.first.org)][x.second.org := Enrolled(x, x.second.org)])
    ensures Play(x.env, 0, Opening(x)[..2]) == Initial(0).(db := Play(x.env, 0, Opening(x)[..2]).db)
  {
    var opening := Opening(x);
    assert opening[..0] == [];
    PlayStep(x.env, 0, opening, 0);
    PlayStep(x.env, 0, opening, 1);
  }

  /** The round is running and nobody has a challenge yet. */
  function Started(x: Setting): State {
    var later := During(x, {}, [], map[], map[]);
    later.(db := later.db.(challenges := map[]))
  }

  lemma StartingStarts(x: Setting, s: State)
    requires s == Initial(0).(db := EMPTY.(orgs := Started(x).db.orgs))
    ensures HandleStart(s, PARAMS, 0).0 == Started(x)
  {
    assert Invited(s.db, {}) == {x.first.org, x.second.org};
  }

  lemma RoundStarts(x: Setting)
    ensures Play(x.env, 0, Opening(x)[..3]) == Started(x)
  {
    BothEnroll(x);
    StartingStarts(x, Play(x.env, 0, Opening(x)[..2]));
    PlayStep(x.env, 0, Opening(x), 2);
  }

  lemma Opens(x: Setting)
    requires Working(x)
    ensures Play(x.env, 0, Opening(x)) == During(x, {}, [], map[], map[])
  {
    RoundStarts(x);
    PlayStep(x.env, 0, Opening(x), 3);
    PlayStep(x.env, 0, Opening(x), 4);
    assert Opening(x)[..5] == Opening(x);
  }

  lemma Spends(x: Setting, p: Party, consumed: set<string>, rows: seq<Row>, files: map<Path, Bytes>,
               inflight: map<nat, Upload>)
    requires Working(x) && IsParty(x, p) && p.nonce !in consumed
    ensures ConsumeChallenge(During(x, consumed, rows, files, inflight).db, p.nonce, p.org, 0, 0)
         == (During(x, consumed + {p.nonce}, rows, files, inflight).db, None)
  {
    var spent := ConsumeChallenge(During(x, consumed, rows, files, inflight).db, p.nonce, p.org, 0, 0).0;
    assert spent.challenges == During(x, consumed + {p.nonce}, rows, files, inflight).db.challenges;
  }

  /** An upload that has got past the await is recorded, whatever rows are there. */
  lemma Records(x: Setting, p: Party, consumed: set<string>, rows: seq<Row>, files: map<Path, Bytes>,
                inflight: map<nat, Upload>)
    requires Working(x) && IsParty(x, p) && p.nonce !in consumed
    ensures VerifyAndRecord(x.env, During(x, consumed, rows, files, inflight), UploadOf(x, p), 0, 0)
         == (During(x, consumed + {p.nonce}, rows + [AcceptedRow(x, p)], files[FileOf(x, p) := p.model], inflight),
             Done)
  {
    var s := During(x, consumed, rows, files, inflight);
    var u := UploadOf(x, p);
    assert x.env.crypto.verify(x.key(p.org), u.payload, x.sign(p.org)(u.payload));
    var spent := During(x, consumed + {p.nonce}, rows, files, inflight).db;
    assert PublicKeyOf(spent, p.org) == Some(x.key(p.org));
    Spends(x, p, consumed, rows, files, inflight);
  }

  lemma Passes(x: Setting, p: Party, consumed: set<string>, rows: seq<Row>, files: map<Path, Bytes>,
               inflight: map<nat, Upload>)
    requires IsParty(x, p) && forall i | 0 <= i < |rows| :: rows[i].org != p.org
    ensures Precheck(During(x, consumed, rows, files, inflight), UploadOf(x, p)) == Done
  {
  }

  lemma Contributes(x: Setting, p: Party, consumed: set<string>, rows: seq<Row>, files: map<Path, Bytes>)
    requires Working(x) && IsParty(x, p) && p.nonce !in consumed
    requires forall i | 0 <= i < |rows| :: rows[i].org != p.org
    ensures Step(x.env, During(x, consumed, rows, files, map[]), At(ContributeEvent(UploadOf(x, p))))
         == During(x, consumed + {p.nonce}, rows + [AcceptedRow(x, p)], files[FileOf(x, p) := p.model], map[])
  {
    Passes(x, p, consumed, rows, files, map[]);
    Records(x, p, consumed, rows, files, map[]);
  }

  lemma Begins(x: Setting, p: Party, inflight: map<nat, Upload>, request: nat)
    requires IsParty(x, p) && request !in inflight
    ensures Step(x.env, During(x, {}, [], map[], inflight), At(BeginEvent(request, UploadOf(x, p))))
         == During(x, {}, [], map[], inflight[request := UploadOf(x, p)])
  {
    Passes(x, p, {}, [], map[], inflight);
  }

  lemma Finishes(x: Setting, p: Party, consumed: set<string>, rows: seq<Row>, files: map<Path, Bytes>,
                 inflight: map<nat, Upload>, request: nat)
    requires Working(x) && IsParty(x, p) && p.nonce !in consumed
    requires request in inflight && inflight[request] == UploadOf(x, p)
    ensures Step(x.env, During(x, consumed, rows, files, inflight), At(FinishEvent(request)))
         == During(x, consumed + {p.nonce}, rows + [AcceptedRow(x, p)], files[FileOf(x, p) := p.model],
                   inflight - {request})
  {
    Records(x, p, consumed, rows, files, inflight - {request});
  }

  // ---------- The two runs ----------

  function InTurn(x: Setting): seq<Moment> {
    Opening(x) + [At(ContributeEvent(UploadOf(x, x.first)))] + [At(ContributeEvent(UploadOf(x, x.second)))]
  }

  function BegunBoth(x: Setting): seq<Moment> {
    Opening(x) + [At(BeginEvent(1, UploadOf(x, x.first)))] + [At(BeginEvent(2, UploadOf(x, x.second)))]
  }

  function Overlapping(x: Setting): seq<Moment> {
    BegunBoth(x) + [At(FinishEvent(1))] + [At(FinishEvent(2))]
  }

  lemma RunsAreTimely(x: Setting)
    ensures TimelyRun(0, InTurn(x)) && AtomicRun(InTurn(x)) && TimelyRun(0, Overlapping(x))
  {
    assert forall i | 0 <= i < |InTurn(x)| :: InTurn(x)[i].check == 0 == InTurn(x)[i].commit;
    assert forall i | 0 <= i < |Overlapping(x)| :: Overlapping(x)[i].check == 0 == Overlapping(x)[i].commit;
  }

  /** What the first upload leaves behind. */
  function OneRow(x: Setting): seq<Row> {
    [] + [AcceptedRow(x, x.first)]
  }

  function OneFile(x: Setting): map<Path, Bytes> {
    map[][FileOf(x, x.first) := x.first.model]
  }

  lemma RecordedBoth(x: Setting)
    ensures During(x, {} + {x.first.nonce} + {x.second.nonce}, OneRow(x) + [AcceptedRow(x, x.second)],
                   OneFile(x)[FileOf(x, x.second) := x.second.model], map[]) == Both(x)
  {
    assert {} + {x.first.nonce} + {x.second.nonce} == {x.first.nonce, x.second.nonce};
    assert OneRow(x) + [AcceptedRow(x, x.second)] == [AcceptedRow(x, x.first), AcceptedRow(x, x.second)];
  }

  /** Two organisations, one after the other. */
  lemma InTurnEnds(x: Setting)
    requires Working(x) && x.first.org != x.second.org
    ensures Play(x.env, 0, InTurn(x)) == Both(x)
  {
    var one := Opening(x) + [At(ContributeEvent(UploadOf(x, x.first)))];
    Opens(x);
    PlayMore(x.env, 0, Opening(x), At(ContributeEvent(UploadOf(x, x.first))));
    Contributes(x, x.first, {}, [], map[]);
    PlayMore(x.env, 0, one, At(ContributeEvent(UploadOf(x, x.second))));
    Contributes(x, x.second, {} + {x.first.nonce}, OneRow(x), OneFile(x));
    RecordedBoth(x);
  }

  function Open(x: Setting): map<nat, Upload> {
    map[][1 := UploadOf(x, x.first)][2 := UploadOf(x, x.second)]
  }

  lemma BothBegin(x: Setting)
    requires Working(x)
    ensures Play(x.env, 0, BegunBoth(x)) == During(x, {}, [], map[], Open(x))
  {
    Opens(x);
    var one, two := At(BeginEvent(1, UploadOf(x, x.first))), At(BeginEvent(2, UploadOf(x, x.second)));
    PlayMore(x.env, 0, Opening(x), one);
    Begins(x, x.first, map[], 1);
    PlayMore(x.env, 0, Opening(x) + [one], two);
    Begins(x, x.second, map[][1 := UploadOf(x, x.first)], 2);
  }

  /** Each request is past its duplicate check before the other records, so it does not matter whose they are. */
  lemma OverlappingEnds(x: Setting)
    requires Working(x)
    ensures Play(x.env, 0, Overlapping(x)) == Both(x)
  {
    var one := BegunBoth(x) + [At(FinishEvent(1))];
    BothBegin(x);
    PlayMore(x.env, 0, BegunBoth(x), At(FinishEvent(1)));
    Finishes(x, x.first, {}, [], map[], Open(x), 1);
    PlayMore(x.env, 0, one, At(FinishEvent(2)));
    Finishes(x, x.second, {} + {x.first.nonce}, OneRow(x), OneFile(x), Open(x) - {1}, 2);
    assert Open(x) - {1} - {2} == map[];
    RecordedBoth(x);
  }

  // ---------- What fails ----------

  /**
   The duplicate check before the await does not bind the record after it: this run ends with two
   accepted rows for one organisation and round.
   */
  lemma InterleavingDuplicates(x: Setting)
    requires Working(x) && x.first.org == x.second.org
    ensures TimelyRun(0, Overlapping(x))
    ensures !UniqueAccepted(Play(x.env, 0, Overlapping(x)).db)
  {
    RunsAreTimely(x);
    OverlappingEnds(x);
    assert Both(x).db.rows[0].accepted && Both(x).db.rows[1].accepted;
  }

  /** And if the two hashes agree in 16 digits, the first row's file is no longer what was attested. */
  lemma CollidingUploadOverwrites(x: Setting)
    requires Working(x) && x.first.org == x.second.org
    requires x.env.crypto.digest(x.first.model) != x.env.crypto.digest(x.second.model)
    requires FileOf(x, x.first) == FileOf(x, x.second)
    ensures TimelyRun(0, Overlapping(x))
    ensures var s := Play(x.env, 0, Overlapping(x));
      && |s.db.rows| == 2
      && var row := s.db.rows[0];
         && row.accepted && row.path.Some? && row.path.value in s.files
         && x.env.crypto.digest(s.files[row.path.value]) != row.modelHash
  {
    RunsAreTimely(x);
    OverlappingEnds(x);
  }

  function Unscored(i: nat): Scoring { NoValidationSet }

  /** Both files are there and hold these documents, and the first upload is the larger. */
  ghost predicate Documents(x: Setting, p: Model, q: Model) {
    && FileOf(x, x.first) != FileOf(x, x.second)
    && x.env.parse(x.first.model) == Some(p) && x.env.parse(x.second.model) == Some(q)
    && 0 < x.second.examples < x.first.examples <= x.env.maxExamples
  }

  function EvaluationOf(x: Setting, p: Party): Evaluation {
    Evaluate(ENROLLED, NoValidationSet, p.examples, x.env.maxExamples)
  }

  function JudgedBoth(x: Setting, p: Model, q: Model): seq<Judgement> {
    [Survived(x.first.org, EvaluationOf(x, x.first), p), Survived(x.second.org, EvaluationOf(x, x.second), q)]
  }

  lemma AcceptedForBoth(x: Setting)
    ensures AcceptedFor(Both(x).db.rows, 0) == [AcceptedRow(x, x.first), AcceptedRow(x, x.second)]
  {
    var a, b := AcceptedRow(x, x.first), AcceptedRow(x, x.second);
    assert [a, b][..1] == [a] && [a][..0] == [];
    assert AcceptedFor([a], 0) == [a];
  }

  /** Full standing stays what it is: judging leaves the database as it was. */
  lemma JudgedInFullStanding(x: Setting, s: State, row: Row, j: Judging)
    requires row.path.Some? && row.path.value in s.files && x.env.parse(s.files[row.path.value]).Some?
    requires row.org in j.db.orgs && j.db.orgs[row.org].scores == ENROLLED
    ensures var e := Evaluate(ENROLLED, NoValidationSet, row.numExamples, x.env.maxExamples);
      var one := JudgeOne(x.env, s, row, NoValidationSet, 0, j);
      && one.db == j.db && one.broken == j.broken
      && one.judged == j.judged + [Survived(row.org, e, x.env.parse(s.files[row.path.value]).value)]
  {
    var orgs := j.db.orgs;
    assert orgs[row.org := orgs[row.org].(scores := ENROLLED)] == orgs;
  }

  lemma BothSurvive(x: Setting, p: Model, q: Model)
    requires Documents(x, p, q)
    ensures var j := JudgeRound(x.env, Both(x), 0, Unscored, 0); j.judged == JudgedBoth(x, p, q) && !j.broken
  {
    var s := Both(x);
    var rows := AcceptedFor(s.db.rows, 0);
    AcceptedForBoth(x);
    AcceptedForMembers(s.db.rows, 0);
    var none := JudgeFirst(x.env, s, rows, Unscored, 0, 0);
    var one := JudgeFirst(x.env, s, rows, Unscored, 0, 1);
    JudgedInFullStanding(x, s, rows[0], none);
    JudgedInFullStanding(x, s, rows[1], one);
    assert one.judged == [JudgedBoth(x, p, q)[0]];
  }

  /** When the two evaluated uploads combine, the handler completes and writes their reported count. */
  lemma BothCombine(x: Setting, p: Model, q: Model)
    requires Documents(x, p, q)
    requires Ranking(JudgedBoth(x, p, q)) != []
    requires var ranked := Ranking(JudgedBoth(x, p, q)); Merge(Gated(ranked, Canonical(ranked))).Success?
    ensures var (t, response) := HandleAggregate(x.env, Both(x), 0, Unscored, 0, 0);
      var ranked := Ranking(JudgedBoth(x, p, q));
      && response == Done && HasRound(t.db, 0) && t.db.rows == Both(x).db.rows
      && t.db.rounds[0].accepted == AcceptedRows(FlipAll(Rows(JudgedBoth(x, p, q)), ranked, Canonical(ranked)))
      && t.files == Both(x).files[ModelFile(0) := x.env.dump(Merge(Gated(ranked, Canonical(ranked))).value.model)]
  {
    AcceptedForBoth(x);
    BothSurvive(x, p, q);
    var j := JudgeRound(x.env, Both(x), 0, Unscored, 0);
    var ranked := Ranking(j.judged);
    SortKeepsMembers(Survivors(j.judged));
    assert Survivors(j.judged) != [] by { assert j.judged[0].Survived?; }
    var merged := Merge(Gated(ranked, Canonical(ranked))).value;
    assert Combine(j) == Success((merged, FlipAll(Rows(j.judged), ranked, Canonical(ranked))));
    assert AggregateGuard(Both(x), 0, 0) == Done;
    JudgeRoundFrame(x.env, Both(x), 0, Unscored, 0);
    ConcludeFrame(x.env, Both(x), 0, j, Combine(j), 0);
  }

  /**
   One organisation with two accepted uploads of different schemas, in a run that the coordinator
   allows: its round is closed with none accepted, and one of its models is what was merged.
   */
  lemma RepeatedOrgIsMergedUnreported(x: Setting, p: Model, q: Model)
    requires Working(x) && x.first.org == x.second.org && Documents(x, p, q)
    requires p.trees != [] && FeatureSchema(p) != FeatureSchema(q)
    ensures TimelyRun(0, Overlapping(x))
    ensures var s := Play(x.env, 0, Overlapping(x));
      var (t, response) := HandleAggregate(x.env, s, 0, Unscored, 0, 0);
      var ranked := Ranking(JudgeRound(x.env, s, 0, Unscored, 0).judged);
      && response == Done && HasRound(t.db, 0) && ranked != []
      && var merged := Merge(Gated(ranked, Canonical(ranked)));
         && merged.Success? && t.files == s.files[ModelFile(0) := x.env.dump(merged.value.model)]
         && t.db.rounds[0].accepted == 0 && merged.value.info.numModels == 1
  {
    RunsAreTimely(x);
    OverlappingEnds(x);
    BothSurvive(x, p, q);
    LargerOutweighs(x.first.examples, x.second.examples, x.env.maxExamples);
    RepeatedOrgBreaksCounts(x.first.org, p, q, EvaluationOf(x, x.first), EvaluationOf(x, x.second));
    BothCombine(x, p, q);
  }

  /** Without any overlap: a surviving model that has no trees is reported as accepted, and not merged. */
  lemma TreelessIsReportedUnmerged(x: Setting, p: Model, q: Model)
    requires Working(x) && x.first.org != x.second.org && Documents(x, p, q)
    requires p.trees != [] && q.trees == [] && FeatureSchema(p) == FeatureSchema(q)
    ensures TimelyRun(0, InTurn(x)) && AtomicRun(InTurn(x))
    ensures var s := Play(x.env, 0, InTurn(x));
      var (t, response) := HandleAggregate(x.env, s, 0, Unscored, 0, 0);
      var ranked := Ranking(JudgeRound(x.env, s, 0, Unscored, 0).judged);
      && response == Done && HasRound(t.db, 0) && ranked != []
      && var merged := Merge(Gated(ranked, Canonical(ranked)));
         && merged.Success? && t.files == s.files[ModelFile(0) := x.env.dump(merged.value.model)]
         && t.db.rounds[0].accepted == 2 && merged.value.info.numModels == 1
  {
    RunsAreTimely(x);
    InTurnEnds(x);
    BothSurvive(x, p, q);
    LargerOutweighs(x.first.examples, x.second.examples, x.env.maxExamples);
    TreelessBreaksCounts(x.first.org, x.second.org, p, q, EvaluationOf(x, x.first), EvaluationOf(x, x.second));
    BothCombine(x, p, q);
  }

  /**
   The organisations named in a model's attestation are those with an accepted upload, merged or not:
   here the second one's model was excluded by the schema gate, and the organisation is named all the same.
   */
  lemma ExcludedIsAttested(x: Setting, p: Model, q: Model)
    requires Working(x) && x.first.org != x.second.org && Documents(x, p, q)
    requires p.trees != [] && FeatureSchema(p) != FeatureSchema(q)
    ensures TimelyRun(0, InTurn(x)) && AtomicRun(InTurn(x))
    ensures var s := Play(x.env, 0, InTurn(x));
      var (t, response) := HandleAggregate(x.env, s, 0, Unscored, 0, 0);
      var ranked := Ranking(JudgeRound(x.env, s, 0, Unscored, 0).judged);
      && response == Done && HasRound(t.db, 0) && ranked != []
      && Gated(ranked, Canonical(ranked))
         == [Aggregation.Contribution.Contribution(Some(p), EvaluationOf(x, x.first).weight)]
      && t.db.rounds[0].accepted == 1
      && AttestedOrgs(t.db, 0) == {x.first.org, x.second.org}
  {
    RunsAreTimely(x);
    InTurnEnds(x);
    BothSurvive(x, p, q);
    LargerOutweighs(x.first.examples, x.second.examples, x.env.maxExamples);
    OtherSchemaIsExcluded(x.first.org, x.second.org, p, q, EvaluationOf(x, x.first), EvaluationOf(x, x.second));
    BothCombine(x, p, q);
    BothAttested(x, HandleAggregate(x.env, Both(x), 0, Unscored, 0, 0).0.db);
  }

  lemma BothAttested(x: Setting, db: Database)
    requires db.rows == Both(x).db.rows
    ensures AttestedOrgs(db, 0) == {x.first.org, x.second.org}
  {
    assert db.rows[0] in db.rows && db.rows[1] in db.rows;
    assert forall r | r in db.rows :: r == db.rows[0] || r == db.rows[1];
  }

  // ---------- A late upload ----------

  /** The first request has recorded its row; the second one waits for its upload. */
  function Waiting(x: Setting): State {
    During(x, {} + {x.first.nonce}, OneRow(x), OneFile(x), Open(x) - {1})
  }

  const AGGREGATE := Moment(AggregateEvent(0, Unscored), 0, 0)

  function Closing(x: Setting): seq<Moment> {
    BegunBoth(x) + [At(FinishEvent(1))] + [AGGREGATE]
  }

  lemma WaitingIsReached(x: Setting)
    requires Working(x)
    ensures Play(x.env, 0, BegunBoth(x) + [At(FinishEvent(1))]) == Waiting(x)
  {
    BothBegin(x);
    PlayMore(x.env, 0, BegunBoth(x), At(FinishEvent(1)));
    Finishes(x, x.first, {}, [], map[], Open(x), 1);
  }

  lemma AcceptedForOne(x: Setting)
    ensures AcceptedFor(Waiting(x).db.rows, 0) == [AcceptedRow(x, x.first)]
  {
    var a := AcceptedRow(x, x.first);
    assert OneRow(x) == [a] && [a][..0] == [];
    assert AcceptedFor([a], 0) == [a];
  }

  lemma FirstSurvives(x: Setting, p: Model)
    requires x.env.parse(x.first.model) == Some(p)
    ensures var j := JudgeRound(x.env, Waiting(x), 0, Unscored, 0);
      j.judged == [Survived(x.first.org, EvaluationOf(x, x.first), p)] && !j.broken
  {
    AcceptedForOne(x);
    OneIsJudged(x, Waiting(x), AcceptedRow(x, x.first));
  }

  lemma OneIsJudged(x: Setting, s: State, row: Row)
    requires AcceptedFor(s.db.rows, 0) == [row] && row.path.Some?
    requires row.path.value in s.files && x.env.parse(s.files[row.path.value]).Some?
    requires row.org in s.db.orgs && s.db.orgs[row.org].scores == ENROLLED
    ensures var j := JudgeRound(x.env, s, 0, Unscored, 0);
      var e := Evaluate(ENROLLED, NoValidationSet, row.numExamples, x.env.maxExamples);
      j.judged == [Survived(row.org, e, x.env.parse(s.files[row.path.value]).value)] && !j.broken
  {
    AcceptedForMembers(s.db.rows, 0);
    var none := JudgeFirst(x.env, s, [row], Unscored, 0, 0);
    assert none == Judging(s.db, [], false, {});
    JudgedInFullStanding(x, s, row, none);
    assert JudgeFirst(x.env, s, [row], Unscored, 0, 1) == JudgeOne(x.env, s, row, NoValidationSet, 0, none);
  }

  lemma FirstCloses(x: Setting, p: Model)
    requires x.env.parse(x.first.model) == Some(p) && p.trees != [] && x.env.maxExamples > 0
    ensures Handle(x.env, Waiting(x), AGGREGATE).1 == Done
  {
    FirstSurvives(x, p);
    AcceptedForOne(x);
    assert AggregateGuard(Waiting(x), 0, 0) == Done;
    OneSurvivorCloses(x.env, Waiting(x), 0, Unscored, 0, 0, x.first.org, EvaluationOf(x, x.first), p);
  }

  /** One surviving upload with trees is enough. */
  lemma OneSurvivorCloses(env: Env, s: State, round: int, scorings: nat -> Scoring, check: int, commit: int,
                          org: string, e: Evaluation, p: Model)
    requires AggregateGuard(s, round, check) == Done && env.maxExamples > 0 && p.trees != []
    requires var j := JudgeRound(env, s, round, scorings, commit); j.judged == [Survived(org, e, p)] && !j.broken
    ensures HandleAggregate(env, s, round, scorings, check, commit).1 == Done
  {
    OneIsRanked(JudgeRound(env, s, round, scorings, commit).judged, org, e, p);
    AggregateOutcome(env, s, round, scorings, check, commit);
  }

  lemma OneIsRanked(judged: seq<Judgement>, org: string, e: Evaluation, p: Model)
    requires judged == [Survived(org, e, p)] && p.trees != []
    ensures Survivors(judged) != [] && Ranking(judged) == [(Survivor(org, p), e.weight)] && Mergeable(Ranking(judged))
  {
    var only := (Survivor(org, p), e.weight);
    var none: Ranked := [only][1..];
    assert Survivors(judged[1..]) == [] && none == [];
    assert Survivors(judged) == [only];
    assert SortDescending(none) == [];
    assert SortDescending([only]) == [only];
    assert Matches(only.0, Canonical([only]));
  }

  /** Completing an aggregation closes the round and does not stop its waiting requests. */
  lemma PassesInClosed(env: Env, s: State, request: nat, u: Upload, aggregate: Moment, finish: Moment)
    requires aggregate.event.AggregateEvent? && Handle(env, s, aggregate).1 == Done
    requires request in s.inflight && s.inflight[request] == u && u.round == aggregate.event.round
    requires finish.event == FinishEvent(request)
    requires PassesAfterAwait(env, s.db, u, finish.check, finish.commit)
    ensures var t := Step(env, s, aggregate); var r := aggregate.event.round;
      HasRound(t.db, r) && t.db.rounds[r].status != Running && LetThrough(env, t, finish, r)
  {
    var e := aggregate.event;
    var t := Step(env, s, aggregate);
    AggregateCloses(env, s, e.round, e.scorings, aggregate.check, aggregate.commit);
    AggregateKeepsRows(env, s, e.round, e.scorings, aggregate.check, aggregate.commit);
    AggregateKeepsOrgs(env, s, e.round, e.scorings, aggregate.check, aggregate.commit);
    assert PassesAfterAwait(env, t.db, u, finish.check, finish.commit) by {
      PassingSurvivesScoring(env, s.db, t.db, u, finish.check, finish.commit);
    }
  }

  /** So a request that finishes next is recorded in the closed round. */
  lemma FinishesInClosed(env: Env, start: int, run: seq<Moment>, s: State, request: nat, u: Upload,
                         aggregate: Moment, finish: Moment)
    requires s == Play(env, start, run)
    requires aggregate.event.AggregateEvent? && Handle(env, s, aggregate).1 == Done
    requires request in s.inflight && s.inflight[request] == u && u.round == aggregate.event.round
    requires finish.event == FinishEvent(request)
    requires PassesAfterAwait(env, s.db, u, finish.check, finish.commit)
    ensures var past, now := Play(env, start, run + [aggregate]).db, Play(env, start, run + [aggregate] + [finish]).db;
      var r := aggregate.event.round;
      && HasRound(past, r) && past.rounds[r].status != Running && ClosedRoundGrows(past, now, r, 1)
  {
    PlayMore(env, start, run, aggregate);
    PlayMore(env, start, run + [aggregate], finish);
    PassesInClosed(env, s, request, u, aggregate, finish);
    ClosedRoundStep(env, Step(env, s, aggregate), finish, aggregate.event.round);
  }

  lemma SecondPasses(x: Setting)
    requires Working(x)
    ensures PassesAfterAwait(x.env, Waiting(x).db, UploadOf(x, x.second), 0, 0)
    ensures 2 in Waiting(x).inflight && Waiting(x).inflight[2] == UploadOf(x, x.second)
  {
    var u := UploadOf(x, x.second);
    assert x.env.crypto.verify(x.key(u.org), u.payload, x.sign(u.org)(u.payload));
  }

  lemma PassingSurvivesScoring(env: Env, a: Database, b: Database, u: Upload, check: int, commit: int)
    requires PassesAfterAwait(env, a, u, check, commit)
    requires b.challenges == a.challenges && SameButScores(a.orgs, b.orgs)
    ensures PassesAfterAwait(env, b, u, check, commit)
  {
  }

  lemma ClosingIsTimely(x: Setting)
    ensures TimelyRun(0, Closing(x) + [At(FinishEvent(2))])
  {
    var run := Closing(x) + [At(FinishEvent(2))];
    assert forall i | 0 <= i < |run| :: run[i].check == 0 == run[i].commit;
  }

  /**
   A round is closed while a request waits for its upload: the request is then recorded as accepted in
   the closed round, whose counters do not know of it.
   */
  lemma LateUploadIsRecorded(x: Setting, p: Model)
    requires Working(x) && x.env.parse(x.first.model) == Some(p) && p.trees != [] && x.env.maxExamples > 0
    ensures TimelyRun(0, Closing(x) + [At(FinishEvent(2))])
    ensures var past, now := Play(x.env, 0, Closing(x)).db, Play(x.env, 0, Closing(x) + [At(FinishEvent(2))]).db;
      && HasRound(past, 0) && past.rounds[0].status != Running && SameCounters(past, now, 0)
      && |AcceptedFor(now.rows, 0)| == |AcceptedFor(past.rows, 0)| + 1
  {
    ClosingIsTimely(x);
    WaitingIsReached(x);
    FirstCloses(x, p);
    SecondPasses(x);
    FinishesInClosed(x.env, 0, BegunBoth(x) + [At(FinishEvent(1))], Waiting(x), 2, UploadOf(x, x.second),
                     AGGREGATE, At(FinishEvent(2)));
  }

  /**
   The late organisation is then attested for the round, though all that was merged is the first one's
   model, and though every upload judged was merged.
   */
  lemma LateUploadIsAttested(x: Setting, p: Model)
    requires Working(x) && x.env.parse(x.first.model) == Some(p) && p.trees != [] && x.env.maxExamples > 0
    requires x.first.org != x.second.org
    ensures TimelyRun(0, Closing(x) + [At(FinishEvent(2))])
    ensures var s := Play(x.env, 0, BegunBoth(x) + [At(FinishEvent(1))]);
      var now := Play(x.env, 0, Closing(x) + [At(FinishEvent(2))]);
      var judged := JudgedBy(x.env, s, AGGREGATE);
      && Aggregates(x.env, s, AGGREGATE) && Ranking(judged) != []
      && var canonical := Canonical(Ranking(judged));
         && AllMerged(judged, canonical) && MergedOrgs(judged, canonical) == {x.first.org}
         && x.second.org in AttestedOrgs(now.db, 0)
  {
    ClosingIsTimely(x);
    WaitingIsReached(x);
    FirstCloses(x, p);
    FirstIsMerged(x, p);
    SecondPasses(x);
    AttestsInClosed(x.env, 0, BegunBoth(x) + [At(FinishEvent(1))], Waiting(x), 2, UploadOf(x, x.second),
                    AGGREGATE, At(FinishEvent(2)));
  }

  lemma AttestsInClosed(env: Env, start: int, run: seq<Moment>, s: State, request: nat, u: Upload,
                        aggregate: Moment, finish: Moment)
    requires s == Play(env, start, run)
    requires aggregate.event.AggregateEvent? && Handle(env, s, aggregate).1 == Done
    requires request in s.inflight && s.inflight[request] == u && u.round == aggregate.event.round
    requires finish.event == FinishEvent(request)
    requires PassesAfterAwait(env, s.db, u, finish.check, finish.commit)
    ensures u.org in AttestedOrgs(Play(env, start, run + [aggregate] + [finish]).db, aggregate.event.round)
  {
    var t, r := Step(env, s, aggregate), aggregate.event.round;
    PlayMore(env, start, run, aggregate);
    PlayMore(env, start, run + [aggregate], finish);
    PassesInClosed(env, s, request, u, aggregate, finish);
    AggregateKeepsRows(env, s, r, aggregate.event.scorings, aggregate.check, aggregate.commit);
    StepAttests(env, t, finish, r);
    LateOrgsOne(env, t, finish, r);
  }

  lemma FirstIsMerged(x: Setting, p: Model)
    requires x.env.parse(x.first.model) == Some(p) && p.trees != []
    ensures var judged := JudgedBy(x.env, Waiting(x), AGGREGATE);
      && Ranking(judged) != []
      && var canonical := Canonical(Ranking(judged));
         AllMerged(judged, canonical) && MergedOrgs(judged, canonical) == {x.first.org}
  {
    FirstSurvives(x, p);
    OneIsMerged(JudgedBy(x.env, Waiting(x), AGGREGATE), x.first.org, EvaluationOf(x, x.first), p);
  }

  lemma OneIsMerged(judged: seq<Judgement>, org: string, e: Evaluation, p: Model)
    requires judged == [Survived(org, e, p)] && p.trees != []
    ensures Ranking(judged) == [(Survivor(org, p), e.weight)]
    ensures AllMerged(judged, Canonical(Ranking(judged))) && MergedOrgs(judged, Canonical(Ranking(judged))) == {org}
  {
    var only := (Survivor(org, p), e.weight);
    OneIsRanked(judged, org, e, p);
    var none: Ranked := [only][1..];
    assert none == [];
    assert MergedSurvivors(none, FeatureSchema(p)) == [];
    assert MergedSurvivors([only], FeatureSchema(p)) == [only];
  }

  // ---------- An uninvited and late upload ----------

  /** A round to which only the first organisation is invited, with an intake window. */
  function Narrow(x: Setting, window: int): RoundParams {
    RoundParams({x.first.org}, 1, window, 1.0, 10)
  }

  /** The second organisation sends its upload at this time. */
  function LateUploadOf(x: Setting, now: int): Upload {
    var (payload, signature) := BuildSignedContribution(
      x.env.crypto, x.sign(x.second.org), 0, x.second.org, x.second.model, x.second.examples, x.second.nonce, now);
    Upload(x.second.org, 0, payload, signature, x.second.model)
  }

  /** It asks for a challenge when the window is over, and contributes. */
  function Uninvited(x: Setting, window: int): seq<Moment> {
    var now := window + 1;
    Opening(x)[..2] + [At(StartEvent(Narrow(x, window)))]
    + [Moment(ChallengeEvent(x.second.org, 0, x.second.nonce), now, now)]
  }

  function Uploading(x: Setting, window: int): Moment {
    Moment(ContributeEvent(LateUploadOf(x, window + 1)), window + 1, window + 1)
  }

  /** The state in which it contributes. */
  function AfterWindow(x: Setting, window: int): State {
    var orgs := map[x.first.org := Enrolled(x, x.first.org)][x.second.org := Enrolled(x, x.second.org)];
    var challenge := Challenge(x.second.org, 0, window + 1, window + 1 + CHALLENGE_TTL, None);
    State(Database(orgs, [Round(0, window, Running, None, 0, 0, 0, None)], map[x.second.nonce := challenge], [], []),
          map[], {}, map[], {RoundAnnouncement(0, 1.0, 10, {x.first.org}, 0)}, window + 1)
  }

  lemma NarrowStarts(x: Setting, s: State, window: int)
    requires x.first.org != x.second.org
    requires s == Initial(0).(db := EMPTY.(orgs := AfterWindow(x, window).db.orgs))
    ensures HandleStart(s, Narrow(x, window), 0).0
         == AfterWindow(x, window).(db := AfterWindow(x, window).db.(challenges := map[]), now := 0)
  {
    assert Invited(s.db, {x.first.org}) == {x.first.org};
  }

  lemma UninvitedReaches(x: Setting, window: int)
    requires x.first.org != x.second.org
    ensures Play(x.env, 0, Uninvited(x, window)) == AfterWindow(x, window)
  {
    var both := Opening(x)[..2];
    var start := At(StartEvent(Narrow(x, window)));
    BothEnroll(x);
    PlayMore(x.env, 0, both, start);
    NarrowStarts(x, Play(x.env, 0, both), window);
    PlayMore(x.env, 0, both + [start],
             Moment(ChallengeEvent(x.second.org, 0, x.second.nonce), window + 1, window + 1));
  }

  lemma UninvitedIsTimely(x: Setting, window: int)
    requires window >= 0
    ensures TimelyRun(0, Uninvited(x, window) + [Uploading(x, window)])
    ensures AtomicRun(Uninvited(x, window) + [Uploading(x, window)])
  {
  }

  /**
   An organisation that no announcement invites contributes after the round's intake window, and its
   upload is accepted: the round is still running, and nothing else is asked.
   */
  lemma UninvitedLateUploadIsAccepted(x: Setting, window: int)
    requires Working(x) && x.first.org != x.second.org && window >= 0
    ensures TimelyRun(0, Uninvited(x, window) + [Uploading(x, window)])
    ensures AtomicRun(Uninvited(x, window) + [Uploading(x, window)])
    ensures var s, m := Play(x.env, 0, Uninvited(x, window)), Uploading(x, window);
      var t := Play(x.env, 0, Uninvited(x, window) + [m]);
      && Handle(x.env, s, m).1 == Done && HasAccepted(t.db, 0, x.second.org)
      && HasRound(s.db, 0) && s.db.rounds[0].startedAt + s.db.rounds[0].window < m.check
      && RoundAnnouncement(0, 1.0, 10, {x.first.org}, 0) in t.signed
      && forall p | p in t.signed && p.RoundAnnouncement? :: x.second.org !in p.invited
  {
    var s, now := AfterWindow(x, window), window + 1;
    UninvitedIsTimely(x, window);
    UninvitedReaches(x, window);
    PlayMore(x.env, 0, Uninvited(x, window), Uploading(x, window));
    HonestContributionIsAccepted(x.env, s, x.sign(x.second.org), x.second.org, 0, x.second.model, x.second.examples,
                                 x.second.nonce, now, now, now);
    ContributeFrame(x.env, s, Uploading(x, window));
  }
}
