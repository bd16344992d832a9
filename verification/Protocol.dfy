/**
 The coordinator as a transition system. Each handler is a function from the state, its inputs
 and two clock readings to the next state and the response; a run is a sequence of moments.
 */
module Protocol {
  import opened Wrappers
  import opened Sorting
  import opened Aggregation
  import opened SchemaGate
  import opened Trust
  import opened Attestation
  import opened Store

  /** The environment: cryptography, the JSON library, and configuration. */
  datatype Env = Env(
    crypto: Crypto,
    parse: Bytes -> Option<Model>,
    dump: Model -> Bytes,
    maxModelBytes: nat,
    maxExamples: int)

  /** One request to contribute: who is authenticated, the form fields, and the uploaded file. */
  datatype Upload = Upload(org: string, round: int, payload: Payload, signature: Signature, model: Bytes)

  /** `signed` is the history of what the coordinator has put its signature to. */
  datatype State = State(
    db: Database,
    files: map<Path, Bytes>,
    crl: set<int>,
    inflight: map<nat, Upload>,
    signed: set<Payload>,
    now: int)

  function Initial(start: int): State {
    State(EMPTY, map[], {}, map[], {}, start)
  }

  datatype Response = Done | Refused(code: int) | Served(model: Bytes, payload: Payload, signature: Signature)

  // ---------- Organisation lifecycle ----------

  function HandleEnroll(s: State, org: string, key: Key, serial: int): (State, Response) {
    if CanEnroll(s.db, org) then (s.(db := EnrollOrg(s.db, org, key, serial)), Done) else (s, Refused(409))
  }

  function HandleSetStatus(s: State, org: string, status: OrgStatus): (State, Response) {
    if org in s.db.orgs then (s.(db := SetOrgStatus(s.db, org, status)), Done) else (s, Refused(404))
  }

  /** Rebuilding the revocation list may fail; the loaded list is then the old one. */
  function RegenerateCrl(s: State, succeeds: bool): State {
    if succeeds then s.(crl := RevokedSerials(s.db)) else s
  }

  function HandleRevoke(s: State, org: string, crlSucceeds: bool): (State, Response) {
    if org in s.db.orgs
    then (RegenerateCrl(s.(db := SetOrgStatus(s.db, org, Revoked)), crlSucceeds), Done)
    else (s, Refused(404))
  }

  function HandleLeave(env: Env, s: State, auth: string, org: string, payload: Payload, signature: Signature)
    : (State, Response)
  {
    if auth != org then (s, Refused(403))
    else if org !in s.db.orgs then (s, Refused(404))
    else if s.db.orgs[org].status == Revoked then (s, Refused(409))
    else if !payload.LeaveRequest? || payload.org != org then (s, Refused(400))
    else if signature.NotHex? then (s, Refused(400))
    else if !Verifies(env.crypto, s.db.orgs[org].key, payload, signature) then (s, Refused(403))
    else (s.(db := SetLeaveRequest(s.db, org, Signed(payload, signature))), Done)
  }

  function HandleApprove(env: Env, s: State, org: string, crlSucceeds: bool, now: int): (State, Response) {
    if org !in s.db.orgs then (s, Refused(404))
    else if s.db.orgs[org].status != LeavePending then (s, Refused(409))
    else
      var confirm := RemovalConfirm(org, now);
      var revoked := SetOrgStatus(s.db, org, Revoked);
      var confirmed := SetRemovalConfirm(revoked, org, Signed(confirm, Hex(env.crypto.sign(confirm))));
      (RegenerateCrl(s.(db := confirmed, signed := s.signed + {confirm}), crlSucceeds), Done)
  }

  // ---------- Rounds and contributions ----------

  function Invited(db: Database, targets: set<string>): set<string> {
    set org | org in db.orgs && db.orgs[org].status == Active && (targets == {} || org in targets)
  }

  /** What the operator asks of a round. */
  datatype RoundParams = RoundParams(targets: set<string>, minClients: int, window: int, epsilon: real,
                                     boostRounds: int)

  function HandleStart(s: State, params: RoundParams, now: int): (State, Response) {
    var invited := Invited(s.db, params.targets);
    if |invited| < params.minClients then (s, Refused(422))
    else
      var announcement := RoundAnnouncement(|s.db.rounds|, params.epsilon, params.boostRounds, invited, now);
      (s.(db := StartRound(s.db, params.window, now), signed := s.signed + {announcement}), Done)
  }

  function HandleChallenge(s: State, org: string, round: int, nonce: string, now: int): (State, Response) {
    if !HasRound(s.db, round) then (s, Refused(404))
    else if s.db.rounds[round].status != Running then (s, Refused(409))
    else if org !in s.db.orgs then (s, Refused(403))
    else if nonce in s.db.challenges then (s, Refused(500))  // the primary key forbids a repeated nonce
    else (s.(db := IssueChallenge(s.db, nonce, org, round, now)), Done)
  }

  /** The checks before the upload is read. */
  function Precheck(s: State, u: Upload): Response {
    if !u.payload.Contribution? || u.payload.kind != CONTRIBUTION_KIND then Refused(400)
    else if u.payload.org != u.org then Refused(403)
    else if u.payload.round != u.round then Refused(403)
    else if !HasRound(s.db, u.round) then Refused(404)
    else if s.db.rounds[u.round].status != Running then Refused(409)
    else if HasAccepted(s.db, u.round, u.org) then Refused(409)
    else Done
  }

  function Drift(a: int, b: int): int {
    if a < b then b - a else a - b
  }

  function HashPrefix(d: Digest): string {
    if |d| > 16 then d[..16] else d
  }

  function RowFor(env: Env, u: Upload, accepted: bool, now: int): Row
    requires u.payload.Contribution?
  {
    var hash := env.crypto.digest(u.model);
    Row(u.round, u.org, now, hash, u.payload.numExamples,
        if accepted then Some(UploadFile(u.round, u.org, HashPrefix(hash))) else None,
        u.payload, u.signature, u.payload.challenge, accepted)
  }

  /** The checks after the upload is read, in their order, and the record they lead to. */
  function VerifyAndRecord(env: Env, s: State, u: Upload, check: int, commit: int): (State, Response)
    requires u.payload.Contribution?
  {
    var hash := env.crypto.digest(u.model);
    if |u.model| > env.maxModelBytes then (s, Refused(413))
    else if hash != u.payload.modelHash then (s, Refused(400))
    else if u.payload.submittedAt.None? then (s, Refused(400))
    else if Drift(check, u.payload.submittedAt.value) > 300 then (s, Refused(400))
    else
      var (consumed, error) := ConsumeChallenge(s.db, u.payload.challenge, u.org, u.round, commit);
      if error.Some? then (s, Refused(403))
      else
        var key := PublicKeyOf(consumed, u.org);
        if key.None? then (s.(db := consumed), Refused(403))
        else if u.signature.NotHex? then (s.(db := consumed), Refused(400))
        else if !Verifies(env.crypto, key.value, u.payload, u.signature) then
          (s.(db := RecordContribution(consumed, RowFor(env, u, false, commit))), Refused(403))
        else
          (s.(db := RecordContribution(consumed, RowFor(env, u, true, commit)),
              files := s.files[UploadFile(u.round, u.org, HashPrefix(hash)) := u.model]), Done)
  }

  /** The handler up to the point where it awaits the upload. */
  function HandleBegin(s: State, request: nat, u: Upload): (State, Response) {
    if request in s.inflight then (s, Refused(500))  // request identities are not reused while open
    else if Precheck(s, u).Refused? then (s, Precheck(s, u))
    else (s.(inflight := s.inflight[request := u]), Done)
  }

  /** The handler from there on; other handlers may have run in between. */
  function HandleFinish(env: Env, s: State, request: nat, check: int, commit: int): (State, Response) {
    if request !in s.inflight then (s, Refused(500))
    else
      var u := s.inflight[request];
      var rest := s.(inflight := s.inflight - {request});
      if !u.payload.Contribution? then (rest, Refused(500))
      else VerifyAndRecord(env, rest, u, check, commit)
  }

  /** The handler with nothing in between. */
  function HandleContribute(env: Env, s: State, u: Upload, check: int, commit: int): (State, Response) {
    if Precheck(s, u).Refused? then (s, Precheck(s, u))
    else VerifyAndRecord(env, s, u, check, commit)
  }

  // ---------- Aggregation ----------

  /** Progress of the evaluation loop; `broken` when a surviving upload is not JSON. */
  datatype Judging = Judging(db: Database, judged: seq<Judgement>, broken: bool, notices: set<Payload>)

  const UNKNOWN_TRUST := 50

  /** The trust an accepted upload is listed with, read before the loop. */
  function JoinedTrust(db: Database, org: string): int {
    if org in db.orgs then db.orgs[org].scores.trust else UNKNOWN_TRUST
  }

  function JudgeOne(env: Env, s: State, row: Row, scoring: Scoring, now: int, j: Judging): Judging
    requires row.path.Some?
  {
    var org := row.org;
    if row.path.value !in s.files then j.(judged := j.judged + [Missing(org, JoinedTrust(s.db, org))])
    else
      var e := Evaluate(ScoresOf(j.db, org), scoring, row.numExamples, env.maxExamples);
      var document := env.parse(s.files[row.path.value]);
      Judging(
        SetScores(j.db, org, NextScores(ScoresOf(j.db, org), scoring)),
        j.judged + [if e.accepted && document.Some? then Survived(org, e, document.value) else Distrusted(org, e)],
        j.broken || (e.accepted && document.None?),
        j.notices + {TrustUpdate(org, row.round, e.trust, e.reason, now)})
  }

  predicate AllOnDisk(rows: seq<Row>) {
    forall i | 0 <= i < |rows| :: rows[i].path.Some?
  }

  /** The first n accepted uploads judged in order; `scorings` says how each booster fares. */
  function JudgeFirst(env: Env, s: State, rows: seq<Row>, scorings: nat -> Scoring, now: int, n: nat): (j: Judging)
    requires n <= |rows| && AllOnDisk(rows)
    ensures j.db.rounds == s.db.rounds
  {
    if n == 0 then Judging(s.db, [], false, {})
    else JudgeOne(env, s, rows[n - 1], scorings(n - 1), now, JudgeFirst(env, s, rows, scorings, now, n - 1))
  }

  /** Everything the aggregate handler computes from the evaluated uploads, or the status it fails with. */
  function Combine(j: Judging): Result<(Merged, seq<ResultRow>), int> {
    SortKeepsMembers(Survivors(j.judged));
    if j.broken then Failure(500)
    else if Survivors(j.judged) == [] then Failure(422)
    else
      var ranked := Ranking(j.judged);
      match Merge(Gated(ranked, Canonical(ranked)))
      case Failure(_) => Failure(500)
      case Success(merged) => Success((merged, FlipAll(Rows(j.judged), ranked, Canonical(ranked))))
  }

  function StageMerged(env: Env, s: State, round: int, responded: int, merged: Model, rows: seq<ResultRow>, now: int)
    : State
    requires HasRound(s.db, round)
  {
    var bytes := env.dump(merged);
    var hash := env.crypto.digest(bytes);
    var staged := StageGlobalModel(s.db, round, now + s.db.rounds[round].window, hash, ModelFile(round));
    s.(db := CompleteRound(staged, round, responded, AcceptedRows(rows), hash),
       files := s.files[ModelFile(round) := bytes])
  }

  /** What the aggregate handler refuses before it looks at any upload. */
  function AggregateGuard(s: State, round: int, check: int): Response {
    if !HasRound(s.db, round) then Refused(404)
    else if s.db.rounds[round].status != Running then Refused(409)
    else if s.db.rounds[round].startedAt + s.db.rounds[round].window - check > 0 then Refused(409)
    else if AcceptedFor(s.db.rows, round) == [] then Refused(422)
    else Done
  }

  /** All accepted uploads of a round, judged. */
  function JudgeRound(env: Env, s: State, round: int, scorings: nat -> Scoring, now: int): (j: Judging)
    ensures j.db.rounds == s.db.rounds
  {
    var rows := AcceptedFor(s.db.rows, round);
    AcceptedForMembers(s.db.rows, round);
    JudgeFirst(env, s, rows, scorings, now, |rows|)
  }

  /** Trust changes and their notices are kept even when nothing can be staged. */
  function Conclude(env: Env, s: State, round: int, j: Judging, outcome: Result<(Merged, seq<ResultRow>), int>,
                    now: int)
    : (State, Response)
    requires HasRound(j.db, round)
  {
    var scored := s.(db := j.db, signed := s.signed + j.notices);
    match outcome
    case Failure(code) => (scored, Refused(code))
    case Success((merged, results)) =>
      (StageMerged(env, scored, round, |AcceptedFor(s.db.rows, round)|, merged.model, results, now), Done)
  }

  function HandleAggregate(env: Env, s: State, round: int, scorings: nat -> Scoring, check: int, commit: int)
    : (State, Response)
  {
    if AggregateGuard(s, round, check).Refused? then (s, AggregateGuard(s, round, check))
    else
      var j := JudgeRound(env, s, round, scorings, commit);
      Conclude(env, s, round, j, Combine(j), commit)
  }

  // ---------- Publication ----------

  function HandlePublish(s: State, round: int, check: int, commit: int): (State, Response) {
    StagedForFinds(s.db.versions, round);
    if !HasRound(s.db, round) then (s, Refused(404))
    else
      match StagedFor(s.db.versions, round)
      case None => (s, Refused(409))
      case Some(v) =>
        if s.db.versions[v].stagedUntil - check > 0 then (s, Refused(409))
        else (s.(db := FinishRound(PromoteGlobalModel(s.db, v, commit), round, commit)), Done)
  }

  function HandleRollback(s: State, version: int, now: int): (State, Response) {
    if !(0 <= version < |s.db.versions|) then (s, Refused(404))
    else if s.db.versions[version].stage == Staged then (s, Refused(409))
    else (s.(db := PromoteGlobalModel(s.db, version, now)), Done)
  }

  /** Signs the bytes of a model file for the organisations. */
  function Serve(env: Env, s: State, round: int, path: Path, now: int): (State, Response) {
    if path !in s.files then (s, Refused(404))
    else
      var payload := GlobalModel(round, env.crypto.digest(s.files[path]), AttestedOrgs(s.db, round), now);
      (s.(signed := s.signed + {payload}), Served(s.files[path], payload, Hex(env.crypto.sign(payload))))
  }

  function HandleServeLive(env: Env, s: State, now: int): (State, Response) {
    LiveVersionFinds(s.db.versions);
    match LiveVersion(s.db.versions)
    case None => (s, Refused(404))
    case Some(v) => Serve(env, s, s.db.versions[v].round, s.db.versions[v].path, now)
  }

  function HandleServeRound(env: Env, s: State, round: int, now: int): (State, Response) {
    if !HasRound(s.db, round) then (s, Refused(404))
    else if s.db.rounds[round].status != Completed then (s, Refused(409))
    else Serve(env, s, round, ModelFile(round), now)
  }

  // ---------- Runs ----------

  datatype Event =
    | EnrollEvent(org: string, key: Key, serial: int)
    | BlockEvent(org: string)
    | UnblockEvent(org: string)
    | RevokeEvent(org: string, crlSucceeds: bool)
    | LeaveEvent(auth: string, org: string, payload: Payload, signature: Signature)
    | ApproveEvent(org: string, crlSucceeds: bool)
    | StartEvent(params: RoundParams)
    | ChallengeEvent(org: string, round: int, nonce: string)
    | BeginEvent(request: nat, upload: Upload)
    | FinishEvent(request: nat)
    | ContributeEvent(upload: Upload)
    | AggregateEvent(round: int, scorings: nat -> Scoring)
    | PublishEvent(round: int)
    | RollbackEvent(version: int)
    | ServeLiveEvent
    | ServeRoundEvent(round: int)
    | RestartEvent  // open requests are lost; the database and files are not

  /** An event with the handler's two clock readings: when it checks, and when it commits. */
  datatype Moment = Moment(event: Event, check: int, commit: int)

  function Handle(env: Env, s: State, m: Moment): (State, Response) {
    match m.event
    case EnrollEvent(org, key, serial) => HandleEnroll(s, org, key, serial)
    case BlockEvent(org) => HandleSetStatus(s, org, Blocked)
    case UnblockEvent(org) => HandleSetStatus(s, org, Active)
    case RevokeEvent(org, crlSucceeds) => HandleRevoke(s, org, crlSucceeds)
    case LeaveEvent(auth, org, payload, signature) => HandleLeave(env, s, auth, org, payload, signature)
    case ApproveEvent(org, crlSucceeds) => HandleApprove(env, s, org, crlSucceeds, m.commit)
    case StartEvent(params) => HandleStart(s, params, m.commit)
    case ChallengeEvent(org, round, nonce) => HandleChallenge(s, org, round, nonce, m.commit)
    case BeginEvent(request, upload) => HandleBegin(s, request, upload)
    case FinishEvent(request) => HandleFinish(env, s, request, m.check, m.commit)
    case ContributeEvent(upload) => HandleContribute(env, s, upload, m.check, m.commit)
    case AggregateEvent(round, scorings) => HandleAggregate(env, s, round, scorings, m.check, m.commit)
    case PublishEvent(round) => HandlePublish(s, round, m.check, m.commit)
    case RollbackEvent(version) => HandleRollback(s, version, m.commit)
    case ServeLiveEvent => HandleServeLive(env, s, m.commit)
    case ServeRoundEvent(round) => HandleServeRound(env, s, round, m.commit)
    case RestartEvent => (s.(inflight := map[]), Done)
  }

  function Step(env: Env, s: State, m: Moment): State {
    Handle(env, s, m).0.(now := m.commit)
  }

  /** The clock never runs backwards, within a handler or between two. */
  predicate Timely(s: State, m: Moment) {
    s.now <= m.check <= m.commit
  }

  function Play(env: Env, start: int, run: seq<Moment>): State {
    if run == [] then Initial(start) else Step(env, Play(env, start, run[..|run| - 1]), run[|run| - 1])
  }

  ghost predicate TimelyRun(start: int, run: seq<Moment>) {
    && (run != [] ==> start <= run[0].check)
    && (forall i | 0 <= i < |run| :: run[i].check <= run[i].commit)
    && (forall i | 0 < i < |run| :: run[i - 1].commit <= run[i].check)
  }

  /** Every contribution is handled without another handler running in its middle. */
  ghost predicate AtomicRun(run: seq<Moment>) {
    forall i | 0 <= i < |run| :: !run[i].event.BeginEvent? && !run[i].event.FinishEvent?
  }

  lemma PlayStep(env: Env, start: int, run: seq<Moment>, i: nat)
    requires i < |run|
    ensures Play(env, start, run[..i + 1]) == Step(env, Play(env, start, run[..i]), run[i])
  {
    assert run[..i + 1][..i] == run[..i] && run[..i + 1][i] == run[i];
  }

  lemma PlayIsTimely(env: Env, start: int, run: seq<Moment>, i: nat)
    requires TimelyRun(start, run) && i < |run|
    ensures Timely(Play(env, start, run[..i]), run[i])
  {
    if i > 0 {
      PlayStep(env, start, run, i - 1);
    }
  }

  /** The same from any state on. */
  function PlayFrom(env: Env, s: State, more: seq<Moment>): State
    decreases more
  {
    if more == [] then s else PlayFrom(env, Step(env, s, more[0]), more[1..])
  }

  lemma FirstOfMore<T>(run: seq<T>, more: seq<T>)
    requires more != []
    ensures run + more == run + [more[0]] + more[1..]
  {
  }

  lemma {:induction false} PlayReaches(env: Env, start: int, run: seq<Moment>, more: seq<Moment>, whole: seq<Moment>)
    requires whole == run + more
    ensures Play(env, start, whole) == PlayFrom(env, Play(env, start, run), more)
    decreases more
  {
    if more == [] {
      assert whole == run;
    } else {
      assert whole == run + [more[0]] + more[1..] by { FirstOfMore(run, more); }
      PlayReaches(env, start, run + [more[0]], more[1..], whole);
      assert Play(env, start, run + [more[0]]) == Step(env, Play(env, start, run), more[0]) by {
        PlayMore(env, start, run, more[0]);
      }
    }
  }

  lemma PlayContinues(env: Env, start: int, run: seq<Moment>, more: seq<Moment>)
    ensures Play(env, start, run + more) == PlayFrom(env, Play(env, start, run), more)
  {
    PlayReaches(env, start, run, more, run + more);
  }

  lemma PlayMore(env: Env, start: int, run: seq<Moment>, m: Moment)
    ensures Play(env, start, run + [m]) == Step(env, Play(env, start, run), m)
  {
    assert (run + [m])[..|run|] == run;
  }

  lemma PlaySlice(env: Env, start: int, run: seq<Moment>, i: nat, j: nat)
    requires i <= j <= |run|
    ensures Play(env, start, run[..j]) == PlayFrom(env, Play(env, start, run[..i]), run[i..j])
  {
    PlayContinues(env, start, run[..i], run[i..j]);
    assert run[..i] + run[i..j] == run[..j];
  }
}
