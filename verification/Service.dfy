/**
 The coordinator as it is programmed: a store whose methods update table fields, a trust manager
 that reads and writes scores through it, and handlers that call both. Each handler is proved
 to perform the transition of the same name in Protocol.
 */
module Service {
  import opened Wrappers
  import opened Aggregation
  import opened SchemaGate
  import opened Trust
  import opened Attestation
  import opened Store
  import opened Protocol
  import opened Frames
  import AggregationInPlace

  class CoordinatorStore {
    var orgs: map<string, Org>
    var rounds: seq<Round>
    var challenges: map<string, Challenge>
    var rows: seq<Row>
    var versions: seq<Version>

    function Contents(): Database
      reads this
    {
      Database(orgs, rounds, challenges, rows, versions)
    }

    constructor ()
      ensures Contents() == EMPTY
    {
      orgs, rounds, challenges, rows, versions := map[], [], map[], [], [];
    }

    /** Refuses an organisation that is enrolled and not revoked. */
    method EnrollOrg(org: string, key: Key, serial: int) returns (enrolled: bool)
      modifies this
      ensures enrolled == CanEnroll(old(Contents()), org)
      ensures Contents() == if enrolled then Store.EnrollOrg(old(Contents()), org, key, serial) else old(Contents())
    {
      if org in orgs && orgs[org].status != Revoked {
        return false;
      }
      orgs := orgs[org := Org(key, serial, Active, ENROLLED, None, None)];
      return true;
    }

    method SetOrgStatus(org: string, status: OrgStatus)
      modifies `orgs
      ensures Contents() == Store.SetOrgStatus(old(Contents()), org, status)
    {
      if org in orgs {
        orgs := orgs[org := orgs[org].(status := status)];
      }
    }

    method SetLeaveRequest(org: string, request: Signed)
      modifies `orgs
      ensures Contents() == Store.SetLeaveRequest(old(Contents()), org, request)
    {
      if org in orgs {
        orgs := orgs[org := orgs[org].(status := LeavePending, leave := Some(request))];
      }
    }

    method SetRemovalConfirm(org: string, confirmation: Signed)
      modifies `orgs
      ensures Contents() == Store.SetRemovalConfirm(old(Contents()), org, confirmation)
    {
      if org in orgs {
        orgs := orgs[org := orgs[org].(removal := Some(confirmation))];
      }
    }

    method UpdateOrgTrust(org: string, trust: int)
      modifies `orgs
      ensures Contents() == SetScores(old(Contents()), org, ScoresOf(old(Contents()), org).(trust := Clamp(trust)))
    {
      if org in orgs {
        orgs := orgs[org := orgs[org].(scores := orgs[org].scores.(trust := Clamp(trust)))];
      }
    }

    method SetOrgLastAccuracy(org: string, accuracy: real)
      modifies `orgs
      ensures var scores := ScoresOf(old(Contents()), org);
        Contents() == SetScores(old(Contents()), org, scores.(lastAccuracy := Some(accuracy)))
    {
      if org in orgs {
        orgs := orgs[org := orgs[org].(scores := orgs[org].scores.(lastAccuracy := Some(accuracy)))];
      }
    }

    method IssueChallenge(nonce: string, org: string, round: int, now: int) returns (issued: bool)
      modifies `challenges
      ensures issued == (nonce !in old(challenges))
      ensures Contents()
           == if issued then Store.IssueChallenge(old(Contents()), nonce, org, round, now) else old(Contents())
    {
      if nonce in challenges {
        return false;
      }
      challenges := challenges[nonce := Challenge(org, round, now, now + CHALLENGE_TTL, None)];
      return true;
    }

    /** One conditional update; if no row changed, the reason is looked up afterwards. */
    method ConsumeChallenge(nonce: string, org: string, round: int, now: int) returns (error: Option<ChallengeError>)
      modifies `challenges
      ensures (Contents(), error) == Store.ConsumeChallenge(old(Contents()), nonce, org, round, now)
      ensures error != Some(ConsumptionFailed)
      ensures error.None? <==> Consumable(old(Contents()), nonce, org, round, now)
    {
      if Consumable(Contents(), nonce, org, round, now) {
        challenges := challenges[nonce := challenges[nonce].(consumedAt := Some(now))];
        return None;
      }
      if nonce !in challenges {
        return Some(UnknownChallenge);
      }
      var c := challenges[nonce];
      if c.org != org {
        return Some(OtherOrg);
      }
      if c.round != round {
        return Some(OtherRound);
      }
      if c.consumedAt.Some? {
        return Some(AlreadyConsumed);
      }
      return Some(Expired);
    }

    method RecordContribution(row: Row)
      modifies `rows
      ensures Contents() == Store.RecordContribution(old(Contents()), row)
    {
      rows := rows + [row];
    }

    method StartRound(window: int, now: int) returns (round: int)
      modifies `rounds
      ensures round == |old(rounds)| && Contents() == Store.StartRound(old(Contents()), window, now)
    {
      round := |rounds|;
      rounds := rounds + [Round(now, window, Running, None, 0, 0, 0, None)];
    }

    method CompleteRound(round: int, responded: int, accepted: int, hash: Digest)
      modifies `rounds
      ensures Contents() == Store.CompleteRound(old(Contents()), round, responded, accepted, hash)
    {
      if 0 <= round < |rounds| {
        rounds := rounds[round := rounds[round].(completedAt := None, status := Aggregated, responded := responded,
                                                 accepted := accepted, rejected := responded - accepted,
                                                 modelHash := Some(hash))];
      }
    }

    method FinishRound(round: int, now: int)
      modifies `rounds
      ensures Contents() == Store.FinishRound(old(Contents()), round, now)
    {
      if 0 <= round < |rounds| {
        rounds := rounds[round := rounds[round].(status := Completed, completedAt := Some(now))];
      }
    }

    method StageGlobalModel(round: int, stagedUntil: int, hash: Digest, path: Path)
      modifies `versions
      ensures Contents() == Store.StageGlobalModel(old(Contents()), round, stagedUntil, hash, path)
    {
      versions := versions + [Version(round, stagedUntil, Staged, hash, path, None)];
    }

    /** Two updates: archive everything live, then make the chosen version live. */
    method PromoteGlobalModel(version: int, now: int)
      modifies `versions
      ensures Contents() == Store.PromoteGlobalModel(old(Contents()), version, now)
    {
      if 0 <= version < |versions| {
        ghost var before := versions;
        var archived := seq(|versions|, i requires 0 <= i < |versions| reads this =>
          if versions[i].stage == Live then versions[i].(stage := Archived) else versions[i]);
        versions := archived;
        versions := versions[version := versions[version].(stage := Live, promotedAt := Some(now))];
        assert versions == Store.PromoteGlobalModel(old(Contents()), version, now).versions;
      }
    }
  }

  class TrustManager {
    const store: CoordinatorStore
    const maxExamples: int

    constructor (store: CoordinatorStore, maxExamples: int)
      ensures this.store == store && this.maxExamples == maxExamples
    {
      this.store, this.maxExamples := store, maxExamples;
    }

    /** Moves the persisted trust by delta, inside [0, 1]. */
    method Bump(org: string, delta: int) returns (trust: int)
      modifies store`orgs
      ensures trust == Clamp(ScoresOf(old(store.Contents()), org).trust + delta)
      ensures var scores := ScoresOf(old(store.Contents()), org);
        store.Contents() == SetScores(old(store.Contents()), org, scores.(trust := trust))
    {
      var current := ScoresOf(store.Contents(), org).trust;
      trust := Clamp(current + delta);
      store.UpdateOrgTrust(org, trust);
    }

    /** Scores one upload in the order of the checks, persisting every change as it is made. */
    method Evaluate(org: string, scoring: Scoring, numExamples: int) returns (e: Evaluation)
      modifies store`orgs
      ensures var scores := ScoresOf(old(store.Contents()), org);
        && e == Trust.Evaluate(scores, scoring, numExamples, maxExamples)
        && store.Contents() == SetScores(old(store.Contents()), org, NextScores(scores, scoring))
    {
      ghost var before := store.Contents();
      ghost var scores := ScoresOf(before, org);
      var trust := ScoresOf(store.Contents(), org).trust;
      if trust < MIN_TRUST {
        assert org in before.orgs ==> before.orgs[org := before.orgs[org]] == before.orgs;
        return Evaluation(false, trust, 0, None, LowTrust);
      }
      match scoring
      case Unloadable =>
        trust := Bump(org, -20);
        return Evaluation(false, trust, 0, None, InvalidStructure);
      case PredictionFails =>
        trust := Bump(org, -10);
        return Evaluation(false, trust, 0, None, EvaluationFailed);
      case NoValidationSet =>
        trust := Bump(org, 2);
        return Evaluation(true, trust, trust * CappedExamples(numExamples, maxExamples), None, Validated);
      case Accuracy(a) =>
        if a < MIN_ACCURACY {
          trust := Bump(org, -15);
          return Evaluation(false, trust, 0, Some(a), LowAccuracy);
        }
        if DropsTooFar(ScoresOf(store.Contents(), org).lastAccuracy, a) {
          trust := Bump(org, -20);
          return Evaluation(false, trust, 0, Some(a), SuspiciousDrop);
        }
        store.SetOrgLastAccuracy(org, a);
        trust := Bump(org, 2);
        if org in before.orgs {
          assert store.Contents().orgs == SetScores(before, org, NextScores(scores, scoring)).orgs;
        }
        return Evaluation(true, trust, trust * CappedExamples(numExamples, maxExamples), Some(a), Validated);
    }
  }

  class Coordinator {
    const env: Env
    const store: CoordinatorStore
    const trustManager: TrustManager
    var files: map<Path, Bytes>
    var crl: set<int>
    var inflight: map<nat, Upload>
    ghost var signed: set<Payload>
    ghost var clock: int

    ghost predicate Valid() {
      trustManager.store == store && trustManager.maxExamples == env.maxExamples
    }

    ghost function Snapshot(): State
      reads this, store
    {
      State(store.Contents(), files, crl, inflight, signed, clock)
    }

    constructor (env: Env, ghost start: int)
      ensures Valid() && this.env == env && Snapshot() == Initial(start) && fresh(store)
    {
      this.env := env;
      files, crl, inflight := map[], {}, map[];
      signed, clock := {}, start;
      var s := new CoordinatorStore();
      store := s;
      trustManager := new TrustManager(s, env.maxExamples);
    }

    method Enroll(org: string, key: Key, serial: int) returns (response: Response)
      modifies store
      ensures (Snapshot(), response) == HandleEnroll(old(Snapshot()), org, key, serial)
    {
      var enrolled := store.EnrollOrg(org, key, serial);
      return if enrolled then Done else Refused(409);
    }

    method SetStatus(org: string, status: OrgStatus) returns (response: Response)
      modifies store
      ensures (Snapshot(), response) == HandleSetStatus(old(Snapshot()), org, status)
    {
      if org !in store.orgs {
        return Refused(404);
      }
      store.SetOrgStatus(org, status);
      return Done;
    }

    method RegenerateCrl(succeeds: bool)
      modifies `crl
      ensures Snapshot() == Protocol.RegenerateCrl(old(Snapshot()), succeeds)
    {
      if succeeds {
        crl := RevokedSerials(store.Contents());
      }
    }

    method Revoke(org: string, crlSucceeds: bool) returns (response: Response)
      modifies this, store
      ensures (Snapshot(), response) == HandleRevoke(old(Snapshot()), org, crlSucceeds)
    {
      if org !in store.orgs {
        return Refused(404);
      }
      store.SetOrgStatus(org, Revoked);
      RegenerateCrl(crlSucceeds);
      return Done;
    }

    method RequestLeave(auth: string, org: string, payload: Payload, signature: Signature) returns (response: Response)
      modifies store
      ensures (Snapshot(), response) == HandleLeave(env, old(Snapshot()), auth, org, payload, signature)
    {
      if auth != org {
        return Refused(403);
      }
      if org !in store.orgs {
        return Refused(404);
      }
      var row := store.orgs[org];
      if row.status == Revoked {
        return Refused(409);
      }
      if !payload.LeaveRequest? || payload.org != org || signature.NotHex? {
        return Refused(400);
      }
      if !env.crypto.verify(row.key, payload, signature.value) {
        return Refused(403);
      }
      store.SetLeaveRequest(org, Signed(payload, signature));
      return Done;
    }

    /** The confirmation is signed and stored before the list is rebuilt. */
    method ApproveRemoval(org: string, crlSucceeds: bool, now: int) returns (response: Response)
      modifies this, store
      ensures (Snapshot(), response) == HandleApprove(env, old(Snapshot()), org, crlSucceeds, now)
    {
      if org !in store.orgs {
        return Refused(404);
      }
      if store.orgs[org].status != LeavePending {
        return Refused(409);
      }
      var confirm := RemovalConfirm(org, now);
      var signature := Hex(env.crypto.sign(confirm));
      signed := signed + {confirm};
      store.SetOrgStatus(org, Revoked);
      store.SetRemovalConfirm(org, Signed(confirm, signature));
      RegenerateCrl(crlSucceeds);
      return Done;
    }

    method Start(params: RoundParams, now: int) returns (response: Response)
      modifies this, store
      ensures (Snapshot(), response) == HandleStart(old(Snapshot()), params, now)
    {
      var invited := Invited(store.Contents(), params.targets);
      if |invited| < params.minClients {
        return Refused(422);
      }
      var round := store.StartRound(params.window, now);
      signed := signed + {RoundAnnouncement(round, params.epsilon, params.boostRounds, invited, now)};
      return Done;
    }

    method IssueRoundChallenge(org: string, round: int, nonce: string, now: int) returns (response: Response)
      modifies store
      ensures (Snapshot(), response) == HandleChallenge(old(Snapshot()), org, round, nonce, now)
    {
      if !HasRound(store.Contents(), round) {
        return Refused(404);
      }
      if store.rounds[round].status != Running {
        return Refused(409);
      }
      if org !in store.orgs {
        return Refused(403);
      }
      var issued := store.IssueChallenge(nonce, org, round, now);
      return if issued then Done else Refused(500);
    }

    /** Everything after the upload has been read: the remaining checks, the challenge, the signature, the record. */
    method VerifyAndRecord(u: Upload, check: int, commit: int) returns (response: Response)
      requires u.payload.Contribution?
      modifies `files, store
      ensures (Snapshot(), response) == Protocol.VerifyAndRecord(env, old(Snapshot()), u, check, commit)
    {
      var hash := env.crypto.digest(u.model);
      if |u.model| > env.maxModelBytes {
        return Refused(413);
      }
      if hash != u.payload.modelHash || u.payload.submittedAt.None? {
        return Refused(400);
      }
      if Drift(check, u.payload.submittedAt.value) > 300 {
        return Refused(400);
      }
      var error := store.ConsumeChallenge(u.payload.challenge, u.org, u.round, commit);
      if error.Some? {
        return Refused(403);
      }
      var key := PublicKeyOf(store.Contents(), u.org);
      if key.None? {
        return Refused(403);
      }
      if u.signature.NotHex? {
        return Refused(400);
      }
      if !env.crypto.verify(key.value, u.payload, u.signature.value) {
        store.RecordContribution(RowFor(env, u, false, commit));
        return Refused(403);
      }
      files := files[UploadFile(u.round, u.org, HashPrefix(hash)) := u.model];
      store.RecordContribution(RowFor(env, u, true, commit));
      return Done;
    }

    method BeginContribution(request: nat, u: Upload) returns (response: Response)
      modifies `inflight
      ensures (Snapshot(), response) == HandleBegin(old(Snapshot()), request, u)
    {
      if request in inflight {
        return Refused(500);
      }
      response := Precheck(CurrentChecks(), u);
      if response == Done {
        inflight := inflight[request := u];
      }
    }

    /** The state as the early checks read it; the history is not among what they read. */
    function CurrentChecks(): State
      reads this, store
      ensures forall u :: Precheck(CurrentChecks(), u) == Precheck(Snapshot(), u)
      ensures forall round, check ::
                AggregateGuard(CurrentChecks(), round, check) == AggregateGuard(Snapshot(), round, check)
    {
      State(store.Contents(), files, crl, inflight, {}, 0)
    }

    method FinishContribution(request: nat, check: int, commit: int) returns (response: Response)
      modifies `files, `inflight, store
      ensures (Snapshot(), response) == HandleFinish(env, old(Snapshot()), request, check, commit)
    {
      if request !in inflight {
        return Refused(500);
      }
      var u := inflight[request];
      inflight := inflight - {request};
      if !u.payload.Contribution? {
        return Refused(500);
      }
      response := VerifyAndRecord(u, check, commit);
    }

    method Contribute(u: Upload, check: int, commit: int) returns (response: Response)
      modifies `files, store
      ensures (Snapshot(), response) == HandleContribute(env, old(Snapshot()), u, check, commit)
    {
      response := Precheck(CurrentChecks(), u);
      if response == Done {
        response := VerifyAndRecord(u, check, commit);
      }
    }

    /** The evaluation loop: scores change and notices are signed as the uploads are judged one by one. */
    method JudgeUploads(rows: seq<Row>, scorings: nat -> Scoring, now: int)
      returns (judged: seq<Judgement>, broken: bool, ghost notices: set<Payload>)
      requires Valid() && AllOnDisk(rows)
      modifies store`orgs
      ensures Judging(store.Contents(), judged, broken, notices)
           == JudgeFirst(env, old(Snapshot()), rows, scorings, now, |rows|)
    {
      ghost var start := Snapshot();
      var trustBefore := map org | org in store.orgs :: store.orgs[org].scores.trust;
      judged, broken, notices := [], false, {};
      for i := 0 to |rows|
        invariant Judging(store.Contents(), judged, broken, notices) == JudgeFirst(env, start, rows, scorings, now, i)
      {
        var org := rows[i].org;
        var path := rows[i].path.value;
        if path !in files {
          var trust := if org in trustBefore then trustBefore[org] else UNKNOWN_TRUST;
          judged := judged + [Missing(org, trust)];
          continue;
        }
        var e := trustManager.Evaluate(org, scorings(i), rows[i].numExamples);
        notices := notices + {TrustUpdate(org, rows[i].round, e.trust, e.reason, now)};
        var document := env.parse(files[path]);
        if e.accepted && document.Some? {
          judged := judged + [Survived(org, e, document.value)];
        } else {
          judged := judged + [Distrusted(org, e)];
          broken := broken || e.accepted;
        }
      }
    }

    /** Gate the schemas and merge, or say with which status the request fails. */
    method CombineUploads(ghost j: Judging, judged: seq<Judgement>, broken: bool)
      returns (outcome: Result<(Merged, seq<ResultRow>), int>)
      requires j.judged == judged && j.broken == broken
      ensures outcome == Combine(j)
    {
      if broken {
        return Failure(500);
      }
      if Survivors(judged) == [] {
        return Failure(422);
      }
      var results, weighted, excluded := ApplyGate(judged);
      var merge := AggregationInPlace.MergeXgboostModels(weighted);
      return if merge.Failure? then Failure(500) else Success((merge.value, results));
    }

    /** Write the merged file, stage the version, move the round on. */
    method StageMerged(round: int, responded: int, merged: Model, results: seq<ResultRow>, now: int)
      requires HasRound(store.Contents(), round)
      modifies `files, store
      ensures Snapshot() == Protocol.StageMerged(env, old(Snapshot()), round, responded, merged, results, now)
    {
      var bytes := env.dump(merged);
      var hash := env.crypto.digest(bytes);
      files := files[ModelFile(round) := bytes];
      store.StageGlobalModel(round, now + store.rounds[round].window, hash, ModelFile(round));
      store.CompleteRound(round, responded, AcceptedRows(results), hash);
    }

    /** Judge, gate, merge, write the file, stage the version, move the round on. */
    method AggregateRound(round: int, scorings: nat -> Scoring, check: int, commit: int) returns (response: Response)
      requires Valid()
      modifies this, store
      ensures (Snapshot(), response) == HandleAggregate(env, old(Snapshot()), round, scorings, check, commit)
    {
      ghost var before := Snapshot();
      response := AggregateGuard(CurrentChecks(), round, check);
      if response.Refused? {
        return;
      }
      var accepted := AcceptedFor(store.rows, round);
      AcceptedForMembers(store.rows, round);
      ghost var notices: set<Payload>;
      var judged, broken;
      judged, broken, notices := JudgeUploads(accepted, scorings, commit);
      ghost var j := Judging(store.Contents(), judged, broken, notices);
      assert j == JudgeRound(env, before, round, scorings, commit);
      signed := signed + notices;
      var outcome := CombineUploads(j, judged, broken);
      if outcome.Failure? {
        return Refused(outcome.error);
      }
      StageMerged(round, |accepted|, outcome.value.0.model, outcome.value.1, commit);
      return Done;
    }

    method Publish(round: int, check: int, commit: int) returns (response: Response)
      modifies store
      ensures (Snapshot(), response) == HandlePublish(old(Snapshot()), round, check, commit)
    {
      if !HasRound(store.Contents(), round) {
        return Refused(404);
      }
      var staged := StagedFor(store.versions, round);
      StagedForFinds(store.versions, round);
      if staged.None? || store.versions[staged.value].stagedUntil - check > 0 {
        return Refused(409);
      }
      store.PromoteGlobalModel(staged.value, commit);
      store.FinishRound(round, commit);
      return Done;
    }

    method Rollback(version: int, now: int) returns (response: Response)
      modifies store
      ensures (Snapshot(), response) == HandleRollback(old(Snapshot()), version, now)
    {
      if !(0 <= version < |store.versions|) {
        return Refused(404);
      }
      if store.versions[version].stage == Staged {
        return Refused(409);
      }
      store.PromoteGlobalModel(version, now);
      return Done;
    }

    method Serve(round: int, path: Path, now: int) returns (response: Response)
      modifies `signed
      ensures (Snapshot(), response) == Protocol.Serve(env, old(Snapshot()), round, path, now)
    {
      if path !in files {
        return Refused(404);
      }
      var payload := GlobalModel(round, env.crypto.digest(files[path]), AttestedOrgs(store.Contents(), round), now);
      signed := signed + {payload};
      return Served(files[path], payload, Hex(env.crypto.sign(payload)));
    }

    method ServeLive(now: int) returns (response: Response)
      modifies `signed
      ensures (Snapshot(), response) == HandleServeLive(env, old(Snapshot()), now)
    {
      var live := LiveVersion(store.versions);
      LiveVersionFinds(store.versions);
      if live.None? {
        return Refused(404);
      }
      var v := store.versions[live.value];
      response := Serve(v.round, v.path, now);
    }

    method ServeRound(round: int, now: int) returns (response: Response)
      modifies `signed
      ensures (Snapshot(), response) == HandleServeRound(env, old(Snapshot()), round, now)
    {
      if !HasRound(store.Contents(), round) {
        return Refused(404);
      }
      if store.rounds[round].status != Completed {
        return Refused(409);
      }
      response := Serve(round, ModelFile(round), now);
    }

    method PerformOrgEvent(m: Moment) returns (response: Response)
      requires TouchesOrgs(m.event)
      modifies this, store
      ensures (Snapshot(), response) == Handle(env, old(Snapshot()), m)
    {
      match m.event
      case EnrollEvent(org, key, serial) => response := Enroll(org, key, serial);
      case BlockEvent(org) => response := SetStatus(org, Blocked);
      case UnblockEvent(org) => response := SetStatus(org, Active);
      case RevokeEvent(org, crlSucceeds) => response := Revoke(org, crlSucceeds);
      case LeaveEvent(auth, org, payload, signature) => response := RequestLeave(auth, org, payload, signature);
      case ApproveEvent(org, crlSucceeds) => response := ApproveRemoval(org, crlSucceeds, m.commit);
    }

    method PerformContribution(m: Moment) returns (response: Response)
      requires Contributes(m.event)
      modifies this, store
      ensures (Snapshot(), response) == Handle(env, old(Snapshot()), m)
    {
      match m.event
      case BeginEvent(request, u) => response := BeginContribution(request, u);
      case FinishEvent(request) => response := FinishContribution(request, m.check, m.commit);
      case ContributeEvent(u) => response := Contribute(u, m.check, m.commit);
    }

    method PerformRoundEvent(m: Moment) returns (response: Response)
      requires Valid() && TouchesLifecycle(m.event)
      modifies this, store
      ensures (Snapshot(), response) == Handle(env, old(Snapshot()), m)
    {
      match m.event
      case StartEvent(params) => response := Start(params, m.commit);
      case AggregateEvent(round, scorings) => response := AggregateRound(round, scorings, m.check, m.commit);
      case PublishEvent(round) => response := Publish(round, m.check, m.commit);
      case RollbackEvent(version) => response := Rollback(version, m.commit);
    }

    /** One moment of a run: so every run of this object is a run of the transition system. */
    method Perform(m: Moment) returns (response: Response)
      requires Valid()
      modifies this, store
      ensures Snapshot() == Step(env, old(Snapshot()), m) && response == Handle(env, old(Snapshot()), m).1
    {
      if TouchesOrgs(m.event) {
        response := PerformOrgEvent(m);
      } else if Contributes(m.event) {
        response := PerformContribution(m);
      } else if TouchesLifecycle(m.event) {
        response := PerformRoundEvent(m);
      } else {
        match m.event {
          case ChallengeEvent(org, round, nonce) => response := IssueRoundChallenge(org, round, nonce, m.commit);
          case ServeLiveEvent => response := ServeLive(m.commit);
          case ServeRoundEvent(round) => response := ServeRound(round, m.commit);
          case RestartEvent => inflight := map[]; response := Done;
        }
      }
      clock := m.commit;
    }
  }
}
