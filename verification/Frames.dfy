/** Which parts of the state a step can touch at all. */
module Frames {
  import opened Wrappers
  import opened Trust
  import opened Attestation
  import opened Store
  import opened Protocol

  /** Equal but for the scores of some organisations. */
  ghost predicate SameButScores(a: map<string, Org>, b: map<string, Org>) {
    a.Keys == b.Keys && forall org | org in a :: b[org] == a[org].(scores := b[org].scores)
  }

  lemma {:induction false} JudgingChangesScoresOnly(env: Env, s: State, rows: seq<Row>, scorings: nat -> Scoring,
                                                    now: int, n: nat)
    requires n <= |rows| && AllOnDisk(rows)
    ensures var j := JudgeFirst(env, s, rows, scorings, now, n);
      && j.db == s.db.(orgs := j.db.orgs) && SameButScores(s.db.orgs, j.db.orgs)
      && |j.judged| == n
      && forall p | p in j.notices :: p.TrustUpdate?
  {
    if n > 0 {
      JudgingChangesScoresOnly(env, s, rows, scorings, now, n - 1);
    }
  }

  ghost predicate SameModelFiles(a: map<Path, Bytes>, b: map<Path, Bytes>) {
    forall p: Path | p.ModelFile? :: (p in a <==> p in b) && (p in a && p in b ==> a[p] == b[p])
  }

  ghost predicate SameUploadFiles(a: map<Path, Bytes>, b: map<Path, Bytes>) {
    forall p: Path | p.UploadFile? :: (p in a <==> p in b) && (p in a && p in b ==> a[p] == b[p])
  }

  /** What judging has done to the database and written to the organisations. */
  ghost predicate JudgedFrom(s: State, j: Judging) {
    && j.db == s.db.(orgs := j.db.orgs)
    && SameButScores(s.db.orgs, j.db.orgs)
    && forall p | p in j.notices :: p.TrustUpdate?
  }

  lemma JudgeRoundFrame(env: Env, s: State, round: int, scorings: nat -> Scoring, now: int)
    ensures JudgedFrom(s, JudgeRound(env, s, round, scorings, now))
    ensures |JudgeRound(env, s, round, scorings, now).judged| == |AcceptedFor(s.db.rows, round)|
  {
    var rows := AcceptedFor(s.db.rows, round);
    AcceptedForMembers(s.db.rows, round);
    JudgingChangesScoresOnly(env, s, rows, scorings, now, |rows|);
  }

  /** A refused aggregation leaves nothing behind but scores and their notices. */
  ghost predicate OnlyScored(s: State, t: State) {
    && t == s.(db := t.db, signed := t.signed)
    && t.db == s.db.(orgs := t.db.orgs)
    && SameButScores(s.db.orgs, t.db.orgs)
    && s.signed <= t.signed && forall p | p in t.signed - s.signed :: p.TrustUpdate?
  }

  /** A successful one also moves its round on and adds one staged version with its file. */
  ghost predicate StagedRound(env: Env, s: State, t: State, round: int, commit: int, bytes: Bytes) {
    && HasRound(s.db, round)
    && t == s.(db := t.db, signed := t.signed, files := s.files[ModelFile(round) := bytes])
    && SameButScores(s.db.orgs, t.db.orgs)
    && s.signed <= t.signed && (forall p | p in t.signed - s.signed :: p.TrustUpdate?)
    && |t.db.rounds| == |s.db.rounds| && t.db.rounds[round].status == Aggregated
    && (var r := t.db.rounds;
         && t.db == s.db.(orgs := t.db.orgs,
                          rounds := s.db.rounds[round := r[round]],
                          versions := s.db.versions + [Version(round, commit + s.db.rounds[round].window, Staged,
                                                               env.crypto.digest(bytes), ModelFile(round), None)])
         && r[round].startedAt == s.db.rounds[round].startedAt && r[round].window == s.db.rounds[round].window
         && r[round].responded == |AcceptedFor(s.db.rows, round)| == r[round].accepted + r[round].rejected)
  }

  lemma ConcludeFrame(env: Env, s: State, round: int, j: Judging,
                      outcome: Result<(Aggregation.Merged, seq<SchemaGate.ResultRow>), int>, now: int)
    requires HasRound(s.db, round) && JudgedFrom(s, j)
    ensures var (t, r) := Conclude(env, s, round, j, outcome, now);
      && (outcome.Failure? ==> r.Refused? && OnlyScored(s, t))
      && (outcome.Success? ==> r == Done && StagedRound(env, s, t, round, now, env.dump(outcome.value.0.model)))
  {
  }

  /** Both ways an aggregation can end. */
  lemma AggregateFrame(env: Env, s: State, round: int, scorings: nat -> Scoring, check: int, commit: int)
    returns (bytes: Bytes)
    ensures var (t, r) := HandleAggregate(env, s, round, scorings, check, commit);
      if r.Refused? then OnlyScored(s, t)
      else
        && r == Done && StagedRound(env, s, t, round, commit, bytes)
        && s.db.rounds[round].status == Running
        && s.db.rounds[round].startedAt + s.db.rounds[round].window <= check
  {
    bytes := [];
    if AggregateGuard(s, round, check) == Done {
      var j := JudgeRound(env, s, round, scorings, commit);
      JudgeRoundFrame(env, s, round, scorings, commit);
      ConcludeFrame(env, s, round, j, Combine(j), commit);
      if Combine(j).Success? {
        bytes := env.dump(Combine(j).value.0.model);
      }
    }
  }

  /** Contributing touches rows, challenges, one uploaded file and the open requests. */
  ghost predicate OnlyContributed(s: State, t: State) {
    && t == s.(db := t.db, files := t.files, inflight := t.inflight)
    && t.db == s.db.(rows := t.db.rows, challenges := t.db.challenges)
    && SameModelFiles(s.files, t.files)
  }

  lemma VerifyAndRecordFrame(env: Env, s: State, u: Upload, check: int, commit: int)
    requires u.payload.Contribution?
    ensures OnlyContributed(s, VerifyAndRecord(env, s, u, check, commit).0)
  {
  }

  lemma ContributeFrame(env: Env, s: State, m: Moment)
    requires m.event.ContributeEvent? || m.event.BeginEvent? || m.event.FinishEvent?
    ensures OnlyContributed(s, Handle(env, s, m).0)
  {
    match m.event
    case ContributeEvent(u) =>
      if Precheck(s, u) == Done {
        VerifyAndRecordFrame(env, s, u, m.check, m.commit);
      }
    case FinishEvent(request) =>
      if request in s.inflight && s.inflight[request].payload.Contribution? {
        VerifyAndRecordFrame(env, s.(inflight := s.inflight - {request}), s.inflight[request], m.check, m.commit);
      }
    case BeginEvent(_, _) =>
  }

  predicate TouchesOrgs(e: Event) {
    e.EnrollEvent? || e.BlockEvent? || e.UnblockEvent? || e.RevokeEvent? || e.LeaveEvent? || e.ApproveEvent?
  }

  /** Lifecycle handlers of organisations touch organisations, the revocation list, and what was signed. */
  lemma OrgEventFrame(env: Env, s: State, m: Moment)
    requires TouchesOrgs(m.event)
    ensures var t := Handle(env, s, m).0;
      && t == s.(db := s.db.(orgs := t.db.orgs), crl := t.crl, signed := t.signed)
      && s.db.orgs.Keys <= t.db.orgs.Keys
      && s.signed <= t.signed && forall p | p in t.signed - s.signed :: p.RemovalConfirm?
  {
    match m.event
    case EnrollEvent(_, _, _) =>
    case BlockEvent(_) =>
    case UnblockEvent(_) =>
    case RevokeEvent(_, _) =>
    case LeaveEvent(_, _, _, _) =>
    case ApproveEvent(_, _) =>
  }

  predicate MovesRounds(e: Event) {
    e.StartEvent? || e.PublishEvent? || e.RollbackEvent?
  }

  lemma RoundEventFrame(env: Env, s: State, m: Moment)
    requires MovesRounds(m.event)
    ensures var t := Handle(env, s, m).0;
      && t == s.(db := s.db.(rounds := t.db.rounds, versions := t.db.versions), signed := t.signed)
      && |s.db.rounds| <= |t.db.rounds|
      && s.signed <= t.signed && forall p | p in t.signed - s.signed :: p.RoundAnnouncement?
  {
    match m.event
    case StartEvent(_) =>
    case PublishEvent(_) =>
    case RollbackEvent(_) =>
  }

  predicate Serves(e: Event) {
    e.ServeLiveEvent? || e.ServeRoundEvent?
  }

  lemma ServingFrame(env: Env, s: State, m: Moment)
    requires Serves(m.event)
    ensures var t := Handle(env, s, m).0; t == s.(signed := t.signed) && s.signed <= t.signed
  {
  }

  lemma IssuingFrame(env: Env, s: State, m: Moment)
    requires m.event.ChallengeEvent?
    ensures var t := Handle(env, s, m).0; t == s.(db := s.db.(challenges := t.db.challenges))
  {
  }

  predicate Contributes(e: Event) {
    e.ContributeEvent? || e.BeginEvent? || e.FinishEvent?
  }

  predicate TouchesLifecycle(e: Event) {
    e.StartEvent? || e.AggregateEvent? || e.PublishEvent? || e.RollbackEvent?
  }

  /** Rounds, versions and merged models belong to four handlers. */
  lemma LifecycleFrame(env: Env, s: State, m: Moment)
    requires !TouchesLifecycle(m.event)
    ensures var t := Step(env, s, m);
      t.db.rounds == s.db.rounds && t.db.versions == s.db.versions && SameModelFiles(s.files, t.files)
  {
    if TouchesOrgs(m.event) {
      OrgEventFrame(env, s, m);
    } else if Contributes(m.event) {
      ContributeFrame(env, s, m);
    } else if Serves(m.event) {
      ServingFrame(env, s, m);
    } else if m.event.ChallengeEvent? {
      IssuingFrame(env, s, m);
    }
  }

  predicate TouchesRows(e: Event) {
    e.ChallengeEvent? || e.FinishEvent? || e.ContributeEvent?
  }

  lemma AggregateKeepsRows(env: Env, s: State, round: int, scorings: nat -> Scoring, check: int, commit: int)
    ensures var t := HandleAggregate(env, s, round, scorings, check, commit).0;
      && t.db.rows == s.db.rows && t.db.challenges == s.db.challenges && SameUploadFiles(s.files, t.files)
      && t.inflight == s.inflight && |t.db.rounds| == |s.db.rounds|
  {
    var bytes := AggregateFrame(env, s, round, scorings, check, commit);
  }

  lemma BeginKeepsRows(s: State, request: nat, u: Upload)
    ensures var t := HandleBegin(s, request, u).0; t == s.(inflight := t.inflight)
  {
  }

  /** Rows, challenges and uploaded files belong to the contribution handlers. */
  lemma RowsFrame(env: Env, s: State, m: Moment)
    requires !TouchesRows(m.event)
    ensures var t := Step(env, s, m);
      t.db.rows == s.db.rows && t.db.challenges == s.db.challenges && SameUploadFiles(s.files, t.files)
  {
    if TouchesOrgs(m.event) {
      OrgEventFrame(env, s, m);
    } else if MovesRounds(m.event) {
      RoundEventFrame(env, s, m);
    } else if m.event.AggregateEvent? {
      AggregateKeepsRows(env, s, m.event.round, m.event.scorings, m.check, m.commit);
    } else if Serves(m.event) {
      ServingFrame(env, s, m);
    } else if m.event.BeginEvent? {
      BeginKeepsRows(s, m.event.request, m.event.upload);
    }
  }

  lemma AggregateKeepsOrgs(env: Env, s: State, round: int, scorings: nat -> Scoring, check: int, commit: int)
    ensures var t := HandleAggregate(env, s, round, scorings, check, commit).0;
      && SameButScores(s.db.orgs, t.db.orgs) && t.crl == s.crl
      && s.signed <= t.signed && forall p | p in t.signed - s.signed :: p.TrustUpdate?
  {
    var bytes := AggregateFrame(env, s, round, scorings, check, commit);
  }

  /** Keys, statuses and removal papers belong to the lifecycle handlers of organisations. */
  lemma OrgsFrame(env: Env, s: State, m: Moment)
    requires !TouchesOrgs(m.event)
    ensures SameButScores(s.db.orgs, Step(env, s, m).db.orgs)
    ensures !m.event.AggregateEvent? ==> Step(env, s, m).db.orgs == s.db.orgs
    ensures Step(env, s, m).crl == s.crl
  {
    if m.event.AggregateEvent? {
      AggregateKeepsOrgs(env, s, m.event.round, m.event.scorings, m.check, m.commit);
    } else if Contributes(m.event) {
      ContributeFrame(env, s, m);
    } else if MovesRounds(m.event) {
      RoundEventFrame(env, s, m);
    } else if Serves(m.event) {
      ServingFrame(env, s, m);
    } else if m.event.ChallengeEvent? {
      IssuingFrame(env, s, m);
    }
  }

  /** Nothing that was signed is ever forgotten, and model attestations are signed in serving only. */
  lemma SignedFrame(env: Env, s: State, m: Moment)
    ensures s.signed <= Step(env, s, m).signed
    ensures !Serves(m.event) ==>
              forall p | p in Step(env, s, m).signed :: p in s.signed || (!p.Contribution? && !p.GlobalModel?)
  {
    var t := Step(env, s, m);
    if TouchesOrgs(m.event) {
      OrgEventFrame(env, s, m);
    } else if MovesRounds(m.event) {
      RoundEventFrame(env, s, m);
    } else if m.event.AggregateEvent? {
      AggregateKeepsOrgs(env, s, m.event.round, m.event.scorings, m.check, m.commit);
    } else if Serves(m.event) {
      ServingFrame(env, s, m);
    } else if Contributes(m.event) {
      ContributeFrame(env, s, m);
    } else if m.event.ChallengeEvent? {
      IssuingFrame(env, s, m);
    }
    assert forall p | p in t.signed && p !in s.signed :: p in t.signed - s.signed;
  }
}
