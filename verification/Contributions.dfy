/**
 Contribution rows, challenges and uploaded files in every reachable state, under every
 interleaving: the handler may be suspended while it waits for the upload.
 */
module Contributions {
  import opened Wrappers
  import opened Attestation
  import opened Store
  import opened Protocol
  import opened Frames

  /** The fields of a row are the attested ones. */
  ghost predicate RowAttested(r: Row) {
    && r.payload.Contribution? && r.payload.kind == CONTRIBUTION_KIND
    && r.payload.org == r.org && r.payload.round == r.round
    && r.payload.modelHash == r.modelHash && r.payload.numExamples == r.numExamples
    && r.payload.challenge == r.challenge
    && r.path == (if r.accepted then Some(UploadFile(r.round, r.org, HashPrefix(r.modelHash))) else None)
  }

  /** The row's challenge was issued to the same organisation and round, and consumed before it expired. */
  ghost predicate RowBacked(challenges: map<string, Challenge>, r: Row) {
    r.challenge in challenges && (var c := challenges[r.challenge];
      c.org == r.org && c.round == r.round && c.consumedAt.Some? && c.issuedAt <= c.consumedAt.value < c.expiresAt
      && c.consumedAt.value <= r.receivedAt)
  }

  ghost predicate ChallengesTimed(s: State) {
    forall n | n in s.db.challenges :: s.db.challenges[n].issuedAt <= s.now
  }

  ghost predicate RowsOk(s: State) {
    && ChallengesTimed(s)
    && (forall i | 0 <= i < |s.db.rows| ::
          && RowAttested(s.db.rows[i]) && RowBacked(s.db.challenges, s.db.rows[i])
          && HasRound(s.db, s.db.rows[i].round) && s.db.rows[i].receivedAt <= s.now)
    && (forall i, j | 0 <= i < j < |s.db.rows| ::
          s.db.rows[i].challenge != s.db.rows[j].challenge && s.db.rows[i].receivedAt <= s.db.rows[j].receivedAt)
  }

  ghost predicate Prepared(db: Database, u: Upload) {
    && u.payload.Contribution? && u.payload.kind == CONTRIBUTION_KIND
    && u.payload.org == u.org && u.payload.round == u.round && HasRound(db, u.round)
  }

  ghost predicate InflightOk(s: State) {
    forall q | q in s.inflight :: Prepared(s.db, s.inflight[q])
  }

  /** The last accepted row filed under a name. (Names carry only 16 digits of the hash.) */
  function LastFiled(rows: seq<Row>, p: Path): Option<nat> {
    if rows == [] then None
    else if rows[|rows| - 1].accepted && rows[|rows| - 1].path == Some(p) then Some(|rows| - 1)
    else LastFiled(rows[..|rows| - 1], p)
  }

  lemma {:induction false} LastFiledFinds(rows: seq<Row>, p: Path)
    ensures match LastFiled(rows, p)
      case Some(i) =>
        && i < |rows| && rows[i].accepted && rows[i].path == Some(p)
        && forall k | i < k < |rows| :: !(rows[k].accepted && rows[k].path == Some(p))
      case None => forall k | 0 <= k < |rows| :: !(rows[k].accepted && rows[k].path == Some(p))
  {
    if rows != [] {
      LastFiledFinds(rows[..|rows| - 1], p);
    }
  }

  lemma LastFiledOfMore(rows: seq<Row>, r: Row, p: Path)
    ensures LastFiled(rows + [r], p) == if r.accepted && r.path == Some(p) then Some(|rows|) else LastFiled(rows, p)
  {
    assert (rows + [r])[..|rows|] == rows;
  }

  /** The file of that name hashes to what that row attests; there is none if there is no such row. */
  ghost predicate FileIsLatest(env: Env, files: map<Path, Bytes>, rows: seq<Row>, p: Path) {
    match LastFiled(rows, p)
    case Some(i) => p in files && i < |rows| && env.crypto.digest(files[p]) == rows[i].modelHash
    case None => p !in files
  }

  ghost predicate UploadsOk(env: Env, s: State) {
    forall p: Path | p.UploadFile? :: FileIsLatest(env, s.files, s.db.rows, p)
  }

  ghost predicate ContributionsOk(env: Env, s: State) {
    RowsOk(s) && InflightOk(s) && UploadsOk(env, s)
  }

  // ---------- One step ----------

  /** Nothing relevant changed. */
  lemma SameContributions(env: Env, s: State, t: State)
    requires ContributionsOk(env, s) && s.now <= t.now
    requires t.db.rows == s.db.rows && t.db.challenges == s.db.challenges && |s.db.rounds| <= |t.db.rounds|
    requires SameUploadFiles(s.files, t.files)
    requires forall q | q in t.inflight :: q in s.inflight && t.inflight[q] == s.inflight[q]
    ensures ContributionsOk(env, t)
  {
    SameUploads(env, s, t);
  }

  lemma ChallengeKeeps(env: Env, s: State, org: string, round: int, nonce: string, now: int)
    requires ContributionsOk(env, s) && s.now <= now
    ensures ContributionsOk(env, HandleChallenge(s, org, round, nonce, now).0.(now := now))
  {
    var t := HandleChallenge(s, org, round, nonce, now).0.(now := now);
    SameUploads(env, s, t);
    IssuingKeepsRows(s, t, nonce);
  }

  lemma IssuingKeepsRows(s: State, t: State, nonce: string)
    requires RowsOk(s) && s.now <= t.now && t.db.rows == s.db.rows && |t.db.rounds| == |s.db.rounds|
    requires t.db.challenges == s.db.challenges
      || (nonce !in s.db.challenges && nonce in t.db.challenges && t.db.challenges[nonce].issuedAt == t.now
          && t.db.challenges == s.db.challenges[nonce := t.db.challenges[nonce]])
    ensures RowsOk(t)
  {
    forall i | 0 <= i < |t.db.rows|
      ensures RowBacked(t.db.challenges, t.db.rows[i])
    {
      assert RowBacked(s.db.challenges, s.db.rows[i]);
    }
  }

  lemma SameUploads(env: Env, s: State, t: State)
    requires UploadsOk(env, s) && t.db.rows == s.db.rows && SameUploadFiles(s.files, t.files)
    ensures UploadsOk(env, t)
  {
    forall p: Path | p.UploadFile?
      ensures FileIsLatest(env, t.files, t.db.rows, p)
    {
      assert FileIsLatest(env, s.files, s.db.rows, p);
    }
  }

  /** The evidence for a row at the moment it is recorded as accepted. */
  ghost predicate Evidence(env: Env, s: State, r: Row) {
    && r.org in s.db.orgs && s.db.orgs[r.org].status == Active
    && Verifies(env.crypto, s.db.orgs[r.org].key, r.payload, r.signature)
  }

  /**
   What verifying and recording can do: nothing; burn the challenge; or burn it and add one row,
   which is accepted only on evidence and then comes with its file.
   */
  ghost predicate Recorded(env: Env, s: State, t: State, u: Upload, commit: int)
    requires u.payload.Contribution?
  {
    var nonce := u.payload.challenge;
    && nonce in s.db.challenges && s.db.challenges[nonce].org == u.org && s.db.challenges[nonce].round == u.round
    && s.db.challenges[nonce].consumedAt.None? && commit < s.db.challenges[nonce].expiresAt
    && env.crypto.digest(u.model) == u.payload.modelHash
    && t.db.challenges == s.db.challenges[nonce := s.db.challenges[nonce].(consumedAt := Some(commit))]
    && (|| (t.db.rows == s.db.rows && t.files == s.files)
        || (t.db.rows == s.db.rows + [RowFor(env, u, false, commit)] && t.files == s.files)
        || (var r := RowFor(env, u, true, commit);
            t.db.rows == s.db.rows + [r] && t.files == s.files[r.path.value := u.model] && Evidence(env, s, r)))
  }

  lemma VerifyAndRecordEffect(env: Env, s: State, u: Upload, check: int, commit: int)
    requires u.payload.Contribution?
    ensures var t := VerifyAndRecord(env, s, u, check, commit).0;
      && t == s.(db := s.db.(rows := t.db.rows, challenges := t.db.challenges), files := t.files)
      && (t == s || Recorded(env, s, t, u, commit))
      && (if VerifyAndRecord(env, s, u, check, commit).1 == Done
          then t.db.rows == s.db.rows + [RowFor(env, u, true, commit)]
          else t.db.rows == s.db.rows || t.db.rows == s.db.rows + [RowFor(env, u, false, commit)])
  {
  }

  lemma RecordingKeepsRows(env: Env, s: State, t: State, u: Upload, commit: int)
    requires RowsOk(s) && Prepared(s.db, u) && s.now <= commit == t.now
    requires Recorded(env, s, t, u, commit) && |t.db.rounds| == |s.db.rounds|
    ensures RowsOk(t)
  {
    var nonce := u.payload.challenge;
    forall i | 0 <= i < |s.db.rows|
      ensures s.db.rows[i].challenge != nonce && RowBacked(t.db.challenges, s.db.rows[i])
    {
      assert RowBacked(s.db.challenges, s.db.rows[i]);
    }
  }

  lemma RecordingKeepsUploads(env: Env, s: State, t: State, u: Upload, commit: int)
    requires UploadsOk(env, s) && u.payload.Contribution?
    requires Recorded(env, s, t, u, commit)
    ensures UploadsOk(env, t)
  {
    forall p: Path | p.UploadFile?
      ensures FileIsLatest(env, t.files, t.db.rows, p)
    {
      assert FileIsLatest(env, s.files, s.db.rows, p);
      if t.db.rows != s.db.rows {
        var r := t.db.rows[|s.db.rows|];
        assert t.db.rows == s.db.rows + [r];
        LastFiledOfMore(s.db.rows, r, p);
        LastFiledFinds(s.db.rows, p);
      }
    }
  }

  lemma VerifyAndRecordKeeps(env: Env, s: State, u: Upload, check: int, commit: int)
    requires ContributionsOk(env, s) && Prepared(s.db, u) && s.now <= commit
    ensures ContributionsOk(env, VerifyAndRecord(env, s, u, check, commit).0.(now := commit))
  {
    VerifyAndRecordEffect(env, s, u, check, commit);
    var t := VerifyAndRecord(env, s, u, check, commit).0.(now := commit);
    if Recorded(env, s, t, u, commit) {
      RecordingKeepsRows(env, s, t, u, commit);
      RecordingKeepsUploads(env, s, t, u, commit);
    } else {
      SameContributions(env, s, t);
    }
  }

  lemma RoundsOnlyGrow(env: Env, s: State, m: Moment)
    ensures |s.db.rounds| <= |Step(env, s, m).db.rounds|
  {
    if !TouchesLifecycle(m.event) {
      LifecycleFrame(env, s, m);
    } else if m.event.AggregateEvent? {
      AggregateKeepsRows(env, s, m.event.round, m.event.scorings, m.check, m.commit);
    } else {
      RoundEventFrame(env, s, m);
    }
  }

  /** Only the two halves of the contribution handler and a restart touch open requests. */
  lemma InflightFrame(env: Env, s: State, m: Moment)
    requires !TouchesRows(m.event) && !m.event.BeginEvent?
    ensures Step(env, s, m).inflight == if m.event.RestartEvent? then map[] else s.inflight
  {
    if TouchesOrgs(m.event) {
      OrgEventFrame(env, s, m);
    } else if MovesRounds(m.event) {
      RoundEventFrame(env, s, m);
    } else if m.event.AggregateEvent? {
      AggregateKeepsRows(env, s, m.event.round, m.event.scorings, m.check, m.commit);
    } else if Serves(m.event) {
      ServingFrame(env, s, m);
    }
  }

  lemma IssuingKeepsContributions(env: Env, s: State, m: Moment)
    requires ContributionsOk(env, s) && Timely(s, m) && m.event.ChallengeEvent?
    ensures ContributionsOk(env, Step(env, s, m))
  {
    var e := m.event;
    ChallengeKeeps(env, s, e.org, e.round, e.nonce, m.commit);
    assert Step(env, s, m) == HandleChallenge(s, e.org, e.round, e.nonce, m.commit).0.(now := m.commit);
  }

  lemma BeginningKeepsContributions(env: Env, s: State, m: Moment)
    requires ContributionsOk(env, s) && Timely(s, m) && m.event.BeginEvent?
    ensures ContributionsOk(env, Step(env, s, m))
  {
    BeginKeeps(env, s, m.event.request, m.event.upload, m.commit);
    assert Step(env, s, m) == HandleBegin(s, m.event.request, m.event.upload).0.(now := m.commit);
  }

  lemma FinishingKeepsContributions(env: Env, s: State, m: Moment)
    requires ContributionsOk(env, s) && Timely(s, m) && m.event.FinishEvent?
    ensures ContributionsOk(env, Step(env, s, m))
  {
    FinishKeeps(env, s, m.event.request, m.check, m.commit);
    assert Step(env, s, m) == HandleFinish(env, s, m.event.request, m.check, m.commit).0.(now := m.commit);
  }

  lemma ContributingKeepsContributions(env: Env, s: State, m: Moment)
    requires ContributionsOk(env, s) && Timely(s, m) && m.event.ContributeEvent?
    ensures ContributionsOk(env, Step(env, s, m))
  {
    ContributeKeeps(env, s, m.event.upload, m.check, m.commit);
    assert Step(env, s, m) == HandleContribute(env, s, m.event.upload, m.check, m.commit).0.(now := m.commit);
  }

  lemma StepKeepsContributions(env: Env, s: State, m: Moment)
    requires ContributionsOk(env, s) && Timely(s, m)
    ensures ContributionsOk(env, Step(env, s, m))
  {
    if m.event.ChallengeEvent? {
      IssuingKeepsContributions(env, s, m);
    } else if m.event.BeginEvent? {
      BeginningKeepsContributions(env, s, m);
    } else if m.event.FinishEvent? {
      FinishingKeepsContributions(env, s, m);
    } else if m.event.ContributeEvent? {
      ContributingKeepsContributions(env, s, m);
    } else {
      OthersKeep(env, s, m);
    }
  }

  lemma ContributeKeeps(env: Env, s: State, u: Upload, check: int, commit: int)
    requires ContributionsOk(env, s) && s.now <= commit
    ensures ContributionsOk(env, HandleContribute(env, s, u, check, commit).0.(now := commit))
  {
    if Precheck(s, u) == Done {
      VerifyAndRecordKeeps(env, s, u, check, commit);
    } else {
      SameContributions(env, s, s.(now := commit));
    }
  }

  lemma BeginKeeps(env: Env, s: State, request: nat, u: Upload, now: int)
    requires ContributionsOk(env, s) && s.now <= now
    ensures ContributionsOk(env, HandleBegin(s, request, u).0.(now := now))
  {
    SameUploads(env, s, HandleBegin(s, request, u).0.(now := now));
  }

  lemma OthersKeep(env: Env, s: State, m: Moment)
    requires ContributionsOk(env, s) && Timely(s, m) && !TouchesRows(m.event) && !m.event.BeginEvent?
    ensures ContributionsOk(env, Step(env, s, m))
  {
    RowsFrame(env, s, m);
    RoundsOnlyGrow(env, s, m);
    InflightFrame(env, s, m);
    SameContributions(env, s, Step(env, s, m));
  }

  lemma FinishKeeps(env: Env, s: State, request: nat, check: int, commit: int)
    requires ContributionsOk(env, s) && s.now <= commit
    ensures ContributionsOk(env, HandleFinish(env, s, request, check, commit).0.(now := commit))
  {
    if request in s.inflight {
      var rest := s.(inflight := s.inflight - {request});
      SameContributions(env, s, rest);
      VerifyAndRecordKeeps(env, rest, s.inflight[request], check, commit);
    } else {
      SameContributions(env, s, s.(now := commit));
    }
  }

  /** The contribution invariants hold after every timely run, with any number of handlers suspended. */
  lemma {:induction false} ContributionsAlways(env: Env, start: int, run: seq<Moment>)
    requires TimelyRun(start, run)
    ensures ContributionsOk(env, Play(env, start, run))
  {
    if run != [] {
      var n := |run| - 1;
      ContributionsAlways(env, start, run[..n]);
      PlayIsTimely(env, start, run, n);
      StepKeepsContributions(env, Play(env, start, run[..n]), run[n]);
    }
  }
}
