/**
 What each handler answers and what it does when it succeeds, in terms of the database's fields, with
 everything it leaves alone. A refused request changes nothing, except where noted.
 */
module Answers {
  import opened Wrappers
  import opened Aggregation
  import opened SchemaGate
  import opened Trust
  import opened Attestation
  import opened Store
  import opened Protocol
  import opened Frames
  import opened Lifecycle
  import opened Distribution
  import opened Outcome

  // ---------- Organisations ----------

  /** Only this organisation's row changes, and it changes to this. */
  ghost predicate OnlyOrg(s: State, t: State, org: string, row: Org) {
    && org in t.db.orgs && t.db.orgs[org] == row && t.db.orgs.Keys == s.db.orgs.Keys
    && (forall o | o in s.db.orgs && o != org :: t.db.orgs[o] == s.db.orgs[o])
    && t.db == s.db.(orgs := t.db.orgs) && t == s.(db := t.db, crl := t.crl, signed := t.signed)
  }

  /** Blocking and unblocking succeed for every known organisation, whatever its status, and set just that. */
  lemma StatusIs(env: Env, s: State, m: Moment)
    requires m.event.BlockEvent? || m.event.UnblockEvent?
    ensures var (t, response) := Handle(env, s, m); var org := m.event.org;
      && (org !in s.db.orgs ==> response == Refused(404) && t == s)
      && (org in s.db.orgs ==>
            && response == Done && t.crl == s.crl && t.signed == s.signed
            && OnlyOrg(s, t, org, s.db.orgs[org].(status := if m.event.BlockEvent? then Blocked else Active)))
  {
  }

  lemma RevokeIs(env: Env, s: State, m: Moment)
    requires m.event.RevokeEvent?
    ensures var (t, response) := Handle(env, s, m); var org := m.event.org;
      && (org !in s.db.orgs ==> response == Refused(404) && t == s)
      && (org in s.db.orgs ==>
            && response == Done && t.signed == s.signed
            && OnlyOrg(s, t, org, s.db.orgs[org].(status := Revoked)))
  {
  }

  /** A leave request that an organisation may make of itself. */
  ghost predicate MayLeave(env: Env, s: State, auth: string, org: string, payload: Payload, signature: Signature) {
    && auth == org && org in s.db.orgs && s.db.orgs[org].status != Revoked
    && payload.LeaveRequest? && payload.org == org
    && signature.Hex? && env.crypto.verify(s.db.orgs[org].key, payload, signature.value)
  }

  /** It is then pending, with this very request stored; any other request changes nothing. */
  lemma LeaveIs(env: Env, s: State, m: Moment)
    requires m.event.LeaveEvent?
    ensures var (t, response) := Handle(env, s, m); var e := m.event;
      && (response == Done <==> MayLeave(env, s, e.auth, e.org, e.payload, e.signature))
      && (response == Done ==>
            && t.crl == s.crl && t.signed == s.signed
            && OnlyOrg(s, t, e.org,
                       s.db.orgs[e.org].(status := LeavePending, leave := Some(Signed(e.payload, e.signature)))))
      && (response != Done ==> t == s && response.Refused?)
  {
  }

  /** Approval needs a pending request; it revokes, and stores and signs a confirmation of that moment. */
  lemma ApproveIs(env: Env, s: State, m: Moment)
    requires m.event.ApproveEvent?
    ensures var (t, response) := Handle(env, s, m); var org := m.event.org;
      var confirm := RemovalConfirm(org, m.commit);
      && (response == Done <==> org in s.db.orgs && s.db.orgs[org].status == LeavePending)
      && (response == Done ==>
            && t.signed == s.signed + {confirm}
            && OnlyOrg(s, t, org, s.db.orgs[org].(
                 status := Revoked, removal := Some(Signed(confirm, Hex(env.crypto.sign(confirm)))))))
      && (response != Done ==> t == s && response == Refused(if org in s.db.orgs then 409 else 404))
  {
  }

  // ---------- Rounds ----------

  /**
   A round starts if enough active organisations are invited: all of them, or those among the targets. It
   is announced, under the coordinator's signature, with its number, parameters and exactly these.
   */
  lemma StartIs(env: Env, s: State, m: Moment, invited: set<string>)
    requires m.event.StartEvent?
    requires forall org :: org in invited <==>
               org in s.db.orgs && s.db.orgs[org].status == Active
               && (|m.event.params.targets| == 0 || org in m.event.params.targets)
    ensures var (t, response) := Handle(env, s, m); var p := m.event.params;
      && (response == Done <==> |invited| >= p.minClients)
      && (response == Done ==>
            && t.db.rounds == s.db.rounds + [Round(m.commit, p.window, Running, None, 0, 0, 0, None)]
            && t.signed == s.signed + {RoundAnnouncement(|s.db.rounds|, p.epsilon, p.boostRounds, invited, m.commit)}
            && t == s.(db := s.db.(rounds := t.db.rounds), signed := t.signed))
      && (response != Done ==> t == s && response == Refused(422))
  {
    assert Invited(s.db, m.event.params.targets) == invited;
  }

  /** A challenge is issued to a known organisation for a running round, and lives for 600 seconds. */
  lemma ChallengeIs(env: Env, s: State, m: Moment)
    requires m.event.ChallengeEvent?
    ensures var (t, response) := Handle(env, s, m); var e := m.event;
      && (response == Done <==>
            0 <= e.round < |s.db.rounds| && s.db.rounds[e.round].status == Running
            && e.org in s.db.orgs && e.nonce !in s.db.challenges)
      && (response == Done ==>
            && t.db.challenges == s.db.challenges[e.nonce := Challenge(e.org, e.round, m.commit, m.commit + 600, None)]
            && t == s.(db := s.db.(challenges := t.db.challenges)))
      && (response != Done ==> t == s && response.Refused?)
  {
  }

  // ---------- Contributions ----------

  /** The binding of the attestation to the caller and the address. */
  ghost predicate Bound(u: Upload) {
    && u.payload.Contribution? && u.payload.kind == "fl.contribution.v1"
    && u.payload.org == u.org && u.payload.round == u.round
  }

  ghost predicate OpenFor(db: Database, u: Upload) {
    && 0 <= u.round < |db.rounds| && db.rounds[u.round].status == Running
    && forall i | 0 <= i < |db.rows| && db.rows[i].round == u.round && db.rows[i].org == u.org :: !db.rows[i].accepted
  }

  /** A request gets past the early checks, and is then kept open with what it carries, exactly if bound and open. */
  lemma BeginIs(env: Env, s: State, m: Moment)
    requires m.event.BeginEvent?
    ensures var (t, response) := Handle(env, s, m); var u := m.event.upload;
      && (response == Done <==> m.event.request !in s.inflight && Bound(u) && OpenFor(s.db, u))
      && t == (if response == Done then s.(inflight := s.inflight[m.event.request := u]) else s)
  {
  }

  /** Size, hash and clock agree; none of this looks at the database. */
  ghost predicate Intact(env: Env, u: Upload, check: int)
    requires u.payload.Contribution?
  {
    && |u.model| <= env.maxModelBytes && env.crypto.digest(u.model) == u.payload.modelHash
    && u.payload.submittedAt.Some? && check - 300 <= u.payload.submittedAt.value <= check + 300
  }

  /** What one upload leads to after the await, by how far it gets. */
  ghost predicate RecordsAs(env: Env, s: State, u: Upload, check: int, commit: int, t: State, response: Response)
    requires u.payload.Contribution?
  {
    var nonce, active := u.payload.challenge, u.org in s.db.orgs && s.db.orgs[u.org].status == Active;
    if !Intact(env, u, check) then t == s && response == Refused(if |u.model| > env.maxModelBytes then 413 else 400)
    else if !Consumable(s.db, nonce, u.org, u.round, commit) then t == s && response == Refused(403)
    else
      && t.db.challenges == s.db.challenges[nonce := s.db.challenges[nonce].(consumedAt := Some(commit))]
      && t == s.(db := s.db.(challenges := t.db.challenges, rows := t.db.rows), files := t.files)
      && if !active then t.db.rows == s.db.rows && t.files == s.files && response == Refused(403)
         else if u.signature.NotHex? then t.db.rows == s.db.rows && t.files == s.files && response == Refused(400)
         else AddsRow(env, s, u, commit, t, response,
                      env.crypto.verify(s.db.orgs[u.org].key, u.payload, u.signature.value))
  }

  /** One row is added: rejected without a file, or accepted with one, by whether the signature verifies. */
  ghost predicate AddsRow(env: Env, s: State, u: Upload, commit: int, t: State, response: Response, verified: bool)
    requires u.payload.Contribution?
  {
    var hash := env.crypto.digest(u.model);
    var file := UploadFile(u.round, u.org, if |hash| > 16 then hash[..16] else hash);
    && t.db.rows == s.db.rows + [Row(u.round, u.org, commit, hash, u.payload.numExamples,
                                     if verified then Some(file) else None,
                                     u.payload, u.signature, u.payload.challenge, verified)]
    && t.files == (if verified then s.files[file := u.model] else s.files)
    && response == (if verified then Done else Refused(403))
  }

  /**
   Everything after the await. In particular a signature that does not verify is recorded as a rejected row,
   and nothing else leaves one; a challenge is spent by every upload that gets as far as presenting it.
   */
  lemma RecordingIs(env: Env, s: State, u: Upload, check: int, commit: int)
    requires u.payload.Contribution?
    ensures var (t, response) := VerifyAndRecord(env, s, u, check, commit);
      RecordsAs(env, s, u, check, commit, t, response)
  {
  }

  lemma FinishIs(env: Env, s: State, m: Moment)
    requires m.event.FinishEvent? && m.event.request in s.inflight
    requires s.inflight[m.event.request].payload.Contribution?
    ensures var (t, response) := Handle(env, s, m);
      RecordsAs(env, s.(inflight := s.inflight - {m.event.request}), s.inflight[m.event.request], m.check, m.commit,
                t, response)
  {
    RecordingIs(env, s.(inflight := s.inflight - {m.event.request}), s.inflight[m.event.request], m.check, m.commit);
  }

  // ---------- Aggregation ----------

  /** An aggregation may start once the round's window is over and something was accepted for it. */
  lemma GuardIs(s: State, round: int, check: int)
    ensures AggregateGuard(s, round, check) == Done <==>
      && 0 <= round < |s.db.rounds| && s.db.rounds[round].status == Running
      && s.db.rounds[round].startedAt + s.db.rounds[round].window <= check
      && exists i :: 0 <= i < |s.db.rows| && Listed(s.db.rows[i], round)
  {
    var at := AcceptedForIsExact(s.db.rows, round);
    assert |at| > 0 ==> at[0] in at && Listed(s.db.rows[at[0]], round);
    if i :| 0 <= i < |s.db.rows| && Listed(s.db.rows[i], round) {
      assert i in at;
    }
  }

  /** The accepted count counts the lines that say accepted. */
  lemma AcceptedCountIs(before: seq<ResultRow>, line: ResultRow, after: seq<ResultRow>)
    ensures AcceptedRows([]) == 0
    ensures AcceptedRows(before + [line] + after)
         == AcceptedRows(before) + (if line.accepted then 1 else 0) + AcceptedRows(after)
  {
    AcceptedSplits(before + [line], after);
    AcceptedSplits(before, [line]);
    assert [line][1..] == [];
  }

  lemma {:induction false} AcceptedSplits(a: seq<ResultRow>, b: seq<ResultRow>)
    ensures AcceptedRows(a + b) == AcceptedRows(a) + AcceptedRows(b)
  {
    if a == [] {
      assert a + b == b;
    } else {
      assert (a + b)[0] == a[0] && (a + b)[1..] == a[1..] + b;
      AcceptedSplits(a[1..], b);
    }
  }

  /** What a completed aggregation writes: one staged version that soaks for another window, and the round's figures. */
  ghost predicate StagesRound(env: Env, s: State, m: Moment, t: State, bytes: Bytes, results: seq<ResultRow>)
    requires m.event.AggregateEvent? && HasRound(s.db, m.event.round)
  {
    var r, hash := m.event.round, env.crypto.digest(bytes);
    var round, listed := s.db.rounds[r], |AcceptedFor(s.db.rows, r)|;
    && t.db.versions == s.db.versions + [Version(r, m.commit + round.window, Staged, hash, ModelFile(r), None)]
    && t.db.rounds == s.db.rounds[r := Round(round.startedAt, round.window, Aggregated, None, listed,
                                             AcceptedRows(results), listed - AcceptedRows(results), Some(hash))]
    && t.files == s.files[ModelFile(r) := bytes]
    && t.db.rows == s.db.rows && t.db.challenges == s.db.challenges && t.crl == s.crl && t.inflight == s.inflight
  }

  /** What a completed aggregation is computed from and returns. */
  ghost predicate ComputedFrom(env: Env, s: State, m: Moment, t: State, bytes: Bytes, results: seq<ResultRow>)
    requires m.event.AggregateEvent?
  {
    var j := JudgeRound(env, s, m.event.round, m.event.scorings, m.commit);
    var ranked := Ranking(j.judged);
    && ranked != [] && results == FlipAll(Rows(j.judged), ranked, Canonical(ranked))
    && Merge(Gated(ranked, Canonical(ranked))).Success?
    && bytes == env.dump(Merge(Gated(ranked, Canonical(ranked))).value.model)
    && t.signed == s.signed + j.notices && t.db.orgs == j.db.orgs
  }

  lemma ComputationIs(env: Env, s: State, round: int, scorings: nat -> Scoring, check: int, commit: int)
    requires HandleAggregate(env, s, round, scorings, check, commit).1 == Done
    ensures HasRound(s.db, round)
    ensures var t := HandleAggregate(env, s, round, scorings, check, commit).0;
      var j := JudgeRound(env, s, round, scorings, commit);
      var ranked := Ranking(j.judged);
      && ranked != [] && HasRound(j.db, round) && Merge(Gated(ranked, Canonical(ranked))).Success?
      && var merged := Merge(Gated(ranked, Canonical(ranked))).value;
         t == StageMerged(env, s.(db := j.db, signed := s.signed + j.notices), round, |AcceptedFor(s.db.rows, round)|,
                          merged.model, FlipAll(Rows(j.judged), ranked, Canonical(ranked)), commit)
  {
    AggregateStagesMerge(env, s, round, scorings, check, commit);
  }

  lemma AggregateIs(env: Env, s: State, m: Moment) returns (bytes: Bytes, results: seq<ResultRow>)
    requires m.event.AggregateEvent? && Handle(env, s, m).1 == Done
    ensures HasRound(s.db, m.event.round)
    ensures ComputedFrom(env, s, m, Handle(env, s, m).0, bytes, results)
    ensures StagesRound(env, s, m, Handle(env, s, m).0, bytes, results)
  {
    var e := m.event;
    var j := JudgeRound(env, s, e.round, e.scorings, m.commit);
    var ranked := Ranking(j.judged);
    ComputationIs(env, s, e.round, e.scorings, m.check, m.commit);
    results := FlipAll(Rows(j.judged), ranked, Canonical(ranked));
    var merged := Merge(Gated(ranked, Canonical(ranked))).value.model;
    bytes := env.dump(merged);
    JudgeRoundFrame(env, s, e.round, e.scorings, m.commit);
    StagingIs(env, s, m, j, merged, results);
  }

  lemma StagingIs(env: Env, s: State, m: Moment, j: Judging, merged: Model, results: seq<ResultRow>)
    requires m.event.AggregateEvent? && HasRound(s.db, m.event.round) && JudgedFrom(s, j)
    ensures HasRound(j.db, m.event.round)
    ensures var scored := s.(db := j.db, signed := s.signed + j.notices);
      var listed := |AcceptedFor(s.db.rows, m.event.round)|;
      var t := StageMerged(env, scored, m.event.round, listed, merged, results, m.commit);
      && StagesRound(env, s, m, t, env.dump(merged), results)
      && t.signed == s.signed + j.notices && t.db.orgs == j.db.orgs
  {
  }

  // ---------- Publication and rollback ----------

  /** Version v is live from now on, whatever else was live is archived, and no other field of any version changes. */
  ghost predicate MadeLive(s: Database, t: Database, v: int, now: int) {
    && |t.versions| == |s.versions| && 0 <= v < |s.versions|
    && t.versions[v] == s.versions[v].(stage := Live, promotedAt := Some(now))
    && forall i | 0 <= i < |s.versions| && i != v ::
         t.versions[i] == s.versions[i].(stage := if s.versions[i].stage == Live then Archived else s.versions[i].stage)
  }

  /** Rollback goes to any version that exists and is not staged, and does just that. */
  lemma RollbackIs(env: Env, s: State, m: Moment)
    requires m.event.RollbackEvent?
    ensures var (t, response) := Handle(env, s, m); var v := m.event.version;
      && (response == Done <==> 0 <= v < |s.db.versions| && s.db.versions[v].stage != Staged)
      && (response == Done ==>
            MadeLive(s.db, t.db, v, m.commit) && t == s.(db := s.db.(versions := t.db.versions)))
      && (response != Done ==> t == s && response == Refused(if 0 <= v < |s.db.versions| then 409 else 404))
  {
  }

  /** The latest staged version of a round is v. */
  ghost predicate LatestStaged(db: Database, round: int, v: int) {
    && 0 <= v < |db.versions| && db.versions[v].round == round && db.versions[v].stage == Staged
    && forall i | v < i < |db.versions| :: !(db.versions[i].round == round && db.versions[i].stage == Staged)
  }

  /** Publication takes the round's staged version once its soak is over, and completes the round. */
  lemma PublishIs(env: Env, s: State, m: Moment, v: int)
    requires m.event.PublishEvent?
    requires LatestStaged(s.db, m.event.round, v)
    ensures var (t, response) := Handle(env, s, m); var r := m.event.round;
      && (response == Done <==> 0 <= r < |s.db.rounds| && s.db.versions[v].stagedUntil <= m.check)
      && (response == Done ==>
            && MadeLive(s.db, t.db, v, m.commit)
            && t.db.rounds == s.db.rounds[r := s.db.rounds[r].(status := Completed, completedAt := Some(m.commit))]
            && t == s.(db := s.db.(versions := t.db.versions, rounds := t.db.rounds)))
      && (response != Done ==> t == s && response.Refused?)
  {
    StagedForFinds(s.db.versions, m.event.round);
    assert StagedFor(s.db.versions, m.event.round) == Some(v);
  }

  lemma NothingToPublish(env: Env, s: State, m: Moment)
    requires m.event.PublishEvent? && forall v :: !LatestStaged(s.db, m.event.round, v)
    ensures Handle(env, s, m) == (s, Refused(if 0 <= m.event.round < |s.db.rounds| then 409 else 404))
  {
    StagedForFinds(s.db.versions, m.event.round);
    if StagedFor(s.db.versions, m.event.round).Some? {
      assert LatestStaged(s.db, m.event.round, StagedFor(s.db.versions, m.event.round).value);
    }
  }

  /** After a publication or a rollback, participants that ask are served the version it made live. */
  lemma MadeLiveIsServed(env: Env, start: int, run: seq<Moment>, v: int, now: int)
    requires TimelyRun(start, run) && run != []
    requires var m := run[|run| - 1]; m.event.PublishEvent? || m.event.RollbackEvent?
    requires var s, m := Play(env, start, run[..|run| - 1]), run[|run| - 1];
      && Handle(env, s, m).1 == Done
      && if m.event.RollbackEvent? then m.event.version == v else LatestStaged(s.db, m.event.round, v)
    ensures var s, response := Play(env, start, run), HandleServeLive(env, Play(env, start, run), now).1;
      && 0 <= v < |s.db.versions| && s.db.versions[v].stage == Live
      && (forall i | 0 <= i < |s.db.versions| && i != v :: s.db.versions[i].stage != Live)
      && response.Served? && env.crypto.digest(response.model) == s.db.versions[v].modelHash
      && response.payload == GlobalModel(s.db.versions[v].round, s.db.versions[v].modelHash,
                                         AttestedOrgs(s.db, s.db.versions[v].round), now)
      && response.signature == Hex(env.crypto.sign(response.payload))
  {
    var before, m := Play(env, start, run[..|run| - 1]), run[|run| - 1];
    var s := Play(env, start, run);
    if m.event.RollbackEvent? {
      RollbackIs(env, before, m);
    } else {
      PublishIs(env, before, m, v);
    }
    LifecycleAlways(env, start, run);
    SignedAlways(env, start, run);
    ServedIsLive(env, s, v, now);
  }

  lemma ServedIsLive(env: Env, s: State, v: int, now: int)
    requires LifecycleOk(env, s) && SignedOk(s) && 0 <= v < |s.db.versions| && s.db.versions[v].stage == Live
    ensures var response := HandleServeLive(env, s, now).1;
      && (forall i | 0 <= i < |s.db.versions| && i != v :: s.db.versions[i].stage != Live)
      && response.Served? && env.crypto.digest(response.model) == s.db.versions[v].modelHash
      && response.payload == GlobalModel(s.db.versions[v].round, s.db.versions[v].modelHash,
                                         AttestedOrgs(s.db, s.db.versions[v].round), now)
      && response.signature == Hex(env.crypto.sign(response.payload))
  {
    LiveVersionFinds(s.db.versions);
    forall i | 0 <= i < |s.db.versions| && i != v
      ensures s.db.versions[i].stage != Live
    {
    }
    assert LiveVersion(s.db.versions) == Some(v);
    ServingKeepsSigned(env, s, v, s.db.versions[v].round, now);
  }

  // ---------- Serving ----------

  /**
   In every reachable state a round's model is served exactly if the round is completed, and it is then the
   model of the round's version, signed at that moment for that round.
   */
  lemma RoundIsServedIff(env: Env, start: int, run: seq<Moment>, round: int, now: int)
    requires TimelyRun(start, run)
    ensures var s := Play(env, start, run); var (t, response) := HandleServeRound(env, s, round, now);
      && (response.Served? <==> 0 <= round < |s.db.rounds| && s.db.rounds[round].status == Completed)
      && (!response.Served? ==> t == s && response.Refused?)
      && (response.Served? ==>
            && ModelFile(round) in s.files && response.model == s.files[ModelFile(round)]
            && response.payload == GlobalModel(round, env.crypto.digest(response.model), AttestedOrgs(s.db, round), now)
            && response.signature == Hex(env.crypto.sign(response.payload))
            && t == s.(signed := s.signed + {response.payload}))
  {
    var s := Play(env, start, run);
    LifecycleAlways(env, start, run);
    if HasRound(s.db, round) && s.db.rounds[round].status == Completed {
      assert HasVersion(s.db, round);
      var i :| 0 <= i < |s.db.versions| && s.db.versions[i].round == round;
      assert s.db.versions[i].path == ModelFile(round);
    }
  }

  /** The organisations attested for a round are those of its accepted rows. */
  lemma AttestedIff(env: Env, s: State, round: int, now: int, org: string)
    requires HandleServeRound(env, s, round, now).1.Served?
    ensures org in HandleServeRound(env, s, round, now).1.payload.acceptedOrgs <==>
      exists i | 0 <= i < |s.db.rows| ::
        s.db.rows[i].accepted && s.db.rows[i].round == round && s.db.rows[i].org == org
  {
    if i :| 0 <= i < |s.db.rows| && s.db.rows[i].accepted && s.db.rows[i].round == round && s.db.rows[i].org == org {
      assert s.db.rows[i] in s.db.rows;
    }
  }

  /** A participant accepts a downloaded model exactly if the coordinator's signature holds and the hashes agree. */
  lemma GenuineIff(c: Crypto, model: Bytes, payload: Payload, signature: Signature)
    ensures VerifyGlobalModel(c, model, payload, signature) == Genuine <==>
      && signature.Hex? && c.verify(c.coordinatorKey, payload, signature.value)
      && ((payload.GlobalModel? && payload.modelHash == c.digest(model))
          || (payload.Contribution? && payload.modelHash == c.digest(model)))
  {
  }

  /** A restart forgets the requests that were waiting, and nothing else. */
  lemma RestartIs(env: Env, s: State, m: Moment)
    requires m.event == RestartEvent
    ensures Handle(env, s, m) == (s.(inflight := map[]), Done)
  {
  }
}
