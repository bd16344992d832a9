/** From staging to the participant: what is served, signed and accepted. */
module Distribution {
  import opened Trust
  import opened Attestation
  import opened Store
  import opened Protocol
  import opened Frames
  import opened Lifecycle

  // ---------- Versions move forward only ----------

  ghost predicate VersionProgress(a: Version, b: Version) {
    && b.round == a.round && b.modelHash == a.modelHash && b.path == a.path && b.stagedUntil == a.stagedUntil
    && (a.stage != Staged ==> b.stage != Staged)
    && (a.promotedAt.Some? ==> b.promotedAt.Some?)
  }

  ghost predicate VersionsProgress(a: seq<Version>, b: seq<Version>) {
    |a| <= |b| && forall i | 0 <= i < |a| :: VersionProgress(a[i], b[i])
  }

  lemma PromotionMovesVersions(db: Database, v: int, now: int)
    ensures VersionsProgress(db.versions, PromoteGlobalModel(db, v, now).versions)
  {
  }

  lemma PublishMovesVersions(s: State, round: int, check: int, commit: int)
    ensures VersionsProgress(s.db.versions, HandlePublish(s, round, check, commit).0.db.versions)
  {
    if StagedFor(s.db.versions, round).Some? {
      PromotionMovesVersions(s.db, StagedFor(s.db.versions, round).value, commit);
    }
  }

  lemma AggregateMovesVersions(env: Env, s: State, round: int, scorings: nat -> Scoring, check: int, commit: int)
    ensures VersionsProgress(s.db.versions, HandleAggregate(env, s, round, scorings, check, commit).0.db.versions)
  {
    var bytes := AggregateFrame(env, s, round, scorings, check, commit);
  }

  lemma StepMovesVersions(env: Env, s: State, m: Moment)
    ensures VersionsProgress(s.db.versions, Step(env, s, m).db.versions)
  {
    if m.event.AggregateEvent? {
      AggregateMovesVersions(env, s, m.event.round, m.event.scorings, m.check, m.commit);
    } else if m.event.PublishEvent? {
      PublishMovesVersions(s, m.event.round, m.check, m.commit);
    } else if m.event.RollbackEvent? {
      PromotionMovesVersions(s.db, m.event.version, m.commit);
    } else if !m.event.StartEvent? {
      LifecycleFrame(env, s, m);
    }
  }

  lemma ProgressComposes(a: seq<Version>, b: seq<Version>, c: seq<Version>)
    requires VersionsProgress(a, b) && VersionsProgress(b, c)
    ensures VersionsProgress(a, c)
  {
    forall i | 0 <= i < |a|
      ensures VersionProgress(a[i], c[i])
    {
      assert VersionProgress(a[i], b[i]) && VersionProgress(b[i], c[i]);
    }
  }

  lemma {:induction false} VersionsProgressFrom(env: Env, s: State, more: seq<Moment>)
    ensures VersionsProgress(s.db.versions, PlayFrom(env, s, more).db.versions)
    decreases more
  {
    if more != [] {
      var t := Step(env, s, more[0]);
      StepMovesVersions(env, s, more[0]);
      VersionsProgressFrom(env, t, more[1..]);
      ProgressComposes(s.db.versions, t.db.versions, PlayFrom(env, t, more[1..]).db.versions);
    }
  }

  /** Over any run: no version disappears, changes its model, or returns to staged. */
  lemma NoVersionReturnsToStaged(env: Env, start: int, run: seq<Moment>, i: nat, j: nat)
    requires i <= j <= |run|
    ensures VersionsProgress(Play(env, start, run[..i]).db.versions, Play(env, start, run[..j]).db.versions)
  {
    PlaySlice(env, start, run, i, j);
    VersionsProgressFrom(env, Play(env, start, run[..i]), run[i..j]);
  }

  // ---------- What the coordinator signs ----------

  /** A version that was published, with that model. */
  ghost predicate Published(db: Database, i: int, round: int, hash: Digest) {
    0 <= i < |db.versions| && db.versions[i].stage != Staged && db.versions[i].round == round
    && db.versions[i].modelHash == hash
  }

  /** Every model attestation ever signed is for a published version, and no contribution was ever signed. */
  ghost predicate SignedOk(s: State) {
    forall p | p in s.signed ::
      && !p.Contribution?
      && (p.GlobalModel? ==> exists i :: Published(s.db, i, p.round, p.modelHash))
  }

  lemma SignedSurvives(s: State, t: State)
    requires SignedOk(s) && VersionsProgress(s.db.versions, t.db.versions)
    requires forall p | p in t.signed :: p in s.signed || (!p.Contribution? && !p.GlobalModel?)
    ensures SignedOk(t)
  {
    forall p | p in t.signed
      ensures !p.Contribution? && (p.GlobalModel? ==> exists i :: Published(t.db, i, p.round, p.modelHash))
    {
      if p.GlobalModel? {
        var i :| Published(s.db, i, p.round, p.modelHash);
        assert VersionProgress(s.db.versions[i], t.db.versions[i]);
        assert Published(t.db, i, p.round, p.modelHash);
      }
    }
  }

  /** Serving the file of a published version. */
  lemma ServingKeepsSigned(env: Env, s: State, i: nat, round: int, now: int)
    requires SignedOk(s) && LifecycleOk(env, s)
    requires i < |s.db.versions| && s.db.versions[i].stage != Staged && s.db.versions[i].round == round
    ensures var (t, response) := Serve(env, s, round, ModelFile(round), now);
      && SignedOk(t) && t.db == s.db
      && response.Served? && env.crypto.digest(response.model) == s.db.versions[i].modelHash
      && response.payload == GlobalModel(round, s.db.versions[i].modelHash, AttestedOrgs(s.db, round), now)
      && response.signature == Hex(env.crypto.sign(response.payload)) && response.payload in t.signed
  {
    assert s.db.versions[i].path == ModelFile(round);
    assert Published(s.db, i, round, s.db.versions[i].modelHash);
  }

  lemma ServeLiveKeeps(env: Env, s: State, now: int)
    requires SignedOk(s) && LifecycleOk(env, s)
    ensures SignedOk(HandleServeLive(env, s, now).0)
  {
    LiveVersionFinds(s.db.versions);
    if LiveVersion(s.db.versions).Some? {
      var i := LiveVersion(s.db.versions).value;
      ServingKeepsSigned(env, s, i, s.db.versions[i].round, now);
    }
  }

  lemma ServeRoundKeeps(env: Env, s: State, round: int, now: int)
    requires SignedOk(s) && LifecycleOk(env, s)
    ensures SignedOk(HandleServeRound(env, s, round, now).0)
  {
    if HasRound(s.db, round) && s.db.rounds[round].status == Completed {
      assert HasVersion(s.db, round);
      var i :| 0 <= i < |s.db.versions| && s.db.versions[i].round == round;
      ServingKeepsSigned(env, s, i, round, now);
    }
  }

  lemma StepKeepsSigned(env: Env, s: State, m: Moment)
    requires SignedOk(s) && LifecycleOk(env, s)
    ensures SignedOk(Step(env, s, m))
  {
    if m.event.ServeLiveEvent? {
      ServeLiveKeeps(env, s, m.commit);
    } else if m.event.ServeRoundEvent? {
      ServeRoundKeeps(env, s, m.event.round, m.commit);
    } else {
      StepMovesVersions(env, s, m);
      SignedFrame(env, s, m);
      SignedSurvives(s, Step(env, s, m));
    }
  }

  lemma {:induction false} SignedAlways(env: Env, start: int, run: seq<Moment>)
    requires TimelyRun(start, run)
    ensures SignedOk(Play(env, start, run))
  {
    if run != [] {
      var n := |run| - 1;
      SignedAlways(env, start, run[..n]);
      LifecycleAlways(env, start, run[..n]);
      StepKeepsSigned(env, Play(env, start, run[..n]), run[n]);
    }
  }

  // ---------- End to end ----------

  /** A version promoted after its own soak, which ended two windows or more after its round began. */
  ghost predicate SoakedVersion(db: Database, v: Version) {
    && HasRound(db, v.round) && v.promotedAt.Some?
    && v.promotedAt.value >= v.stagedUntil >= db.rounds[v.round].startedAt + 2 * db.rounds[v.round].window
  }

  /** This message verifies under the coordinator's key though the coordinator never signed it. */
  ghost predicate Forgery(env: Env, s: State, payload: Payload, signature: Signature) {
    Verifies(env.crypto, env.crypto.coordinatorKey, payload, signature) && payload !in s.signed
  }

  /**
   However a model reached a participant, if its checks call it genuine then the message presented is
   a forgery, or it attests a round whose version was published, only after its soak, and the model has
   that version's hash: never that of a staged one.
   */
  lemma GenuineModelWasPublished(env: Env, start: int, run: seq<Moment>, model: Bytes, payload: Payload,
                                 signature: Signature)
    returns (i: nat)
    requires TimelyRun(start, run) && !Forgery(env, Play(env, start, run), payload, signature)
    requires VerifyGlobalModel(env.crypto, model, payload, signature) == Genuine
    ensures var s := Play(env, start, run);
      && i < |s.db.versions| && s.db.versions[i].stage != Staged
      && s.db.versions[i].modelHash == env.crypto.digest(model)
      && SoakedVersion(s.db, s.db.versions[i])
      && (payload.GlobalModel? && s.db.versions[i].round == payload.round)
  {
    SignedAlways(env, start, run);
    LifecycleAlways(env, start, run);
    var s := Play(env, start, run);
    assert payload in s.signed;
    var k :| Published(s.db, k, payload.round, payload.modelHash);
    i := k;
  }

  /**
   Once anything was published, every request for the current model is answered, with the one live
   version's model, attested for that version's round, and the participant's checks accept it.
   */
  lemma ServedModelIsGenuine(env: Env, start: int, run: seq<Moment>, now: int)
    returns (i: nat)
    requires TimelyRun(start, run)
    requires var versions := Play(env, start, run).db.versions;
      exists k :: 0 <= k < |versions| && versions[k].stage != Staged
    requires forall p :: env.crypto.verify(env.crypto.coordinatorKey, p, env.crypto.sign(p))
    ensures var s := Play(env, start, run); var response := HandleServeLive(env, s, now).1;
      && i < |s.db.versions| && s.db.versions[i].stage == Live
      && (forall k | 0 <= k < |s.db.versions| && k != i :: s.db.versions[k].stage != Live)
      && response.Served? && env.crypto.digest(response.model) == s.db.versions[i].modelHash
      && response.payload == GlobalModel(s.db.versions[i].round, s.db.versions[i].modelHash,
                                         AttestedOrgs(s.db, s.db.versions[i].round), now)
      && VerifyGlobalModel(env.crypto, response.model, response.payload, response.signature) == Genuine
  {
    SignedAlways(env, start, run);
    LifecycleAlways(env, start, run);
    var s := Play(env, start, run);
    LiveVersionFinds(s.db.versions);
    i := LiveVersion(s.db.versions).value;
    ServingKeepsSigned(env, s, i, s.db.versions[i].round, now);
    var response := HandleServeLive(env, s, now).1;
    assert env.crypto.verify(env.crypto.coordinatorKey, response.payload, env.crypto.sign(response.payload));
    forall k | 0 <= k < |s.db.versions| && k != i
      ensures s.db.versions[k].stage != Live
    {
    }
  }

  // ---------- What was served is no forgery ----------

  lemma {:induction false} SignaturesStay(env: Env, s: State, more: seq<Moment>)
    ensures s.signed <= PlayFrom(env, s, more).signed
    decreases more
  {
    if more != [] {
      SignedFrame(env, s, more[0]);
      SignaturesStay(env, Step(env, s, more[0]), more[1..]);
    }
  }

  lemma ServingSigns(env: Env, s: State, m: Moment)
    requires m.event.ServeLiveEvent? || m.event.ServeRoundEvent?
    requires Handle(env, s, m).1.Served?
    ensures Handle(env, s, m).1.payload in Step(env, s, m).signed
    ensures Handle(env, s, m).1.signature == Hex(env.crypto.sign(Handle(env, s, m).1.payload))
    ensures Handle(env, s, m).1.payload.GlobalModel?
    ensures Handle(env, s, m).1.payload.modelHash == env.crypto.digest(Handle(env, s, m).1.model)
    ensures Handle(env, s, m).1.payload.acceptedOrgs == AttestedOrgs(s.db, Handle(env, s, m).1.payload.round)
  {
  }

  /**
   The two ends together: whatever was served at any moment of a run passes the participant's checks,
   and at every later moment those checks mean what they should, because what was served is no forgery.
   */
  lemma ServedModelWasPublished(env: Env, start: int, run: seq<Moment>, k: nat) returns (i: nat)
    requires TimelyRun(start, run) && k < |run|
    requires run[k].event.ServeLiveEvent? || run[k].event.ServeRoundEvent?
    requires Handle(env, Play(env, start, run[..k]), run[k]).1.Served?
    requires forall p :: env.crypto.verify(env.crypto.coordinatorKey, p, env.crypto.sign(p))
    ensures var s := Play(env, start, run); var served := Handle(env, Play(env, start, run[..k]), run[k]).1;
      && VerifyGlobalModel(env.crypto, served.model, served.payload, served.signature) == Genuine
      && served.payload.GlobalModel? && !Forgery(env, s, served.payload, served.signature)
      && i < |s.db.versions| && s.db.versions[i].stage != Staged
      && s.db.versions[i].modelHash == env.crypto.digest(served.model)
      && s.db.versions[i].round == served.payload.round && SoakedVersion(s.db, s.db.versions[i])
  {
    var before := Play(env, start, run[..k]);
    var served := Handle(env, before, run[k]).1;
    ServingSigns(env, before, run[k]);
    PlayStep(env, start, run, k);
    PlaySlice(env, start, run, k + 1, |run|);
    assert run[..|run|] == run;
    SignaturesStay(env, Play(env, start, run[..k + 1]), run[k + 1..|run|]);
    assert env.crypto.verify(env.crypto.coordinatorKey, served.payload, env.crypto.sign(served.payload));
    i := GenuineModelWasPublished(env, start, run, served.model, served.payload, served.signature);
  }
}
