/** Rounds, versions and their files in every reachable state. */
module Lifecycle {
  import opened Trust
  import opened Attestation
  import opened Store
  import opened Protocol
  import opened Frames

  ghost predicate HasVersion(db: Database, round: int) {
    exists i | 0 <= i < |db.versions| :: db.versions[i].round == round
  }

  /**
   A running round has no version, an aggregated one has exactly one and it is staged, and a
   completed one has exactly one and it is live or archived.
   */
  ghost predicate VersionsMatchRounds(db: Database) {
    && (forall i | 0 <= i < |db.versions| ::
          HasRound(db, db.versions[i].round) && db.versions[i].path == ModelFile(db.versions[i].round)
          && db.rounds[db.versions[i].round].status
             == (if db.versions[i].stage == Staged then Aggregated else Completed))
    && (forall i, j | 0 <= i < j < |db.versions| :: db.versions[i].round != db.versions[j].round)
    && (forall r | 0 <= r < |db.rounds| && db.rounds[r].status != Running :: HasVersion(db, r))
  }

  /** At most one version is live, and exactly one as soon as anything was ever published. */
  ghost predicate OneLive(db: Database) {
    && (forall i, j | 0 <= i < j < |db.versions| :: !(db.versions[i].stage == Live && db.versions[j].stage == Live))
    && ((exists i | 0 <= i < |db.versions| :: db.versions[i].stage == Archived)
        ==> exists i | 0 <= i < |db.versions| :: db.versions[i].stage == Live)
  }

  /** Nothing was promoted before its soak ended, and no soak ended before two windows after the round's start. */
  ghost predicate Soaked(s: State) {
    forall i | 0 <= i < |s.db.versions| ::
      var v := s.db.versions[i];
      && HasRound(s.db, v.round)
      && v.stagedUntil >= s.db.rounds[v.round].startedAt + 2 * s.db.rounds[v.round].window
      && (v.stage != Staged ==> v.promotedAt.Some? && v.stagedUntil <= v.promotedAt.value <= s.now)
  }

  /** Every version's file is there and hashes to the recorded hash. */
  ghost predicate FilesMatch(env: Env, s: State) {
    forall i | 0 <= i < |s.db.versions| ::
      var v := s.db.versions[i];
      v.path in s.files && env.crypto.digest(s.files[v.path]) == v.modelHash
  }

  ghost predicate LifecycleOk(env: Env, s: State) {
    VersionsMatchRounds(s.db) && OneLive(s.db) && Soaked(s) && FilesMatch(env, s)
  }

  lemma StartKeeps(env: Env, s: State, params: RoundParams, now: int)
    requires LifecycleOk(env, s) && s.now <= now
    ensures LifecycleOk(env, HandleStart(s, params, now).0.(now := now))
  {
    var t := HandleStart(s, params, now).0;
    forall r | 0 <= r < |t.db.rounds| && t.db.rounds[r].status != Running
      ensures HasVersion(t.db, r)
    {
      assert HasVersion(s.db, r);
      var i :| 0 <= i < |s.db.versions| && s.db.versions[i].round == r;
      assert t.db.versions[i].round == r;
    }
  }

  /** Staging a version for a running round moves the round on and disturbs nothing else. */
  lemma StagingKeepsVersions(s: Database, t: Database, round: int, v: Version)
    requires VersionsMatchRounds(s) && HasRound(s, round) && s.rounds[round].status == Running
    requires t.versions == s.versions + [v] && v.round == round && v.stage == Staged && v.path == ModelFile(round)
    requires |t.rounds| == |s.rounds| && t.rounds[round].status == Aggregated
    requires forall r | 0 <= r < |s.rounds| && r != round :: t.rounds[r] == s.rounds[r]
    ensures VersionsMatchRounds(t)
  {
    var n := |s.versions|;
    assert t.versions[n] == v && forall i | 0 <= i < n :: t.versions[i] == s.versions[i];
    forall r | 0 <= r < |t.rounds| && t.rounds[r].status != Running
      ensures HasVersion(t, r)
    {
      if r == round {
        assert t.versions[n].round == r;
      } else {
        assert HasVersion(s, r);
        var i :| 0 <= i < n && s.versions[i].round == r;
        assert t.versions[i].round == r;
      }
    }
  }

  lemma StagingKeepsLive(s: Database, t: Database, v: Version)
    requires OneLive(s) && t.versions == s.versions + [v] && v.stage == Staged
    ensures OneLive(t)
  {
    var n := |s.versions|;
    assert t.versions[n] == v && forall i | 0 <= i < n :: t.versions[i] == s.versions[i];
    if i :| 0 <= i < |t.versions| && t.versions[i].stage == Archived {
      assert s.versions[i].stage == Archived;
      var k :| 0 <= k < n && s.versions[k].stage == Live;
      assert t.versions[k].stage == Live;
    }
  }

  lemma AggregateKeeps(env: Env, s: State, round: int, scorings: nat -> Scoring, check: int, commit: int)
    requires LifecycleOk(env, s) && s.now <= check <= commit
    ensures LifecycleOk(env, HandleAggregate(env, s, round, scorings, check, commit).0.(now := commit))
  {
    var bytes := AggregateFrame(env, s, round, scorings, check, commit);
    var (t, response) := HandleAggregate(env, s, round, scorings, check, commit);
    if response.Refused? {
      SameLifecycle(env, s, t.(now := commit));
    } else {
      StagedKeeps(env, s, t.(now := commit), round, check, commit, bytes);
    }
  }

  lemma StagedKeeps(env: Env, s: State, t: State, round: int, check: int, commit: int, bytes: Bytes)
    requires LifecycleOk(env, s) && s.now <= check <= commit == t.now
    requires StagedRound(env, s, t.(now := s.now), round, commit, bytes)
    requires s.db.rounds[round].status == Running
    requires s.db.rounds[round].startedAt + s.db.rounds[round].window <= check
    ensures LifecycleOk(env, t)
  {
    var n := |s.db.versions|;
    var v := t.db.versions[n];
    StagingKeepsVersions(s.db, t.db, round, v);
    StagingKeepsLive(s.db, t.db, v);
    forall i | 0 <= i < n
      ensures t.db.versions[i] == s.db.versions[i] && s.db.versions[i].round != round
    {
    }
  }

  /** Only these parts of the state matter here. */
  lemma SameLifecycle(env: Env, s: State, t: State)
    requires LifecycleOk(env, s) && s.now <= t.now
    requires t.db.rounds == s.db.rounds && t.db.versions == s.db.versions && SameModelFiles(s.files, t.files)
    ensures LifecycleOk(env, t)
  {
    forall r | 0 <= r < |t.db.rounds| && t.db.rounds[r].status != Running
      ensures HasVersion(t.db, r)
    {
      assert HasVersion(s.db, r);
    }
  }

  /** t is s with version v live, whatever was live archived, and v's round completed. */
  ghost predicate Promoted(s: Database, t: Database, v: nat, now: int) {
    && v < |s.versions|
    && t.versions == PromoteGlobalModel(s, v, now).versions
    && |t.rounds| == |s.rounds|
    && forall r | 0 <= r < |s.rounds| ::
         && t.rounds[r].startedAt == s.rounds[r].startedAt && t.rounds[r].window == s.rounds[r].window
         && t.rounds[r].status == (if r == s.versions[v].round then Completed else s.rounds[r].status)
  }

  lemma PromotedVersions(s: Database, t: Database, v: nat, now: int)
    requires Promoted(s, t, v, now)
    ensures |t.versions| == |s.versions|
    ensures forall i | 0 <= i < |s.versions| ::
              && t.versions[i].round == s.versions[i].round && t.versions[i].path == s.versions[i].path
              && (t.versions[i].stage == Staged <==> i != v && s.versions[i].stage == Staged)
  {
  }

  lemma PromotingKeepsHaving(s: Database, t: Database, v: nat, now: int)
    requires VersionsMatchRounds(s) && Promoted(s, t, v, now)
    ensures forall r | 0 <= r < |t.rounds| && t.rounds[r].status != Running :: HasVersion(t, r)
  {
    PromotedVersions(s, t, v, now);
    forall r | 0 <= r < |t.rounds| && t.rounds[r].status != Running
      ensures HasVersion(t, r)
    {
      if r == s.versions[v].round {
        assert t.versions[v].round == r;
      } else {
        assert HasVersion(s, r);
        var i :| 0 <= i < |s.versions| && s.versions[i].round == r;
        assert t.versions[i].round == r;
      }
    }
  }

  lemma PromotingKeepsVersions(s: Database, t: Database, v: nat, now: int)
    requires VersionsMatchRounds(s) && Promoted(s, t, v, now)
    ensures VersionsMatchRounds(t)
  {
    PromotedVersions(s, t, v, now);
    PromotingKeepsHaving(s, t, v, now);
    forall i | 0 <= i < |s.versions|
      ensures i != v ==> s.versions[i].round != s.versions[v].round
    {
      if i < v { assert s.versions[i].round != s.versions[v].round; }
      if v < i { assert s.versions[v].round != s.versions[i].round; }
    }
  }

  lemma PromotingKeepsLive(s: Database, t: Database, v: nat, now: int)
    requires Promoted(s, t, v, now)
    ensures OneLive(t) && t.versions[v].stage == Live
  {
    assert t.versions[v].stage == Live;
  }

  /** Promotion of a version whose soak is over, with its round completed. */
  lemma PromoteKeeps(env: Env, s: State, v: nat, now: int, t: State)
    requires LifecycleOk(env, s) && Promoted(s.db, t.db, v, now)
    requires s.db.versions[v].stagedUntil <= now && s.now <= now
    requires t.files == s.files && t.now == now
    ensures LifecycleOk(env, t)
  {
    PromotingKeepsVersions(s.db, t.db, v, now);
    PromotingKeepsLive(s.db, t.db, v, now);
    PromotingKeepsSoak(s, t, v, now);
  }

  lemma PromotingKeepsSoak(s: State, t: State, v: nat, now: int)
    requires Soaked(s) && Promoted(s.db, t.db, v, now)
    requires s.db.versions[v].stagedUntil <= now && s.now <= now == t.now
    ensures Soaked(t)
  {
  }

  lemma PublishKeeps(env: Env, s: State, round: int, check: int, commit: int)
    requires LifecycleOk(env, s) && s.now <= check <= commit
    ensures LifecycleOk(env, HandlePublish(s, round, check, commit).0.(now := commit))
  {
    StagedForFinds(s.db.versions, round);
    var (t, response) := HandlePublish(s, round, check, commit);
    if response.Refused? {
      SameLifecycle(env, s, t.(now := commit));
    } else {
      var v := StagedFor(s.db.versions, round).value;
      PromoteKeeps(env, s, v, commit, t.(now := commit));
    }
  }

  lemma RollbackKeeps(env: Env, s: State, version: int, now: int)
    requires LifecycleOk(env, s) && s.now <= now
    ensures LifecycleOk(env, HandleRollback(s, version, now).0.(now := now))
  {
    var (t, response) := HandleRollback(s, version, now);
    if response.Refused? {
      SameLifecycle(env, s, t.(now := now));
    } else {
      PromoteKeeps(env, s, version, now, t.(now := now));
    }
  }

  lemma OthersKeepLifecycle(env: Env, s: State, m: Moment)
    requires LifecycleOk(env, s) && Timely(s, m) && !TouchesLifecycle(m.event)
    ensures LifecycleOk(env, Step(env, s, m))
  {
    LifecycleFrame(env, s, m);
    SameLifecycle(env, s, Step(env, s, m));
  }

  lemma AggregationKeepsLifecycle(env: Env, s: State, m: Moment)
    requires LifecycleOk(env, s) && Timely(s, m) && m.event.AggregateEvent?
    ensures LifecycleOk(env, Step(env, s, m))
  {
    AggregateKeeps(env, s, m.event.round, m.event.scorings, m.check, m.commit);
    assert Step(env, s, m)
        == HandleAggregate(env, s, m.event.round, m.event.scorings, m.check, m.commit).0.(now := m.commit);
  }

  lemma StartEventKeepsLifecycle(env: Env, s: State, m: Moment)
    requires LifecycleOk(env, s) && Timely(s, m) && m.event.StartEvent?
    ensures LifecycleOk(env, Step(env, s, m))
  {
    StartKeeps(env, s, m.event.params, m.commit);
    assert Step(env, s, m) == HandleStart(s, m.event.params, m.commit).0.(now := m.commit);
  }

  lemma PublicationKeepsLifecycle(env: Env, s: State, m: Moment)
    requires LifecycleOk(env, s) && Timely(s, m) && m.event.PublishEvent?
    ensures LifecycleOk(env, Step(env, s, m))
  {
    PublishKeeps(env, s, m.event.round, m.check, m.commit);
    assert Step(env, s, m) == HandlePublish(s, m.event.round, m.check, m.commit).0.(now := m.commit);
  }

  lemma RollbackEventKeepsLifecycle(env: Env, s: State, m: Moment)
    requires LifecycleOk(env, s) && Timely(s, m) && m.event.RollbackEvent?
    ensures LifecycleOk(env, Step(env, s, m))
  {
    RollbackKeeps(env, s, m.event.version, m.commit);
    assert Step(env, s, m) == HandleRollback(s, m.event.version, m.commit).0.(now := m.commit);
  }

  lemma StepKeepsLifecycle(env: Env, s: State, m: Moment)
    requires LifecycleOk(env, s) && Timely(s, m)
    ensures LifecycleOk(env, Step(env, s, m))
  {
    if !TouchesLifecycle(m.event) {
      OthersKeepLifecycle(env, s, m);
    } else if m.event.AggregateEvent? {
      AggregationKeepsLifecycle(env, s, m);
    } else if m.event.StartEvent? {
      StartEventKeepsLifecycle(env, s, m);
    } else if m.event.PublishEvent? {
      PublicationKeepsLifecycle(env, s, m);
    } else {
      RollbackEventKeepsLifecycle(env, s, m);
    }
  }

  /** The lifecycle invariants hold after every timely run, through any mixture of handlers. */
  lemma {:induction false} LifecycleAlways(env: Env, start: int, run: seq<Moment>)
    requires TimelyRun(start, run)
    ensures LifecycleOk(env, Play(env, start, run))
  {
    if run != [] {
      var n := |run| - 1;
      LifecycleAlways(env, start, run[..n]);
      PlayIsTimely(env, start, run, n);
      StepKeepsLifecycle(env, Play(env, start, run[..n]), run[n]);
    }
  }

  /** Soak: whatever is live or archived was promoted after its own soak, two windows after its round began. */
  lemma NothingPublishedEarly(env: Env, start: int, run: seq<Moment>, i: nat)
    requires TimelyRun(start, run)
    requires i < |Play(env, start, run).db.versions| && Play(env, start, run).db.versions[i].stage != Staged
    ensures var s := Play(env, start, run); var v := s.db.versions[i];
      && HasRound(s.db, v.round) && v.promotedAt.Some?
      && v.promotedAt.value >= v.stagedUntil >= s.db.rounds[v.round].startedAt + 2 * s.db.rounds[v.round].window
  {
    LifecycleAlways(env, start, run);
  }
}
