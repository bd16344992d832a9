/**
 What contribution rows are worth: each spends its own challenge once, each accepted one was
 recorded on evidence, and, when the handler is not interleaved with itself, there is one per
 organisation and round and none after the round is closed.
 */
module ContributionTheorems {
  import opened Wrappers
  import opened Trust
  import opened Attestation
  import opened Store
  import opened Protocol
  import opened Frames
  import opened Contributions
  import opened Lifecycle

  // ---------- History only grows ----------

  ghost predicate ChallengeProgress(a: Challenge, b: Challenge) {
    b == a || (a.consumedAt.None? && b.consumedAt.Some? && b == a.(consumedAt := b.consumedAt))
  }

  /** Rows are never rewritten, and a challenge changes at most once, by being consumed. */
  ghost predicate HistoryGrows(a: Database, b: Database) {
    && |a.rows| <= |b.rows| && b.rows[..|a.rows|] == a.rows
    && forall n | n in a.challenges :: n in b.challenges && ChallengeProgress(a.challenges[n], b.challenges[n])
  }

  /** One step adds at most one row, and an accepted one only on evidence. */
  ghost predicate GrowsOnEvidence(env: Env, s: State, t: State) {
    && HistoryGrows(s.db, t.db) && |t.db.rows| <= |s.db.rows| + 1
    && (|t.db.rows| == |s.db.rows| + 1 && t.db.rows[|s.db.rows|].accepted ==> Evidence(env, s, t.db.rows[|s.db.rows|]))
  }

  lemma RecordingGrows(env: Env, s: State, u: Upload, check: int, commit: int)
    requires u.payload.Contribution?
    ensures GrowsOnEvidence(env, s, VerifyAndRecord(env, s, u, check, commit).0)
  {
    VerifyAndRecordEffect(env, s, u, check, commit);
  }

  lemma StepGrows(env: Env, s: State, m: Moment)
    ensures GrowsOnEvidence(env, s, Step(env, s, m))
  {
    match m.event
    case ChallengeEvent(org, round, nonce) =>
    case ContributeEvent(u) => ContributeGrows(env, s, u, m.check, m.commit);
    case FinishEvent(request) => FinishGrows(env, s, request, m.check, m.commit);
    case _ => RowsFrame(env, s, m);
  }

  lemma ContributeGrows(env: Env, s: State, u: Upload, check: int, commit: int)
    ensures GrowsOnEvidence(env, s, HandleContribute(env, s, u, check, commit).0)
  {
    if Precheck(s, u) == Done {
      RecordingGrows(env, s, u, check, commit);
    }
  }

  lemma FinishGrows(env: Env, s: State, request: nat, check: int, commit: int)
    ensures GrowsOnEvidence(env, s, HandleFinish(env, s, request, check, commit).0)
  {
    if request in s.inflight && s.inflight[request].payload.Contribution? {
      RecordingGrows(env, s.(inflight := s.inflight - {request}), s.inflight[request], check, commit);
    }
  }

  lemma HistoryComposes(a: Database, b: Database, c: Database)
    requires HistoryGrows(a, b) && HistoryGrows(b, c)
    ensures HistoryGrows(a, c)
  {
    assert c.rows[..|a.rows|] == c.rows[..|b.rows|][..|a.rows|];
    forall n | n in a.challenges
      ensures n in c.challenges && ChallengeProgress(a.challenges[n], c.challenges[n])
    {
      assert ChallengeProgress(a.challenges[n], b.challenges[n]) && ChallengeProgress(b.challenges[n], c.challenges[n]);
    }
  }

  lemma HistoryStarts(a: Database)
    ensures HistoryGrows(a, a)
  {
  }

  lemma {:induction false} HistoryFrom(env: Env, s: State, more: seq<Moment>)
    ensures HistoryGrows(s.db, PlayFrom(env, s, more).db)
    decreases more
  {
    if more == [] {
      HistoryStarts(s.db);
    } else {
      var t := Step(env, s, more[0]);
      StepGrows(env, s, more[0]);
      HistoryFrom(env, t, more[1..]);
      HistoryComposes(s.db, t.db, PlayFrom(env, t, more[1..]).db);
    }
  }

  lemma HistoryOverRun(env: Env, start: int, run: seq<Moment>, i: nat, j: nat)
    requires i <= j <= |run|
    ensures HistoryGrows(Play(env, start, run[..i]).db, Play(env, start, run[..j]).db)
  {
    PlaySlice(env, start, run, i, j);
    HistoryFrom(env, Play(env, start, run[..i]), run[i..j]);
  }

  /**
   One-shot challenges over any interleaving: a consumed challenge never changes again, no two
   rows spend the same one, and each was issued to the row's organisation and round and
   consumed strictly before it expired.
   */
  lemma ChallengesAreOneShot(env: Env, start: int, run: seq<Moment>, i: nat)
    requires TimelyRun(start, run) && i <= |run|
    ensures var past, now := Play(env, start, run[..i]).db, Play(env, start, run).db;
      && (forall n | n in past.challenges && past.challenges[n].consumedAt.Some? ::
            n in now.challenges && now.challenges[n] == past.challenges[n])
      && (forall n | n in past.challenges :: n in now.challenges
            && now.challenges[n].(consumedAt := None) == past.challenges[n].(consumedAt := None))
      && (forall k, l | 0 <= k < l < |now.rows| :: now.rows[k].challenge != now.rows[l].challenge)
      && (forall k | 0 <= k < |now.rows| :: RowBacked(now.challenges, now.rows[k]))
  {
    assert run[..|run|] == run;
    HistoryOverRun(env, start, run, i, |run|);
    ContributionsAlways(env, start, run);
  }

  /** For every accepted row of any run there is the step that recorded it, and at that step the evidence stood. */
  lemma {:induction false} AcceptedRowHasEvidence(env: Env, start: int, run: seq<Moment>, k: nat) returns (i: nat)
    requires TimelyRun(start, run)
    requires k < |Play(env, start, run).db.rows| && Play(env, start, run).db.rows[k].accepted
    ensures i < |run|
    ensures var row := Play(env, start, run).db.rows[k];
      var before, after := Play(env, start, run[..i]), Play(env, start, run[..i + 1]);
      && |before.db.rows| == k && |after.db.rows| == k + 1 && after.db.rows[k] == row
      && Evidence(env, before, row) && RowAttested(row)
  {
    ContributionsAlways(env, start, run);
    var n := |run| - 1;
    var s := Play(env, start, run[..n]);
    assert run[..n + 1] == run;
    StepGrows(env, s, run[n]);
    if k < |s.db.rows| {
      assert Play(env, start, run).db.rows[..|s.db.rows|][k] == s.db.rows[k];
      i := AcceptedRowHasEvidence(env, start, run[..n], k);
      assert run[..n][..i] == run[..i] && run[..n][..i + 1] == run[..i + 1];
    } else {
      i := n;
    }
  }

  // ---------- One row per organisation and round ----------

  ghost predicate UniqueAccepted(db: Database) {
    forall i, j | 0 <= i < j < |db.rows| && db.rows[i].accepted && db.rows[j].accepted ::
      !(db.rows[i].round == db.rows[j].round && db.rows[i].org == db.rows[j].org)
  }

  /** The guards after the await, read from the database at that time: nothing here refers to the handler's answer. */
  ghost predicate PassesAfterAwait(env: Env, db: Database, u: Upload, check: int, commit: int) {
    && u.payload.Contribution?
    && |u.model| <= env.maxModelBytes && u.payload.modelHash == env.crypto.digest(u.model)
    && u.payload.submittedAt.Some? && check - 300 <= u.payload.submittedAt.value <= check + 300
    && Consumable(db, u.payload.challenge, u.org, u.round, commit)
    && u.org in db.orgs && db.orgs[u.org].status == Active
    && Verifies(env.crypto, db.orgs[u.org].key, u.payload, u.signature)
  }

  /** An upload is recorded as accepted exactly when it passes those guards. */
  lemma RecordsExactlyWhen(env: Env, s: State, u: Upload, check: int, commit: int)
    requires u.payload.Contribution?
    ensures VerifyAndRecord(env, s, u, check, commit).1 == Done <==> PassesAfterAwait(env, s.db, u, check, commit)
  {
  }

  /** Whatever the interleaving, recording keeps uniqueness exactly unless an upload passes beside an accepted row. */
  lemma RecordingKeepsUniqueIff(env: Env, s: State, u: Upload, check: int, commit: int)
    requires u.payload.Contribution? && UniqueAccepted(s.db)
    ensures UniqueAccepted(VerifyAndRecord(env, s, u, check, commit).0.db)
      <==> !(PassesAfterAwait(env, s.db, u, check, commit) && HasAccepted(s.db, u.round, u.org))
  {
    VerifyAndRecordEffect(env, s, u, check, commit);
    RecordsExactlyWhen(env, s, u, check, commit);
    var t := VerifyAndRecord(env, s, u, check, commit).0;
    if PassesAfterAwait(env, s.db, u, check, commit) {
      AppendKeepsUniqueIff(s.db, t.db, RowFor(env, u, true, commit));
    }
  }

  lemma AppendKeepsUniqueIff(s: Database, t: Database, row: Row)
    requires UniqueAccepted(s) && t.rows == s.rows + [row] && row.accepted
    ensures UniqueAccepted(t) <==> !HasAccepted(s, row.round, row.org)
  {
    var n := |s.rows|;
    assert t.rows[n] == row && forall i | 0 <= i < n :: t.rows[i] == s.rows[i];
    if HasAccepted(s, row.round, row.org) {
      var i :| 0 <= i < n && s.rows[i].accepted && s.rows[i].round == row.round && s.rows[i].org == row.org;
      assert t.rows[i].accepted && t.rows[n].accepted;
    }
  }

  /** Rows of the round r that count for aggregation are the same before and after. */
  ghost predicate RoundUntouched(s: Database, t: Database, r: int) {
    AcceptedFor(t.rows, r) == AcceptedFor(s.rows, r) && AttestedOrgs(t, r) == AttestedOrgs(s, r)
  }

  lemma OneMoreRow(s: Database, t: Database, row: Row, r: int)
    requires t.rows == s.rows + [row] && (!row.accepted || row.round != r)
    ensures RoundUntouched(s, t, r)
  {
    assert t.rows[..|t.rows| - 1] == s.rows;
    assert forall x | x in t.rows :: x in s.rows || x == row;
    assert forall x | x in s.rows :: x in t.rows;
  }

  lemma ContributeKeepsUnique(env: Env, s: State, u: Upload, check: int, commit: int)
    requires UniqueAccepted(s.db)
    ensures UniqueAccepted(HandleContribute(env, s, u, check, commit).0.db)
  {
    if Precheck(s, u) == Done {
      RecordingKeepsUniqueIff(env, s, u, check, commit);
    }
  }

  lemma ContributeSparesClosed(env: Env, s: State, u: Upload, check: int, commit: int, r: int)
    requires HasRound(s.db, r) && s.db.rounds[r].status != Running
    ensures RoundUntouched(s.db, HandleContribute(env, s, u, check, commit).0.db, r)
  {
    if Precheck(s, u) == Done {
      VerifyAndRecordEffect(env, s, u, check, commit);
      var t := VerifyAndRecord(env, s, u, check, commit).0;
      if |t.db.rows| == |s.db.rows| + 1 {
        OneMoreRow(s.db, t.db, t.db.rows[|s.db.rows|], r);
      }
    }
  }

  lemma AtomicStepKeeps(env: Env, s: State, m: Moment)
    requires UniqueAccepted(s.db) && !m.event.BeginEvent? && !m.event.FinishEvent?
    ensures UniqueAccepted(Step(env, s, m).db)
    ensures forall r | HasRound(s.db, r) && s.db.rounds[r].status != Running ::
              RoundUntouched(s.db, Step(env, s, m).db, r)
  {
    if m.event.ContributeEvent? {
      ContributeKeepsUnique(env, s, m.event.upload, m.check, m.commit);
      forall r | HasRound(s.db, r) && s.db.rounds[r].status != Running
        ensures RoundUntouched(s.db, Step(env, s, m).db, r)
      {
        ContributeSparesClosed(env, s, m.event.upload, m.check, m.commit, r);
      }
    } else if m.event.ChallengeEvent? {
      IssuingFrame(env, s, m);
    } else {
      RowsFrame(env, s, m);
    }
  }

  /** A resumed request of round r passes the guards after the await. */
  ghost predicate LetThrough(env: Env, s: State, m: Moment, r: int) {
    && m.event.FinishEvent? && m.event.request in s.inflight
    && s.inflight[m.event.request].round == r
    && PassesAfterAwait(env, s.db, s.inflight[m.event.request], m.check, m.commit)
  }

  /** And it does so although its organisation already has an accepted row for the round. */
  ghost predicate Duplicates(env: Env, s: State, m: Moment) {
    && m.event.FinishEvent? && m.event.request in s.inflight
    && var u := s.inflight[m.event.request];
       LetThrough(env, s, m, u.round) && HasAccepted(s.db, u.round, u.org)
  }

  lemma FinishUniqueIff(env: Env, s: State, m: Moment)
    requires m.event.FinishEvent? && UniqueAccepted(s.db)
    ensures UniqueAccepted(Step(env, s, m).db) <==> !Duplicates(env, s, m)
  {
    var request := m.event.request;
    if request in s.inflight && s.inflight[request].payload.Contribution? {
      RecordingKeepsUniqueIff(env, s.(inflight := s.inflight - {request}), s.inflight[request], m.check, m.commit);
    }
  }

  lemma StepUniqueIff(env: Env, s: State, m: Moment)
    ensures UniqueAccepted(Step(env, s, m).db) <==> UniqueAccepted(s.db) && !Duplicates(env, s, m)
  {
    if !UniqueAccepted(s.db) {
      StepGrows(env, s, m);
      assert forall k | 0 <= k < |s.db.rows| :: Step(env, s, m).db.rows[..|s.db.rows|][k] == s.db.rows[k];
    } else if m.event.FinishEvent? {
      FinishUniqueIff(env, s, m);
    } else if m.event.BeginEvent? {
      RowsFrame(env, s, m);
    } else {
      AtomicStepKeeps(env, s, m);
    }
  }

  ghost predicate NeverDuplicates(env: Env, start: int, run: seq<Moment>) {
    run == [] || (var front := run[..|run| - 1];
      NeverDuplicates(env, start, front) && !Duplicates(env, Play(env, start, front), run[|run| - 1]))
  }

  /**
   The exact condition under interleaving: no organisation has two accepted rows for a round if and
   only if no resumed request ever passed the guards after its await beside an accepted row.
   */
  lemma {:induction false} UniqueExactlyWhenRechecked(env: Env, start: int, run: seq<Moment>)
    ensures UniqueAccepted(Play(env, start, run).db)
      <==> NeverDuplicates(env, start, run)
  {
    if run != [] {
      var n := |run| - 1;
      UniqueExactlyWhenRechecked(env, start, run[..n]);
      StepUniqueIff(env, Play(env, start, run[..n]), run[n]);
    }
  }

  /** A round's status never goes back, and its counters are fixed once it is closed. */
  ghost predicate RoundsProgress(s: Database, t: Database) {
    && |s.rounds| <= |t.rounds|
    && forall r | HasRound(s, r) && s.rounds[r].status != Running ::
         && t.rounds[r].status != Running && (s.rounds[r].status == Completed ==> t.rounds[r].status == Completed)
         && t.rounds[r].responded == s.rounds[r].responded && t.rounds[r].accepted == s.rounds[r].accepted
         && t.rounds[r].rejected == s.rounds[r].rejected
  }

  /** A round that is closed gets counters that add up, with `responded` its number of accepted rows. */
  ghost predicate ClosesWithSums(s: Database, t: Database) {
    && |s.rounds| <= |t.rounds|
    && forall r | HasRound(s, r) && s.rounds[r].status == Running && t.rounds[r].status == Aggregated ::
         t.rounds[r].responded == |AcceptedFor(s.rows, r)| == t.rounds[r].accepted + t.rounds[r].rejected
  }

  ghost predicate NewRoundsRun(s: Database, t: Database) {
    forall r | |s.rounds| <= r < |t.rounds| :: t.rounds[r].status == Running
  }

  lemma AggregateMovesRounds(env: Env, s: State, round: int, scorings: nat -> Scoring, check: int, commit: int)
    ensures var t := HandleAggregate(env, s, round, scorings, check, commit).0;
      RoundsProgress(s.db, t.db) && ClosesWithSums(s.db, t.db) && |t.db.rounds| == |s.db.rounds|
  {
    var bytes := AggregateFrame(env, s, round, scorings, check, commit);
  }

  lemma PublishMovesRounds(s: State, round: int, check: int, commit: int)
    ensures var t := HandlePublish(s, round, check, commit).0;
      RoundsProgress(s.db, t.db) && ClosesWithSums(s.db, t.db) && |t.db.rounds| == |s.db.rounds|
  {
  }

  lemma StepMovesRounds(env: Env, s: State, m: Moment)
    ensures RoundsProgress(s.db, Step(env, s, m).db)
    ensures ClosesWithSums(s.db, Step(env, s, m).db)
    ensures NewRoundsRun(s.db, Step(env, s, m).db)
  {
    if m.event.AggregateEvent? {
      AggregateMovesRounds(env, s, m.event.round, m.event.scorings, m.check, m.commit);
    } else if m.event.PublishEvent? {
      PublishMovesRounds(s, m.event.round, m.check, m.commit);
    } else if m.event.StartEvent? {
    } else if m.event.RollbackEvent? {
    } else {
      LifecycleFrame(env, s, m);
    }
  }

  lemma PublishNeedsStaged(s: State, round: int, check: int, commit: int, r: int)
    requires VersionsMatchRounds(s.db) && HasRound(s.db, r) && s.db.rounds[r].status == Running
    ensures HasRound(HandlePublish(s, round, check, commit).0.db, r)
    ensures HandlePublish(s, round, check, commit).0.db.rounds[r].status == Running
  {
    StagedForFinds(s.db.versions, round);
  }

  lemma AggregateStopsShort(env: Env, s: State, round: int, scorings: nat -> Scoring, check: int, commit: int, r: int)
    requires HasRound(s.db, r) && s.db.rounds[r].status == Running
    ensures HasRound(HandleAggregate(env, s, round, scorings, check, commit).0.db, r)
    ensures HandleAggregate(env, s, round, scorings, check, commit).0.db.rounds[r].status != Completed
  {
    var bytes := AggregateFrame(env, s, round, scorings, check, commit);
  }

  /** No step takes a round from running to completed. */
  lemma NoShortcut(env: Env, s: State, m: Moment, r: int)
    requires VersionsMatchRounds(s.db) && HasRound(s.db, r) && s.db.rounds[r].status == Running
    ensures HasRound(Step(env, s, m).db, r) && Step(env, s, m).db.rounds[r].status != Completed
  {
    if m.event.PublishEvent? {
      PublishNeedsStaged(s, m.event.round, m.check, m.commit, r);
    } else if m.event.AggregateEvent? {
      AggregateStopsShort(env, s, m.event.round, m.event.scorings, m.check, m.commit, r);
    } else if m.event.StartEvent? {
    } else if m.event.RollbackEvent? {
    } else {
      LifecycleFrame(env, s, m);
    }
  }

  ghost predicate CountersAdd(db: Database) {
    forall r | HasRound(db, r) && db.rounds[r].status != Running ::
      db.rounds[r].responded == db.rounds[r].accepted + db.rounds[r].rejected
  }

  ghost predicate CountersMatchRows(db: Database) {
    forall r | HasRound(db, r) && db.rounds[r].status != Running :: db.rounds[r].responded == |AcceptedFor(db.rows, r)|
  }

  lemma StepKeepsSums(env: Env, s: State, m: Moment)
    requires VersionsMatchRounds(s.db) && CountersAdd(s.db)
    ensures CountersAdd(Step(env, s, m).db)
  {
    var t := Step(env, s, m);
    StepMovesRounds(env, s, m);
    forall r | HasRound(t.db, r) && t.db.rounds[r].status != Running
      ensures t.db.rounds[r].responded == t.db.rounds[r].accepted + t.db.rounds[r].rejected
    {
      if HasRound(s.db, r) && s.db.rounds[r].status == Running {
        NoShortcut(env, s, m, r);
      }
    }
  }

  lemma AtomicStepKeepsCounters(env: Env, s: State, m: Moment)
    requires VersionsMatchRounds(s.db) && CountersMatchRows(s.db) && UniqueAccepted(s.db)
    requires !m.event.BeginEvent? && !m.event.FinishEvent?
    ensures CountersMatchRows(Step(env, s, m).db)
  {
    var t := Step(env, s, m);
    StepMovesRounds(env, s, m);
    AtomicStepKeeps(env, s, m);
    forall r | HasRound(t.db, r) && t.db.rounds[r].status != Running
      ensures t.db.rounds[r].responded == |AcceptedFor(t.db.rows, r)|
    {
      if HasRound(s.db, r) && s.db.rounds[r].status == Running {
        NoShortcut(env, s, m, r);
        ClosingLeavesRows(env, s, m, r);
      } else {
        assert RoundUntouched(s.db, t.db, r);
      }
    }
  }

  /** The step that closes a round records no contribution. */
  lemma ClosingLeavesRows(env: Env, s: State, m: Moment, r: int)
    requires HasRound(s.db, r) && s.db.rounds[r].status == Running
    requires HasRound(Step(env, s, m).db, r) && Step(env, s, m).db.rounds[r].status != Running
    ensures Step(env, s, m).db.rows == s.db.rows
  {
    if TouchesLifecycle(m.event) {
      RowsFrame(env, s, m);
    } else {
      LifecycleFrame(env, s, m);
    }
  }

  /** Under any interleaving a closed round's numbers add up. */
  lemma {:induction false} CountersAlwaysAdd(env: Env, start: int, run: seq<Moment>)
    requires TimelyRun(start, run)
    ensures CountersAdd(Play(env, start, run).db)
  {
    if run != [] {
      var n := |run| - 1;
      CountersAlwaysAdd(env, start, run[..n]);
      LifecycleAlways(env, start, run[..n]);
      StepKeepsSums(env, Play(env, start, run[..n]), run[n]);
    }
  }

  /** With atomic contributions: one accepted row per organisation and round, and counters that count rows. */
  lemma {:induction false} AtomicAlways(env: Env, start: int, run: seq<Moment>)
    requires TimelyRun(start, run) && AtomicRun(run)
    ensures UniqueAccepted(Play(env, start, run).db) && CountersMatchRows(Play(env, start, run).db)
  {
    if run != [] {
      var n := |run| - 1;
      var s := Play(env, start, run[..n]);
      AtomicAlways(env, start, run[..n]);
      LifecycleAlways(env, start, run[..n]);
      AtomicStepKeeps(env, s, run[n]);
      AtomicStepKeepsCounters(env, s, run[n]);
    }
  }

  /** Neither the rows nor the counters of the closed round r change. */
  ghost predicate StaysClosed(past: Database, now: Database, r: int)
    requires HasRound(past, r)
  {
    && RoundUntouched(past, now, r)
    && HasRound(now, r) && now.rounds[r].status != Running
    && now.rounds[r].responded == past.rounds[r].responded
    && now.rounds[r].accepted == past.rounds[r].accepted && now.rounds[r].rejected == past.rounds[r].rejected
  }

  lemma StepStaysClosed(env: Env, s: State, m: Moment, r: int)
    requires UniqueAccepted(s.db) && !m.event.BeginEvent? && !m.event.FinishEvent?
    requires HasRound(s.db, r) && s.db.rounds[r].status != Running
    ensures StaysClosed(s.db, Step(env, s, m).db, r)
  {
    AtomicStepKeeps(env, s, m);
    StepMovesRounds(env, s, m);
  }

  lemma {:induction false} ClosedRoundUntouched(env: Env, start: int, run: seq<Moment>, i: nat, j: nat, r: int)
    requires TimelyRun(start, run) && AtomicRun(run) && i <= j <= |run|
    requires HasRound(Play(env, start, run[..i]).db, r) && Play(env, start, run[..i]).db.rounds[r].status != Running
    ensures StaysClosed(Play(env, start, run[..i]).db, Play(env, start, run[..j]).db, r)
    decreases j
  {
    if i < j {
      var s := Play(env, start, run[..j - 1]);
      ClosedRoundUntouched(env, start, run, i, j - 1, r);
      PlayStep(env, start, run, j - 1);
      AtomicAlways(env, start, run[..j - 1]);
      StepStaysClosed(env, s, run[j - 1], r);
    }
  }

  /**
   Once a round has left 'running' its accepted rows, the organisations attested for it and its
   counters never change again, and responded = accepted + rejected = the number of its rows.
   */
  lemma ClosedRoundIsFrozen(env: Env, start: int, run: seq<Moment>, i: nat, r: int)
    requires TimelyRun(start, run) && AtomicRun(run) && i <= |run|
    requires HasRound(Play(env, start, run[..i]).db, r) && Play(env, start, run[..i]).db.rounds[r].status != Running
    ensures var past, now := Play(env, start, run[..i]).db, Play(env, start, run).db;
      && AcceptedFor(now.rows, r) == AcceptedFor(past.rows, r) && AttestedOrgs(now, r) == AttestedOrgs(past, r)
      && HasRound(now, r) && now.rounds[r].status != Running
      && now.rounds[r].responded == now.rounds[r].accepted + now.rounds[r].rejected == |AcceptedFor(now.rows, r)|
      && now.rounds[r].accepted == past.rounds[r].accepted && now.rounds[r].rejected == past.rounds[r].rejected
  {
    assert run[..|run|] == run;
    ClosedRoundUntouched(env, start, run, i, |run|, r);
    AtomicAlways(env, start, run);
    CountersAlwaysAdd(env, start, run);
  }

  /** Accepted rows that are filed under one name: of one organisation and round, and alike in 16 digits of the hash. */
  ghost predicate SameName(a: Row, b: Row) {
    && a.accepted && b.accepted && a.round == b.round && a.org == b.org
    && HashPrefix(a.modelHash) == HashPrefix(b.modelHash)
  }

  /** Two such rows whose hashes differ. */
  ghost predicate PrefixCollision(rows: seq<Row>, i: nat, k: nat) {
    i < |rows| && k < |rows| && SameName(rows[i], rows[k]) && rows[i].modelHash != rows[k].modelHash
  }

  /** Row i is the last one filed under the name of row k. */
  ghost predicate LastOfName(rows: seq<Row>, i: nat, k: nat) {
    k <= i < |rows| && SameName(rows[i], rows[k]) && forall l | i < l < |rows| :: !SameName(rows[l], rows[k])
  }

  /** The file of an accepted row, and whether it is what the row attests. */
  ghost predicate FileMatches(env: Env, s: State, row: Row) {
    && row.path.Some? && row.path.value in s.files && row.payload.Contribution?
    && env.crypto.digest(s.files[row.path.value]) == row.modelHash == row.payload.modelHash
  }

  /**
   Under every interleaving the bytes on disk for an accepted row are those of the last row filed under
   its name; so they are what its organisation attested exactly if that row has the same hash.
   */
  lemma StoredBytesAreAttested(env: Env, start: int, run: seq<Moment>, k: nat) returns (i: nat)
    requires TimelyRun(start, run)
    requires k < |Play(env, start, run).db.rows| && Play(env, start, run).db.rows[k].accepted
    ensures var s := Play(env, start, run); var row := s.db.rows[k];
      && LastOfName(s.db.rows, i, k) && FileMatches(env, s, s.db.rows[i]) && s.db.rows[i].path == row.path
      && (FileMatches(env, s, row) <==> s.db.rows[i].modelHash == row.modelHash)
  {
    var s := Play(env, start, run);
    ContributionsAlways(env, start, run);
    i := LastFiledIsLastOfName(env, s, k);
  }

  lemma LastFiledIsLastOfName(env: Env, s: State, k: nat) returns (i: nat)
    requires RowsOk(s) && UploadsOk(env, s) && k < |s.db.rows| && s.db.rows[k].accepted
    ensures LastOfName(s.db.rows, i, k) && s.db.rows[i].path == s.db.rows[k].path
    ensures FileMatches(env, s, s.db.rows[i])
    ensures FileMatches(env, s, s.db.rows[k]) <==> s.db.rows[i].modelHash == s.db.rows[k].modelHash
  {
    var rows := s.db.rows;
    assert RowAttested(rows[k]);
    var p := rows[k].path.value;
    LastFiledFinds(rows, p);
    assert FileIsLatest(env, s.files, rows, p);
    i := LastFiled(rows, p).value;
    assert RowAttested(rows[i]);
    forall l | i < l < |rows|
      ensures !SameName(rows[l], rows[k])
    {
      assert RowAttested(rows[l]);
    }
  }

  /** All files are what their rows attest exactly when no two accepted rows collide in 16 digits. */
  lemma AllBytesAttestedIff(env: Env, start: int, run: seq<Moment>)
    requires TimelyRun(start, run)
    ensures var s := Play(env, start, run);
      (forall k | 0 <= k < |s.db.rows| && s.db.rows[k].accepted :: FileMatches(env, s, s.db.rows[k]))
      <==> forall i: nat, k: nat :: !PrefixCollision(s.db.rows, i, k)
  {
    var s := Play(env, start, run);
    var rows := s.db.rows;
    ContributionsAlways(env, start, run);
    if i: nat, k: nat :| PrefixCollision(rows, i, k) {
      assert RowAttested(rows[i]) && RowAttested(rows[k]);
      assert !FileMatches(env, s, rows[i]) || !FileMatches(env, s, rows[k]);
    } else {
      forall k | 0 <= k < |rows| && rows[k].accepted
        ensures FileMatches(env, s, rows[k])
      {
        var i := LastFiledIsLastOfName(env, s, k);
        assert !PrefixCollision(rows, i, k);
      }
    }
  }

  lemma UniqueMeansNoCollision(db: Database, i: nat, k: nat)
    requires UniqueAccepted(db)
    ensures !PrefixCollision(db.rows, i, k)
  {
  }

  /** With atomic contributions there is nothing to collide with. */
  lemma AtomicBytesAreAttested(env: Env, start: int, run: seq<Moment>, k: nat)
    requires TimelyRun(start, run) && AtomicRun(run)
    requires k < |Play(env, start, run).db.rows| && Play(env, start, run).db.rows[k].accepted
    ensures FileMatches(env, Play(env, start, run), Play(env, start, run).db.rows[k])
  {
    AtomicAlways(env, start, run);
    var i := StoredBytesAreAttested(env, start, run, k);
    UniqueMeansNoCollision(Play(env, start, run).db, i, k);
  }

  // ---------- Closed rounds under interleaving ----------

  ghost predicate SameCounters(past: Database, now: Database, r: int)
    requires HasRound(past, r)
  {
    && HasRound(now, r) && now.rounds[r].status != Running
    && now.rounds[r].responded == past.rounds[r].responded
    && now.rounds[r].accepted == past.rounds[r].accepted && now.rounds[r].rejected == past.rounds[r].rejected
  }

  lemma OneMoreAccepted(s: Database, t: Database, row: Row)
    requires t.rows == s.rows + [row] && row.accepted && row.path.Some?
    ensures AcceptedFor(t.rows, row.round) == AcceptedFor(s.rows, row.round) + [row]
    ensures forall r | r != row.round :: RoundUntouched(s, t, r)
  {
    assert t.rows[..|t.rows| - 1] == s.rows;
    forall r | r != row.round
      ensures RoundUntouched(s, t, r)
    {
      OneMoreRow(s, t, row, r);
    }
  }

  /** What one resumed request does to a round's accepted rows. */
  lemma FinishMovesRound(env: Env, s: State, m: Moment, r: int)
    requires m.event.FinishEvent?
    ensures var t := Step(env, s, m);
      && AcceptedFor(s.db.rows, r) <= AcceptedFor(t.db.rows, r)
      && |AcceptedFor(t.db.rows, r)| == |AcceptedFor(s.db.rows, r)| + if LetThrough(env, s, m, r) then 1 else 0
  {
    var request := m.event.request;
    if request in s.inflight && s.inflight[request].payload.Contribution? {
      var u, rest := s.inflight[request], s.(inflight := s.inflight - {request});
      var t := VerifyAndRecord(env, rest, u, m.check, m.commit).0;
      VerifyAndRecordEffect(env, rest, u, m.check, m.commit);
      RecordsExactlyWhen(env, rest, u, m.check, m.commit);
      if PassesAfterAwait(env, s.db, u, m.check, m.commit) {
        OneMoreAccepted(s.db, t.db, RowFor(env, u, true, m.commit));
      } else if t.db.rows != s.db.rows {
        OneMoreRow(s.db, t.db, RowFor(env, u, false, m.commit), r);
      }
    }
  }

  /** What any step does to the accepted rows of a round that is closed. */
  lemma StepMovesClosedRound(env: Env, s: State, m: Moment, r: int)
    requires HasRound(s.db, r) && s.db.rounds[r].status != Running
    ensures var t := Step(env, s, m);
      && AcceptedFor(s.db.rows, r) <= AcceptedFor(t.db.rows, r)
      && |AcceptedFor(t.db.rows, r)| == |AcceptedFor(s.db.rows, r)| + if LetThrough(env, s, m, r) then 1 else 0
  {
    if m.event.FinishEvent? {
      FinishMovesRound(env, s, m, r);
    } else if m.event.ContributeEvent? {
      ContributeSparesClosed(env, s, m.event.upload, m.check, m.commit, r);
    } else if m.event.ChallengeEvent? {
      IssuingFrame(env, s, m);
    } else {
      RowsFrame(env, s, m);
    }
  }

  /** How many requests of round r are let through in `more`, played from state s. */
  ghost function LateIn(env: Env, s: State, more: seq<Moment>, r: int): nat
    decreases more
  {
    if more == [] then 0
    else (if LetThrough(env, s, more[0], r) then 1 else 0) + LateIn(env, Step(env, s, more[0]), more[1..], r)
  }

  /** The closed round r has that many accepted rows more, and is otherwise the same. */
  ghost predicate ClosedRoundGrows(past: Database, now: Database, r: int, late: nat)
    requires HasRound(past, r)
  {
    && SameCounters(past, now, r)
    && |AcceptedFor(now.rows, r)| == |AcceptedFor(past.rows, r)| + late
    && AcceptedFor(past.rows, r) <= AcceptedFor(now.rows, r)
  }

  lemma ClosedRoundStep(env: Env, s: State, m: Moment, r: int)
    requires HasRound(s.db, r) && s.db.rounds[r].status != Running
    ensures ClosedRoundGrows(s.db, Step(env, s, m).db, r, if LetThrough(env, s, m, r) then 1 else 0)
  {
    StepMovesClosedRound(env, s, m, r);
    StepMovesRounds(env, s, m);
  }

  lemma ClosedRoundComposes(a: Database, b: Database, c: Database, r: int, k: nat, l: nat)
    requires HasRound(a, r) && ClosedRoundGrows(a, b, r, k) && ClosedRoundGrows(b, c, r, l)
    ensures ClosedRoundGrows(a, c, r, k + l)
  {
  }

  lemma {:induction false} GrowsByLate(env: Env, s: State, more: seq<Moment>, r: int)
    requires HasRound(s.db, r) && s.db.rounds[r].status != Running
    ensures ClosedRoundGrows(s.db, PlayFrom(env, s, more).db, r, LateIn(env, s, more, r))
    decreases more
  {
    if more != [] {
      var t, late := Step(env, s, more[0]), if LetThrough(env, s, more[0], r) then 1 else 0;
      ClosedRoundStep(env, s, more[0], r);
      GrowsByLate(env, t, more[1..], r);
      ClosedRoundComposes(s.db, t.db, PlayFrom(env, t, more[1..]).db, r, late, LateIn(env, t, more[1..], r));
    }
  }

  /**
   A round that is closed after `run`, under any interleaving: whatever more happens, its counters
   never change, and its accepted rows grow by exactly the requests of that round, suspended before it
   closed, that are let through afterwards. So they are frozen if and only if there is no such request.
   */
  lemma ClosedRoundGrowsByLate(env: Env, start: int, run: seq<Moment>, more: seq<Moment>, r: int)
    requires HasRound(Play(env, start, run).db, r) && Play(env, start, run).db.rounds[r].status != Running
    ensures ClosedRoundGrows(Play(env, start, run).db, Play(env, start, run + more).db, r,
                             LateIn(env, Play(env, start, run), more, r))
  {
    PlayContinues(env, start, run, more);
    GrowsByLate(env, Play(env, start, run), more, r);
  }

  // ---------- Acceptance ----------

  /** Everything the verification chain is there to establish about one upload. */
  ghost predicate Admissible(env: Env, s: State, u: Upload, check: int, commit: int) {
    && u.payload.Contribution? && u.payload.kind == CONTRIBUTION_KIND
    && u.payload.org == u.org && u.payload.round == u.round
    && HasRound(s.db, u.round) && s.db.rounds[u.round].status == Running
    && PassesAfterAwait(env, s.db, u, check, commit)
    && !HasAccepted(s.db, u.round, u.org)
  }

  /** How many rows of a round and organisation are accepted. */
  function AcceptedCount(rows: seq<Row>, round: int, org: string): nat {
    if rows == [] then 0
    else
      var last := rows[|rows| - 1];
      AcceptedCount(rows[..|rows| - 1], round, org)
      + if last.accepted && last.round == round && last.org == org then 1 else 0
  }

  /** An upload is accepted exactly when it is admissible, and only then is there one accepted row more. */
  lemma AcceptedExactlyWhen(env: Env, s: State, u: Upload, check: int, commit: int)
    ensures var (t, response) := HandleContribute(env, s, u, check, commit);
      && (response == Done <==> Admissible(env, s, u, check, commit))
      && AcceptedCount(t.db.rows, u.round, u.org)
         == AcceptedCount(s.db.rows, u.round, u.org) + if Admissible(env, s, u, check, commit) then 1 else 0
  {
    if Precheck(s, u) == Done {
      RecordsExactlyWhen(env, s, u, check, commit);
      VerifyAndRecordEffect(env, s, u, check, commit);
      var t := HandleContribute(env, s, u, check, commit).0;
      if t.db.rows != s.db.rows {
        assert t.db.rows[..|t.db.rows| - 1] == s.db.rows;
      }
    }
  }

  /**
   A contribution built by the reference client is accepted whenever the round runs, the
   organisation is active with the matching key and has nothing accepted yet, its challenge is
   fresh, the clocks agree within five minutes and the file is not too large.
   */
  lemma HonestContributionIsAccepted(env: Env, s: State, orgSign: Payload -> string, org: string, round: int,
                                     model: Bytes, examples: int, nonce: string, sent: int, check: int, commit: int)
    requires HasRound(s.db, round) && s.db.rounds[round].status == Running && !HasAccepted(s.db, round, org)
    requires org in s.db.orgs && s.db.orgs[org].status == Active
    requires forall p :: env.crypto.verify(s.db.orgs[org].key, p, orgSign(p))
    requires Consumable(s.db, nonce, org, round, commit)
    requires Drift(check, sent) <= 300 && |model| <= env.maxModelBytes
    ensures var (payload, signature) :=
        BuildSignedContribution(env.crypto, orgSign, round, org, model, examples, nonce, sent);
      var (t, response) := HandleContribute(env, s, Upload(org, round, payload, signature, model), check, commit);
      && response == Done && HasAccepted(t.db, round, org)
      && !Consumable(t.db, nonce, org, round, commit)
  {
    var (payload, signature) := BuildSignedContribution(env.crypto, orgSign, round, org, model, examples, nonce, sent);
    var u := Upload(org, round, payload, signature, model);
    assert env.crypto.verify(s.db.orgs[org].key, payload, orgSign(payload));
    VerifyAndRecordEffect(env, s, u, check, commit);
    var t := HandleContribute(env, s, u, check, commit).0;
    assert t.db.rows[|s.db.rows|] == RowFor(env, u, true, commit);
  }
}
