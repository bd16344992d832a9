/**
 Trust over whole runs of the coordinator: an organisation's persisted scores are exactly what its
 evaluations since its last enrolment make of them, so the bounds on sequences of evaluations hold
 in every reachable state.
 */
module Standing {
  import opened Trust
  import opened Store
  import opened Protocol
  import opened Frames

  /** How the first n rows fared, of those that belong to one organisation and have their file. */
  function Scored(s: State, rows: seq<Row>, scorings: nat -> Scoring, org: string, n: nat): seq<Scoring>
    requires n <= |rows| && AllOnDisk(rows)
  {
    if n == 0 then []
    else
      Scored(s, rows, scorings, org, n - 1)
      + if rows[n - 1].org == org && rows[n - 1].path.value in s.files then [scorings(n - 1)] else []
  }

  /** The evaluations of one organisation in one step. */
  function Evaluated(s: State, m: Moment, org: string): seq<Scoring> {
    if m.event.AggregateEvent? && AggregateGuard(s, m.event.round, m.check) == Done then
      var rows := AcceptedFor(s.db.rows, m.event.round);
      AcceptedForMembers(s.db.rows, m.event.round);
      Scored(s, rows, m.event.scorings, org, |rows|)
    else []
  }

  predicate Reenrolls(s: State, m: Moment, org: string) {
    m.event.EnrollEvent? && m.event.org == org && CanEnroll(s.db, org)
  }

  /** Every evaluation of an organisation in a run since it last enrolled. */
  function History(env: Env, start: int, run: seq<Moment>, org: string): seq<Scoring> {
    if run == [] then []
    else
      var front, m := run[..|run| - 1], run[|run| - 1];
      var s := Play(env, start, front);
      if Reenrolls(s, m, org) then [] else History(env, start, front, org) + Evaluated(s, m, org)
  }

  lemma {:induction false} AfterConcat(s: Scores, a: seq<Scoring>, b: seq<Scoring>)
    ensures After(s, a + b) == After(After(s, a), b)
  {
    if b == [] {
      assert a + b == a;
    } else {
      var front := b[..|b| - 1];
      AfterConcat(s, a, front);
      assert (a + b)[..|a + b| - 1] == a + front;
    }
  }

  lemma JudgeOneFollows(env: Env, s: State, row: Row, scoring: Scoring, now: int, j: Judging, org: string)
    requires row.path.Some? && org in j.db.orgs
    ensures var orgs := JudgeOne(env, s, row, scoring, now, j).db.orgs;
      org in orgs && orgs[org].scores == (if row.org == org && row.path.value in s.files
                                          then NextScores(j.db.orgs[org].scores, scoring) else j.db.orgs[org].scores)
  {
  }

  lemma {:induction false} JudgingFollowsScorings(env: Env, s: State, rows: seq<Row>, scorings: nat -> Scoring,
                                                  now: int, n: nat, org: string)
    requires n <= |rows| && AllOnDisk(rows) && org in s.db.orgs
    ensures var orgs := JudgeFirst(env, s, rows, scorings, now, n).db.orgs;
      org in orgs && orgs[org].scores == After(s.db.orgs[org].scores, Scored(s, rows, scorings, org, n))
  {
    if n > 0 {
      JudgingFollowsScorings(env, s, rows, scorings, now, n - 1, org);
      var before := Scored(s, rows, scorings, org, n - 1);
      JudgeOneFollows(env, s, rows[n - 1], scorings(n - 1), now, JudgeFirst(env, s, rows, scorings, now, n - 1), org);
      Extend(s.db.orgs[org].scores, before, scorings(n - 1));
      assert before + [] == before;
    }
  }

  lemma AggregateFollowsScorings(env: Env, s: State, m: Moment, org: string)
    requires m.event.AggregateEvent? && org in s.db.orgs
    ensures var orgs := HandleAggregate(env, s, m.event.round, m.event.scorings, m.check, m.commit).0.db.orgs;
      org in orgs && orgs[org].scores == After(s.db.orgs[org].scores, Evaluated(s, m, org))
  {
    var round := m.event.round;
    if AggregateGuard(s, round, m.check) == Done {
      var rows := AcceptedFor(s.db.rows, round);
      AcceptedForMembers(s.db.rows, round);
      JudgingFollowsScorings(env, s, rows, m.event.scorings, m.commit, |rows|, org);
    }
  }

  /** Nothing but evaluation and enrolment changes scores. */
  lemma OthersKeepScores(env: Env, s: State, m: Moment, org: string)
    requires !m.event.AggregateEvent? && !m.event.EnrollEvent? && org in Step(env, s, m).db.orgs
    ensures org in s.db.orgs && Step(env, s, m).db.orgs[org].scores == s.db.orgs[org].scores
  {
    if TouchesOrgs(m.event) {
      HandshakeKeepsScores(env, s, m, org);
    } else {
      OrgsFrame(env, s, m);
    }
  }

  lemma HandshakeKeepsScores(env: Env, s: State, m: Moment, org: string)
    requires TouchesOrgs(m.event) && !m.event.EnrollEvent? && org in Step(env, s, m).db.orgs
    ensures org in s.db.orgs && Step(env, s, m).db.orgs[org].scores == s.db.orgs[org].scores
  {
    match m.event
    case BlockEvent(_) =>
    case UnblockEvent(_) =>
    case RevokeEvent(_, _) =>
    case LeaveEvent(_, _, _, _) =>
    case ApproveEvent(_, _) =>
  }

  lemma StepFollowsScorings(env: Env, s: State, m: Moment, org: string)
    requires org in Step(env, s, m).db.orgs
    ensures var scores := Step(env, s, m).db.orgs[org].scores;
      if Reenrolls(s, m, org) then scores == ENROLLED
      else org in s.db.orgs && scores == After(s.db.orgs[org].scores, Evaluated(s, m, org))
  {
    if m.event.AggregateEvent? {
      OrgsFrame(env, s, m);
      AggregateFollowsScorings(env, s, m, org);
    } else if !m.event.EnrollEvent? {
      OthersKeepScores(env, s, m, org);
    }
  }

  /** The persisted scores are those of the organisation's own history, and of nothing else. */
  lemma {:induction false} ScoresFollowHistory(env: Env, start: int, run: seq<Moment>, org: string)
    requires org in Play(env, start, run).db.orgs
    ensures Play(env, start, run).db.orgs[org].scores == After(ENROLLED, History(env, start, run, org))
  {
    var front, m := run[..|run| - 1], run[|run| - 1];
    var s := Play(env, start, front);
    StepFollowsScorings(env, s, m, org);
    if !Reenrolls(s, m, org) {
      ScoresFollowHistory(env, start, front, org);
      AfterConcat(ENROLLED, History(env, start, front, org), Evaluated(s, m, org));
    }
  }

  /**
   In every reachable state trust is in range, and since enrolment there were at most eight
   penalised evaluations plus one for every five accepted ones.
   */
  lemma TrustOverRuns(env: Env, start: int, run: seq<Moment>, org: string)
    requires org in Play(env, start, run).db.orgs
    ensures var history := History(env, start, run, org);
      && 10 <= Play(env, start, run).db.orgs[org].scores.trust <= FULL_TRUST
      && PenalisedIn(ENROLLED, history) <= 8 + AcceptedIn(ENROLLED, history) / 5
  {
    ScoresFollowHistory(env, start, run, org);
    TrustStaysInRange(History(env, start, run, org));
    PoisoningIsAmortised(History(env, start, run, org));
  }

  /** Once below the floor, an organisation's scores change only by enrolling again. */
  lemma {:induction false} ExclusionLasts(env: Env, start: int, run: seq<Moment>, i: nat, j: nat, org: string)
    requires i <= j <= |run|
    requires var orgs := Play(env, start, run[..i]).db.orgs; org in orgs && orgs[org].scores.trust < MIN_TRUST
    requires forall k | i <= k < j :: !Reenrolls(Play(env, start, run[..k]), run[k], org)
    ensures org in Play(env, start, run[..j]).db.orgs
    ensures Play(env, start, run[..j]).db.orgs[org].scores == Play(env, start, run[..i]).db.orgs[org].scores
    decreases j
  {
    if i < j {
      var s := Play(env, start, run[..j - 1]);
      ExclusionLasts(env, start, run, i, j - 1, org);
      PlayStep(env, start, run, j - 1);
      OrganisationsStay(env, s, run[j - 1], org);
      StepFollowsScorings(env, s, run[j - 1], org);
      ExclusionIsAbsorbing(s.db.orgs[org].scores, [], Evaluated(s, run[j - 1], org));
      assert [] + Evaluated(s, run[j - 1], org) == Evaluated(s, run[j - 1], org);
    }
  }

  lemma OrganisationsStay(env: Env, s: State, m: Moment, org: string)
    requires org in s.db.orgs
    ensures org in Step(env, s, m).db.orgs
  {
    if TouchesOrgs(m.event) {
      OrgEventFrame(env, s, m);
    } else {
      OrgsFrame(env, s, m);
    }
  }
}
