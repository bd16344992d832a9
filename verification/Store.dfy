/**
 The coordinator's database as a value, and every store operation as a function of it. Round and
 version ids are positions in their tables, which only ever grow.
 */
module Store {
  import opened Wrappers
  import opened Trust
  import opened Attestation

  datatype OrgStatus = Active | Blocked | Revoked | LeavePending

  datatype Signed = Signed(payload: Payload, signature: Signature)

  datatype Org = Org(key: Key, serial: int, status: OrgStatus, scores: Scores,
                     leave: Option<Signed>, removal: Option<Signed>)

  datatype RoundStatus = Running | Aggregated | Completed

  datatype Round = Round(startedAt: int, window: int, status: RoundStatus, completedAt: Option<int>,
                         responded: int, accepted: int, rejected: int, modelHash: Option<Digest>)

  datatype Challenge = Challenge(org: string, round: int, issuedAt: int, expiresAt: int, consumedAt: Option<int>)

  /** Where a file lives: a round's merged model, or one upload (named by 16 digits of its hash). */
  datatype Path = ModelFile(round: int) | UploadFile(round: int, org: string, prefix: string)

  datatype Row = Row(round: int, org: string, receivedAt: int, modelHash: Digest, numExamples: int,
                     path: Option<Path>, payload: Payload, signature: Signature, challenge: string, accepted: bool)

  datatype Stage = Staged | Live | Archived  // Live is the status the code calls 'active'

  datatype Version = Version(round: int, stagedUntil: int, stage: Stage, modelHash: Digest, path: Path,
                             promotedAt: Option<int>)

  datatype Database = Database(orgs: map<string, Org>, rounds: seq<Round>, challenges: map<string, Challenge>,
                               rows: seq<Row>, versions: seq<Version>)

  const EMPTY := Database(map[], [], map[], [], [])

  // ---------- Organisations ----------

  predicate CanEnroll(db: Database, org: string) {
    org !in db.orgs || db.orgs[org].status == Revoked
  }

  /** Replaces the whole row: scores start over, and both halves of a removal are forgotten. */
  function EnrollOrg(db: Database, org: string, key: Key, serial: int): Database {
    db.(orgs := db.orgs[org := Org(key, serial, Active, ENROLLED, None, None)])
  }

  function SetOrgStatus(db: Database, org: string, status: OrgStatus): Database {
    if org in db.orgs then db.(orgs := db.orgs[org := db.orgs[org].(status := status)]) else db
  }

  function SetLeaveRequest(db: Database, org: string, request: Signed): Database {
    if org in db.orgs
    then db.(orgs := db.orgs[org := db.orgs[org].(status := LeavePending, leave := Some(request))])
    else db
  }

  function SetRemovalConfirm(db: Database, org: string, confirmation: Signed): Database {
    if org in db.orgs then db.(orgs := db.orgs[org := db.orgs[org].(removal := Some(confirmation))]) else db
  }

  function SetScores(db: Database, org: string, scores: Scores): Database {
    if org in db.orgs then db.(orgs := db.orgs[org := db.orgs[org].(scores := scores)]) else db
  }

  function ScoresOf(db: Database, org: string): Scores {
    if org in db.orgs then db.orgs[org].scores else ENROLLED
  }

  /** The key of an active organisation. */
  function PublicKeyOf(db: Database, org: string): Option<Key> {
    if org in db.orgs && db.orgs[org].status == Active then Some(db.orgs[org].key) else None
  }

  function RevokedSerials(db: Database): set<int> {
    set org | org in db.orgs && db.orgs[org].status == Revoked :: db.orgs[org].serial
  }

  // ---------- Challenges ----------

  const CHALLENGE_TTL := 600

  function IssueChallenge(db: Database, nonce: string, org: string, round: int, now: int): Database {
    db.(challenges := db.challenges[nonce := Challenge(org, round, now, now + CHALLENGE_TTL, None)])
  }

  datatype ChallengeError = UnknownChallenge | OtherOrg | OtherRound | AlreadyConsumed | Expired | ConsumptionFailed

  /** The condition of the single UPDATE that consumes a challenge. */
  predicate Consumable(db: Database, nonce: string, org: string, round: int, now: int) {
    nonce in db.challenges && (var c := db.challenges[nonce];
      c.org == org && c.round == round && c.consumedAt.None? && c.expiresAt > now)
  }

  function Diagnose(db: Database, nonce: string, org: string, round: int, now: int): ChallengeError {
    if nonce !in db.challenges then UnknownChallenge
    else
      var c := db.challenges[nonce];
      if c.org != org then OtherOrg
      else if c.round != round then OtherRound
      else if c.consumedAt.Some? then AlreadyConsumed
      else if c.expiresAt <= now then Expired
      else ConsumptionFailed
  }

  function ConsumeChallenge(db: Database, nonce: string, org: string, round: int, now: int)
    : (Database, Option<ChallengeError>)
  {
    if Consumable(db, nonce, org, round, now)
    then (db.(challenges := db.challenges[nonce := db.challenges[nonce].(consumedAt := Some(now))]), None)
    else (db, Some(Diagnose(db, nonce, org, round, now)))
  }

  /** The diagnosis after a failed update is always the right one, and its last resort is dead code. */
  lemma DiagnosisIsRight(db: Database, nonce: string, org: string, round: int, now: int)
    ensures var (after, error) := ConsumeChallenge(db, nonce, org, round, now);
      && (error.None? <==> Consumable(db, nonce, org, round, now))
      && (error.Some? ==> after == db && error.value != ConsumptionFailed)
      && (error == Some(UnknownChallenge) <==> nonce !in db.challenges)
      && (error == Some(OtherOrg) <==> nonce in db.challenges && db.challenges[nonce].org != org)
      && (error == Some(OtherRound) <==>
            nonce in db.challenges && db.challenges[nonce].org == org && db.challenges[nonce].round != round)
      && (error == Some(AlreadyConsumed) <==>
            nonce in db.challenges && db.challenges[nonce].org == org && db.challenges[nonce].round == round
            && db.challenges[nonce].consumedAt.Some?)
      && (error == Some(Expired) <==>
            nonce in db.challenges && db.challenges[nonce].org == org && db.challenges[nonce].round == round
            && db.challenges[nonce].consumedAt.None? && db.challenges[nonce].expiresAt <= now)
  {
  }

  // ---------- Contributions ----------

  function RecordContribution(db: Database, row: Row): Database {
    db.(rows := db.rows + [row])
  }

  predicate HasAccepted(db: Database, round: int, org: string) {
    exists i | 0 <= i < |db.rows| :: db.rows[i].accepted && db.rows[i].round == round && db.rows[i].org == org
  }

  /** A round's accepted rows in order of arrival. */
  function AcceptedFor(rows: seq<Row>, round: int): seq<Row> {
    if rows == [] then []
    else
      var last := rows[|rows| - 1];
      AcceptedFor(rows[..|rows| - 1], round)
      + if last.accepted && last.round == round && last.path.Some? then [last] else []
  }

  function AttestedOrgs(db: Database, round: int): set<string> {
    set r | r in db.rows && r.accepted && r.round == round :: r.org
  }

  // ---------- Rounds ----------

  predicate HasRound(db: Database, round: int) {
    0 <= round < |db.rounds|
  }

  function StartRound(db: Database, window: int, now: int): Database {
    db.(rounds := db.rounds + [Round(now, window, Running, None, 0, 0, 0, None)])
  }

  function CompleteRound(db: Database, round: int, responded: int, accepted: int, hash: Digest): Database {
    if !HasRound(db, round) then db
    else db.(rounds := db.rounds[round := db.rounds[round].(
      completedAt := None, status := Aggregated, responded := responded, accepted := accepted,
      rejected := responded - accepted, modelHash := Some(hash))])
  }

  function FinishRound(db: Database, round: int, now: int): Database {
    if !HasRound(db, round) then db
    else db.(rounds := db.rounds[round := db.rounds[round].(status := Completed, completedAt := Some(now))])
  }

  // ---------- Model versions ----------

  function StageGlobalModel(db: Database, round: int, stagedUntil: int, hash: Digest, path: Path): Database {
    db.(versions := db.versions + [Version(round, stagedUntil, Staged, hash, path, None)])
  }

  /** The latest staged version of a round. */
  function StagedFor(versions: seq<Version>, round: int): Option<nat> {
    if versions == [] then None
    else
      var last := versions[|versions| - 1];
      if last.round == round && last.stage == Staged then Some(|versions| - 1)
      else StagedFor(versions[..|versions| - 1], round)
  }

  /** The version being served; Lifecycle.OneLive says there is never a choice. */
  function LiveVersion(versions: seq<Version>): Option<nat> {
    if versions == [] then None
    else if versions[|versions| - 1].stage == Live then Some(|versions| - 1)
    else LiveVersion(versions[..|versions| - 1])
  }

  /** Archives whatever is live, then makes `version` live. */
  function PromoteGlobalModel(db: Database, version: int, now: int): Database {
    if !(0 <= version < |db.versions|) then db
    else db.(versions := seq(|db.versions|, i requires 0 <= i < |db.versions| =>
      if i == version then db.versions[i].(stage := Live, promotedAt := Some(now))
      else if db.versions[i].stage == Live then db.versions[i].(stage := Archived)
      else db.versions[i]))
  }

  lemma {:induction false} StagedForFinds(versions: seq<Version>, round: int)
    ensures match StagedFor(versions, round)
      case Some(i) =>
        && i < |versions| && versions[i].round == round && versions[i].stage == Staged
        && forall k | i < k < |versions| :: !(versions[k].round == round && versions[k].stage == Staged)
      case None => forall i | 0 <= i < |versions| :: !(versions[i].round == round && versions[i].stage == Staged)
  {
    if versions != [] {
      StagedForFinds(versions[..|versions| - 1], round);
    }
  }

  lemma {:induction false} LiveVersionFinds(versions: seq<Version>)
    ensures match LiveVersion(versions)
      case Some(i) =>
        i < |versions| && versions[i].stage == Live && forall k | i < k < |versions| :: versions[k].stage != Live
      case None => forall i | 0 <= i < |versions| :: versions[i].stage != Live
  {
    if versions != [] {
      LiveVersionFinds(versions[..|versions| - 1]);
    }
  }

  lemma {:induction false} AcceptedForMembers(rows: seq<Row>, round: int)
    ensures forall k | 0 <= k < |AcceptedFor(rows, round)| ::
              var r := AcceptedFor(rows, round)[k]; r in rows && r.accepted && r.round == round && r.path.Some?
  {
    if rows != [] {
      AcceptedForMembers(rows[..|rows| - 1], round);
    }
  }

  predicate Listed(r: Row, round: int) {
    r.accepted && r.round == round && r.path.Some?
  }

  /** `list` is what stands in `rows` at the places `at`, which increase and are those of the listed rows. */
  ghost predicate ListedAt(rows: seq<Row>, round: int, list: seq<Row>, at: seq<nat>) {
    && |at| == |list|
    && (forall k | 0 <= k < |at| :: at[k] < |rows| && list[k] == rows[at[k]])
    && (forall k, l | 0 <= k < l < |at| :: at[k] < at[l])
    && (forall i | 0 <= i < |rows| :: Listed(rows[i], round) <==> i in at)
  }

  lemma OneMoreListed(rows: seq<Row>, round: int, list: seq<Row>, at: seq<nat>)
    requires rows != [] && ListedAt(rows[..|rows| - 1], round, list, at) && Listed(rows[|rows| - 1], round)
    ensures ListedAt(rows, round, list + [rows[|rows| - 1]], at + [|rows| - 1])
  {
    var n, more := |rows| - 1, at + [|rows| - 1];
    assert n in more;
    forall i | 0 <= i < n
      ensures Listed(rows[i], round) <==> i in more
    {
      assert rows[..n][i] == rows[i];
    }
  }

  /** The listing has every row of the round that is accepted and has a file, as often as it was recorded, in order. */
  lemma {:induction false} AcceptedForIsExact(rows: seq<Row>, round: int) returns (at: seq<nat>)
    ensures ListedAt(rows, round, AcceptedFor(rows, round), at)
  {
    at := [];
    if rows != [] {
      var n := |rows| - 1;
      at := AcceptedForIsExact(rows[..n], round);
      assert ListedAt(rows[..n], round, AcceptedFor(rows[..n], round), at);
      if Listed(rows[n], round) {
        OneMoreListed(rows, round, AcceptedFor(rows[..n], round), at);
        at := at + [n];
      }
      assert ListedAt(rows, round, AcceptedFor(rows, round), at);
    }
  }
}
