/** The removal handshake and the revocation list in every reachable state. */
module Membership {
  import opened Wrappers
  import opened Trust
  import opened Attestation
  import opened Store
  import opened Protocol
  import opened Frames

  /** A leave request that verifies under the key the organisation has now. */
  ghost predicate LeaveSigned(env: Env, org: string, o: Org) {
    && o.leave.Some? && o.leave.value.payload.LeaveRequest? && o.leave.value.payload.org == org
    && Verifies(env.crypto, o.key, o.leave.value.payload, o.leave.value.signature)
  }

  /**
   A pending removal has a signed request; a confirmed removal has one too, and the confirmation
   carries the coordinator's signature.
   */
  ghost predicate PapersInOrder(env: Env, signed: set<Payload>, org: string, o: Org) {
    && (o.status == LeavePending ==> LeaveSigned(env, org, o))
    && (o.leave.Some? ==> LeaveSigned(env, org, o))
    && (o.removal.Some? ==>
          && LeaveSigned(env, org, o)
          && o.removal.value.payload.RemovalConfirm? && o.removal.value.payload.org == org
          && o.removal.value.signature == Hex(env.crypto.sign(o.removal.value.payload))
          && o.removal.value.payload in signed)
  }

  ghost predicate HandshakeOk(env: Env, s: State) {
    forall org | org in s.db.orgs :: PapersInOrder(env, s.signed, org, s.db.orgs[org])
  }

  lemma SamePapers(env: Env, s: State, t: State)
    requires HandshakeOk(env, s) && SameButScores(s.db.orgs, t.db.orgs) && s.signed <= t.signed
    ensures HandshakeOk(env, t)
  {
    forall org | org in t.db.orgs
      ensures PapersInOrder(env, t.signed, org, t.db.orgs[org])
    {
      assert PapersInOrder(env, s.signed, org, s.db.orgs[org]);
    }
  }

  lemma OrgEventKeepsHandshake(env: Env, s: State, m: Moment)
    requires HandshakeOk(env, s) && TouchesOrgs(m.event)
    ensures HandshakeOk(env, Step(env, s, m))
  {
    match m.event
    case EnrollEvent(_, _, _) =>
    case BlockEvent(_) =>
    case UnblockEvent(_) =>
    case RevokeEvent(_, _) =>
    case LeaveEvent(auth, org, payload, signature) =>
      LeaveKeepsHandshake(env, s, auth, org, payload, signature);
    case ApproveEvent(org, crlSucceeds) =>
      ApproveKeepsHandshake(env, s, org, crlSucceeds, m.commit);
  }

  lemma LeaveKeepsHandshake(env: Env, s: State, auth: string, org: string, payload: Payload, signature: Signature)
    requires HandshakeOk(env, s)
    ensures HandshakeOk(env, HandleLeave(env, s, auth, org, payload, signature).0)
  {
  }

  lemma ApproveKeepsHandshake(env: Env, s: State, org: string, crlSucceeds: bool, now: int)
    requires HandshakeOk(env, s)
    ensures HandshakeOk(env, HandleApprove(env, s, org, crlSucceeds, now).0)
  {
  }

  lemma StepKeepsHandshake(env: Env, s: State, m: Moment)
    requires HandshakeOk(env, s)
    ensures HandshakeOk(env, Step(env, s, m))
  {
    if TouchesOrgs(m.event) {
      OrgEventKeepsHandshake(env, s, m);
    } else {
      OrgsFrame(env, s, m);
      SignedFrame(env, s, m);
      SamePapers(env, s, Step(env, s, m));
    }
  }

  /** No run leads to a pending or confirmed removal without a request that verifies under the current key. */
  lemma {:induction false} HandshakeAlways(env: Env, start: int, run: seq<Moment>)
    ensures HandshakeOk(env, Play(env, start, run))
  {
    if run != [] {
      var n := |run| - 1;
      HandshakeAlways(env, start, run[..n]);
      StepKeepsHandshake(env, Play(env, start, run[..n]), run[n]);
    }
  }

  /**
   A key or serial changes only by re-enrolling a revoked organisation; and re-enrolling, with whatever
   key, forgets both papers and the scores.
   */
  ghost predicate KeysStand(s: State, t: State, m: Moment, org: string)
    requires org in s.db.orgs
  {
    && org in t.db.orgs
    && var before, after := s.db.orgs[org], t.db.orgs[org];
       if m.event.EnrollEvent? && m.event.org == org && before.status == Revoked
       then after == Org(m.event.key, m.event.serial, Active, ENROLLED, None, None)
       else after.key == before.key && after.serial == before.serial
  }

  lemma OrgEventKeepsKeys(env: Env, s: State, m: Moment, org: string)
    requires org in s.db.orgs && TouchesOrgs(m.event)
    ensures KeysStand(s, Handle(env, s, m).0, m, org)
  {
    match m.event
    case EnrollEvent(_, _, _) =>
    case BlockEvent(_) =>
    case UnblockEvent(_) =>
    case RevokeEvent(_, _) =>
    case LeaveEvent(auth, leaving, payload, signature) =>
      LeaveKeepsKeys(env, s, auth, leaving, payload, signature, org);
    case ApproveEvent(removed, crlSucceeds) =>
      ApproveKeepsKeys(env, s, removed, crlSucceeds, m.commit, org);
  }

  ghost predicate SameKey(s: State, t: State, org: string)
    requires org in s.db.orgs
  {
    org in t.db.orgs && t.db.orgs[org].key == s.db.orgs[org].key && t.db.orgs[org].serial == s.db.orgs[org].serial
  }

  lemma LeaveKeepsKeys(env: Env, s: State, auth: string, leaving: string, payload: Payload, signature: Signature,
                       org: string)
    requires org in s.db.orgs
    ensures SameKey(s, HandleLeave(env, s, auth, leaving, payload, signature).0, org)
  {
  }

  lemma ApproveKeepsKeys(env: Env, s: State, removed: string, crlSucceeds: bool, now: int, org: string)
    requires org in s.db.orgs
    ensures SameKey(s, HandleApprove(env, s, removed, crlSucceeds, now).0, org)
  {
  }

  lemma KeyChangeForgetsPapers(env: Env, s: State, m: Moment, org: string)
    requires org in s.db.orgs
    ensures KeysStand(s, Step(env, s, m), m, org)
  {
    if TouchesOrgs(m.event) {
      OrgEventKeepsKeys(env, s, m, org);
    } else {
      OrgsFrame(env, s, m);
    }
  }

  /** Enrolment succeeds exactly for organisations that are new or revoked, and always starts a clean row. */
  lemma EnrolmentStartsOver(env: Env, s: State, m: Moment)
    requires m.event.EnrollEvent?
    ensures var (t, response) := Handle(env, s, m); var e := m.event;
      if e.org !in s.db.orgs || s.db.orgs[e.org].status == Revoked
      then response == Done && t.db.orgs == s.db.orgs[e.org := Org(e.key, e.serial, Active, ENROLLED, None, None)]
      else response == Refused(409) && t == s
  {
  }

  // ---------- How long a revocation lasts ----------

  predicate IsRevoked(s: State, org: string) {
    org in s.db.orgs && s.db.orgs[org].status == Revoked
  }

  predicate LiftsRevocation(e: Event, org: string) {
    (e.EnrollEvent? || e.BlockEvent? || e.UnblockEvent?) && e.org == org
  }

  lemma OrgEventLiftsIff(env: Env, s: State, m: Moment, org: string)
    requires IsRevoked(s, org) && TouchesOrgs(m.event)
    ensures IsRevoked(Handle(env, s, m).0, org) <==> !LiftsRevocation(m.event, org)
  {
    match m.event
    case EnrollEvent(_, _, _) =>
    case BlockEvent(_) =>
    case UnblockEvent(_) =>
    case RevokeEvent(_, _) =>
    case LeaveEvent(_, _, _, _) =>
    case ApproveEvent(_, _) =>
  }

  /** A revocation ends exactly by enrolling, blocking or unblocking that organisation. */
  lemma RevocationEndsIff(env: Env, s: State, m: Moment, org: string)
    requires IsRevoked(s, org)
    ensures !IsRevoked(Step(env, s, m), org) <==> LiftsRevocation(m.event, org)
  {
    if TouchesOrgs(m.event) {
      OrgEventLiftsIff(env, s, m, org);
    } else {
      OrgsFrame(env, s, m);
    }
  }

  ghost predicate RevokedAt(env: Env, start: int, run: seq<Moment>, k: nat, org: string)
    requires k <= |run|
  {
    IsRevoked(Play(env, start, run[..k]), org)
  }

  lemma RevokedNextIff(env: Env, start: int, run: seq<Moment>, k: nat, org: string)
    requires k < |run| && RevokedAt(env, start, run, k, org)
    ensures RevokedAt(env, start, run, k + 1, org) <==> !LiftsRevocation(run[k].event, org)
  {
    PlayStep(env, start, run, k);
    RevocationEndsIff(env, Play(env, start, run[..k]), run[k], org);
  }

  lemma {:induction false} RevokedWhileNotLifted(env: Env, start: int, run: seq<Moment>, i: nat, j: nat, org: string)
    requires i <= j <= |run| && RevokedAt(env, start, run, i, org)
    requires forall k | i <= k < j :: !LiftsRevocation(run[k].event, org)
    ensures RevokedAt(env, start, run, j, org)
    decreases j
  {
    if i < j {
      RevokedWhileNotLifted(env, start, run, i, j - 1, org);
      RevokedNextIff(env, start, run, j - 1, org);
    }
  }

  /** An organisation revoked at moment i of a run stays so through moment j exactly if nothing in between lifts it. */
  lemma RevocationLastsIff(env: Env, start: int, run: seq<Moment>, i: nat, j: nat, org: string)
    requires i <= j <= |run| && RevokedAt(env, start, run, i, org)
    ensures (forall k | i <= k <= j :: RevokedAt(env, start, run, k, org))
      <==> forall k | i <= k < j :: !LiftsRevocation(run[k].event, org)
  {
    if forall k | i <= k < j :: !LiftsRevocation(run[k].event, org) {
      forall k | i <= k <= j
        ensures RevokedAt(env, start, run, k, org)
      {
        RevokedWhileNotLifted(env, start, run, i, k, org);
      }
    }
    if forall k | i <= k <= j :: RevokedAt(env, start, run, k, org) {
      forall k | i <= k < j
        ensures !LiftsRevocation(run[k].event, org)
      {
        assert RevokedAt(env, start, run, k, org) && RevokedAt(env, start, run, k + 1, org);
        RevokedNextIff(env, start, run, k, org);
      }
    }
  }

  // ---------- Revocation list ----------

  ghost predicate CrlCovers(s: State) {
    forall org | org in s.db.orgs && s.db.orgs[org].status == Revoked :: s.db.orgs[org].serial in s.crl
  }

  predicate CrlWritten(e: Event) {
    (e.RevokeEvent? || e.ApproveEvent?) ==> e.crlSucceeds
  }

  lemma StepKeepsCrl(env: Env, s: State, m: Moment)
    requires CrlCovers(s) && CrlWritten(m.event)
    ensures CrlCovers(Step(env, s, m))
  {
    if !TouchesOrgs(m.event) {
      OrgsFrame(env, s, m);
    } else {
      match m.event
      case EnrollEvent(_, _, _) =>
      case BlockEvent(_) =>
      case UnblockEvent(_) =>
      case RevokeEvent(_, _) =>
      case LeaveEvent(_, _, _, _) =>
      case ApproveEvent(_, _) =>
    }
  }

  /**
   While regeneration succeeds, every revoked organisation's serial is in the loaded list at every
   moment, across blocking, unblocking and re-enrolment.
   */
  lemma {:induction false} CrlAlwaysCovers(env: Env, start: int, run: seq<Moment>)
    requires forall i | 0 <= i < |run| :: CrlWritten(run[i].event)
    ensures CrlCovers(Play(env, start, run))
  {
    if run != [] {
      var n := |run| - 1;
      CrlAlwaysCovers(env, start, run[..n]);
      StepKeepsCrl(env, Play(env, start, run[..n]), run[n]);
    }
  }

  /**
   Revocation is not final: blocking or unblocking a revoked organisation takes it out of that status,
   with its old key, serial and scores. Its serial stays in the loaded list until that is next rebuilt,
   and is then listed only if some organisation that is still revoked has the same one.
   */
  lemma BlockingLiftsRevocation(env: Env, s: State, m: Moment, next: Moment)
    requires m.event.BlockEvent? || m.event.UnblockEvent?
    requires IsRevoked(s, m.event.org)
    requires next.event.RevokeEvent? && next.event.crlSucceeds
    requires next.event.org in s.db.orgs && next.event.org != m.event.org
    ensures var org, before := m.event.org, s.db.orgs[m.event.org];
      var (t, response) := Handle(env, s, m);
      && response == Done && org in t.db.orgs
      && t.db.orgs[org] == before.(status := if m.event.BlockEvent? then Blocked else Active)
      && t.crl == s.crl
      && var u := Handle(env, t, next).0;
         && org in u.db.orgs && u.db.orgs[org].status != Revoked
         && (before.serial in u.crl <==>
             exists o :: o in u.db.orgs && u.db.orgs[o].status == Revoked && u.db.orgs[o].serial == before.serial)
  {
    RevocationEndsIff(env, s, m, m.event.org);
  }

  /**
   Right after a revocation or an approved removal the list is exactly the revoked serials, if it
   could be written at all.
   */
  lemma CrlExactAfterRevocation(env: Env, s: State, m: Moment)
    requires m.event.RevokeEvent? || m.event.ApproveEvent?
    requires Handle(env, s, m).1 == Done
    ensures var t := Step(env, s, m);
      && m.event.org in t.db.orgs && t.db.orgs[m.event.org].status == Revoked
      && (m.event.crlSucceeds ==> t.crl == RevokedSerials(t.db) && t.db.orgs[m.event.org].serial in t.crl)
      && (!m.event.crlSucceeds ==> t.crl == s.crl)
  {
    var t := Step(env, s, m);
    assert m.event.org in t.db.orgs;
  }
}
