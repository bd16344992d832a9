/**
 The signed messages of the federation as records, the primitives they rest on as functions of
 the environment, and the participant's side: building a contribution and checking a model.
 */
module Attestation {
  import opened Wrappers
  import opened Trust

  newtype byte = x: int | 0 <= x < 256
  type Bytes = seq<byte>
  type Digest = string
  type Key = string

  const CONTRIBUTION_KIND := "fl.contribution.v1"

  /** A message body; the constructors other than the last two are the message types of the protocol. */
  datatype Payload =
    | Contribution(kind: string, round: int, org: string, modelHash: Digest, numExamples: int,
                   challenge: string, submittedAt: Option<int>)  // None: not an ISO 8601 time
    | GlobalModel(round: int, modelHash: Digest, acceptedOrgs: set<string>, distributedAt: int)
    | RoundAnnouncement(round: int, epsilon: real, boostRounds: int, invited: set<string>, startsAt: int)
    | TrustUpdate(org: string, round: int, trust: int, verdict: Reason, issuedAt: int)
    | LeaveRequest(org: string, reason: string, requestedAt: int)
    | RemovalConfirm(org: string, revokedAt: int)
    | OtherJson
    | NotJson

  /** A signature as transmitted: hexadecimal text, or text that is not. */
  datatype Signature = NotHex | Hex(value: string)

  /** Hashing, verification, and the coordinator's key pair. Nothing is assumed of them here. */
  datatype Crypto = Crypto(
    digest: Bytes -> Digest,
    verify: (Key, Payload, string) -> bool,
    sign: Payload -> string,
    coordinatorKey: Key)

  predicate Verifies(c: Crypto, key: Key, payload: Payload, signature: Signature) {
    signature.Hex? && c.verify(key, payload, signature.value)
  }

  /** The model_sha256 field, for the message types that carry one. */
  function ModelHashField(p: Payload): Option<Digest> {
    match p
    case Contribution(_, _, _, h, _, _, _) => Some(h)
    case GlobalModel(_, h, _, _) => Some(h)
    case _ => None
  }

  datatype Check = Genuine | BadHex | SignatureInvalid | Unreadable | HashMismatch

  /** What a participant does with a downloaded model before loading it. */
  function VerifyGlobalModel(c: Crypto, model: Bytes, payload: Payload, signature: Signature): Check {
    if signature.NotHex? then BadHex
    else if !c.verify(c.coordinatorKey, payload, signature.value) then SignatureInvalid
    else if payload.NotJson? then Unreadable
    else if ModelHashField(payload) != Some(c.digest(model)) then HashMismatch
    else Genuine
  }

  /** What a participant sends: the attestation binds the exact model bytes, and the signature binds the attestation. */
  function BuildSignedContribution(c: Crypto, orgSign: Payload -> string, round: int, org: string, model: Bytes,
                                   numExamples: int, challenge: string, now: int): (Payload, Signature) {
    var payload := Contribution(CONTRIBUTION_KIND, round, org, c.digest(model), numExamples, challenge, Some(now));
    (payload, Hex(orgSign(payload)))
  }
}
