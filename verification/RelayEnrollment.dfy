/** Enrollment on the relay, on values: the four tables and every operation on them. */
module RelayEnrollment {
  import opened Wrappers
  import opened Bytes

  type Text = seq<byte>

  type ClientId = Text

  type Identity = seq<byte>

  datatype Allowed = Allowed(identity: Identity, fingerprint: Text, secretHash: Text, used: bool,
                             address: Text, active: bool, title: Text, createdAt: nat)

  datatype Pending = Pending(address: Text, identity: Identity, fingerprint: Text, bundle: seq<byte>,
                             secretHash: Text, createdAt: nat, expiresAt: nat)

  datatype Challenge = Challenge(bytes: seq<byte>, expiresAt: nat)

  datatype Registered = Registered(identity: Identity, address: Text, tokenHash: Text, bundle: seq<byte>, lastSeenAt: nat)

  datatype Tables = Tables(allowlist: map<ClientId, Allowed>, requests: map<ClientId, Pending>,
                           challenges: map<ClientId, Challenge>, devices: map<ClientId, Registered>)

  /** SHA-256 over bytes and as text, signature verification, and the client id made from an identity key. */
  datatype Crypto = Crypto(
    sha256: seq<byte> -> seq<byte>, hash: Text -> Text,
    verify: (Identity, seq<byte>, seq<byte>) -> bool, clientOf: Identity -> ClientId)

  /** A key in a request: not valid base64, not a key, or a key. */
  datatype KeyField = Malformed | NotAKey | Key(identity: Identity)

  /** A request for enrollment; `None` marks a field that does not decode within its bounds. */
  datatype EnrollmentForm = EnrollmentForm(
    address: Text, identity: KeyField, fingerprint: Text, bundle: Option<seq<byte>>, bundleLength: nat,
    secretHash: Text, signature: Option<seq<byte>>)

  datatype RegisterForm = RegisterForm(
    client: ClientId, address: Text, identity: KeyField, bundle: Option<seq<byte>>, signature: Option<seq<byte>>)

  datatype Refusal = BadRequest | Unauthorized | NotFound | AlreadyPresent | Interrupted

  const MAX_ID: nat := 256
  const MAX_FINGERPRINT: nat := 256
  const MAX_LABEL: nat := 256
  const MAX_SECRET: nat := 512
  const MAX_BUNDLE: nat := 1024 * 1024
  const MAX_TOKEN: nat := 512
  const REQUEST_LIFETIME: nat := 900
  const CHALLENGE_LIFETIME: nat := 300

  const ENROLLMENT_DOMAIN: seq<byte> := Ascii("safechat-relay-enrollment-request-v1") + [0]

  const REGISTER_DOMAIN: seq<byte> := Ascii("safechat-relay-register-v1") + [0]

  predicate IsHexDigit(b: byte) {
    48 <= b <= 57 || 65 <= b <= 70 || 97 <= b <= 102
  }

  function EnrollmentPayload(f: EnrollmentForm, crypto: Crypto): seq<byte>
    requires f.bundle.Some?
  {
    ENROLLMENT_DOMAIN + f.address + [0] + f.fingerprint + [0] + f.secretHash + [0] + crypto.sha256(f.bundle.value)
  }

  /** `enrollment_request`: a signed request takes the place of an earlier one of the same client. */
  function RequestEnrollment(t: Tables, f: EnrollmentForm, crypto: Crypto, now: nat): (Tables, Result<ClientId, Refusal>) {
    if |f.address| > MAX_ID || |f.fingerprint| > MAX_FINGERPRINT || |f.secretHash| != 64
       || (exists i :: 0 <= i < |f.secretHash| && !IsHexDigit(f.secretHash[i])) || f.bundleLength > 2 * MAX_BUNDLE then
      (t, Failure(BadRequest))
    else if !f.identity.Key? || f.bundle.None? || f.signature.None? then (t, Failure(BadRequest))
    else if !crypto.verify(f.identity.identity, EnrollmentPayload(f, crypto), f.signature.value) then
      (t, Failure(Unauthorized))
    else
      var client := crypto.clientOf(f.identity.identity);
      var row := Pending(
        f.address, f.identity.identity, f.fingerprint, f.bundle.value, f.secretHash, now, now + REQUEST_LIFETIME);
      (t.(requests := t.requests[client := row]), Success(client))
  }

  /** An active client of the allowlist. */
  predicate IsActive(t: Tables, client: ClientId) {
    client in t.allowlist && t.allowlist[client].active
  }

  /** `challenge`: the enrollment secret of an unused activation buys a challenge. */
  function IssueChallenge(t: Tables, client: ClientId, secret: Text, bytes: seq<byte>, crypto: Crypto, now: nat)
    : (Tables, Result<Challenge, Refusal>)
  {
    if |client| > MAX_ID || |secret| > MAX_SECRET then (t, Failure(BadRequest))
    else if !IsActive(t, client) then (t, Failure(Unauthorized))
    else if t.allowlist[client].used || t.allowlist[client].secretHash != crypto.hash(secret) then
      (t, Failure(Unauthorized))
    else
      var issued := Challenge(bytes, now + CHALLENGE_LIFETIME);
      (t.(challenges := t.challenges[client := issued]), Success(issued))
  }

  function RegisterPayload(f: RegisterForm, challenge: seq<byte>, crypto: Crypto): seq<byte>
    requires f.bundle.Some?
  {
    REGISTER_DOMAIN + f.client + [0] + f.address + [0] + crypto.sha256(f.bundle.value) + challenge
  }

  /** Why `register` refuses a form, if it does. */
  function Refused(t: Tables, f: RegisterForm, crypto: Crypto, now: nat): Option<Refusal> {
    if |f.client| > MAX_ID || |f.address| > MAX_ID then Some(BadRequest)
    else if !IsActive(t, f.client) || t.allowlist[f.client].used then Some(Unauthorized)
    else if f.identity.Malformed? then Some(BadRequest)
    else if f.identity != Key(t.allowlist[f.client].identity) then Some(Unauthorized)
    else if f.client !in t.challenges then Some(Unauthorized)
    else if t.challenges[f.client].expiresAt < now || t.allowlist[f.client].secretHash == [] then Some(Unauthorized)
    else if f.bundle.None? || f.signature.None? then Some(BadRequest)
    else if !crypto.verify(
      f.identity.identity, RegisterPayload(f, t.challenges[f.client].bytes, crypto), f.signature.value) then
      Some(Unauthorized)
    else None
  }

  /** `INSERT OR REPLACE` into a table whose token hashes are unique: a row with the same hash goes too. */
  function PutDevice(devices: map<ClientId, Registered>, client: ClientId, row: Registered): map<ClientId, Registered> {
    (map c | c in devices && devices[c].tokenHash != row.tokenHash :: devices[c])[client := row]
  }

  /** The `UNIQUE` constraint on token hashes. */
  ghost predicate UniqueTokens(devices: map<ClientId, Registered>) {
    forall c, d :: c in devices && d in devices && devices[c].tokenHash == devices[d].tokenHash ==> c == d
  }

  lemma PutKeepsUnique(devices: map<ClientId, Registered>, client: ClientId, row: Registered)
    requires UniqueTokens(devices)
    ensures UniqueTokens(PutDevice(devices, client, row))
  {
  }

  /** `register`: one transaction that spends the activation and the challenge for a token. */
  function Register(t: Tables, f: RegisterForm, token: Text, crypto: Crypto, now: nat): (Tables, Result<Text, Refusal>) {
    var refusal := Refused(t, f, crypto, now);
    if refusal.Some? then (t, Failure(refusal.value))
    else
      var row := Registered(t.allowlist[f.client].identity, f.address, crypto.hash(token), f.bundle.value, now);
      (Tables(t.allowlist[f.client := t.allowlist[f.client].(used := true, address := f.address)],
              t.requests, t.challenges - {f.client}, PutDevice(t.devices, f.client, row)),
       Success(token))
  }

  /** `approve_enrollment`: two statements; the second may not be reached. */
  function Approve(t: Tables, client: ClientId, now: nat, interrupted: bool): (Tables, Result<(), Refusal>) {
    if client !in t.requests || t.requests[client].expiresAt < now then (t, Failure(NotFound))
    else
      var r := t.requests[client];
      var row := Allowed(r.identity, r.fingerprint, r.secretHash, false, r.address, true, r.address, now);
      var approved := t.(allowlist := t.allowlist[client := row]);
      if interrupted then (approved, Failure(Interrupted))
      else (approved.(requests := approved.requests - {client}), Success(()))
  }

  /** `add_allowlist`: a client that is already present, even revoked, is not replaced. */
  function AddAllowed(
    t: Tables, client: ClientId, identity: KeyField, fingerprint: Text, secret: Text, title: Text, crypto: Crypto, now: nat
  ): (Tables, Result<(), Refusal>)
  {
    if |client| > MAX_ID || |fingerprint| > MAX_FINGERPRINT || |secret| > MAX_SECRET || |title| > MAX_LABEL then
      (t, Failure(BadRequest))
    else if !identity.Key? then (t, Failure(BadRequest))
    else if client in t.allowlist then (t, Failure(AlreadyPresent))
    else
      var row := Allowed(identity.identity, fingerprint, crypto.hash(secret), false, [], true, title, now);
      (t.(allowlist := t.allowlist[client := row]), Success(()))
  }

  /** `enrollment-reject`. */
  function Reject(t: Tables, client: ClientId): (Tables, Result<(), Refusal>) {
    if client !in t.requests then (t, Failure(NotFound)) else (t.(requests := t.requests - {client}), Success(()))
  }

  /** `allowlist-revoke`: two statements; the second may not be reached. */
  function Revoke(t: Tables, client: ClientId, interrupted: bool): (Tables, Result<(), Refusal>) {
    if client !in t.allowlist then (t, Failure(NotFound))
    else
      var revoked := t.(allowlist := t.allowlist[client := t.allowlist[client].(active := false)]);
      if interrupted then (revoked, Failure(Interrupted))
      else (revoked.(devices := revoked.devices - {client}), Success(()))
  }

  /** The query of `authenticate_request`: the token's device belongs to an active client. */
  predicate Authenticates(t: Tables, tokenHash: Text, client: ClientId) {
    client in t.devices && t.devices[client].tokenHash == tokenHash && IsActive(t, client)
  }
}
