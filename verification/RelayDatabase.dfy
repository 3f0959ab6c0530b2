/** The enrollment handlers and commands, which change the relay's tables in place, one statement at a time. */
module RelayDatabase {
  import opened Wrappers
  import opened Bytes
  import opened RelayEnrollment

  class Database {
    var allowlist: map<ClientId, Allowed>
    var requests: map<ClientId, Pending>
    var challenges: map<ClientId, Challenge>
    var devices: map<ClientId, Registered>

    function State(): Tables
      reads this
    {
      Tables(allowlist, requests, challenges, devices)
    }

    constructor ()
      ensures State() == Tables(map[], map[], map[], map[])
    {
      allowlist, requests, challenges, devices := map[], map[], map[], map[];
    }

    method EnrollmentRequest(f: EnrollmentForm, crypto: Crypto, now: nat) returns (r: Result<ClientId, Refusal>)
      modifies this`requests
      ensures (State(), r) == RequestEnrollment(old(State()), f, crypto, now)
    {
      if |f.address| > MAX_ID || |f.fingerprint| > MAX_FINGERPRINT || |f.secretHash| != 64 { return Failure(BadRequest); }
      for i := 0 to |f.secretHash|
        invariant forall k :: 0 <= k < i ==> IsHexDigit(f.secretHash[k])
      {
        if !IsHexDigit(f.secretHash[i]) { return Failure(BadRequest); }
      }
      if f.bundleLength > 2 * MAX_BUNDLE { return Failure(BadRequest); }
      if !f.identity.Key? { return Failure(BadRequest); }
      if f.bundle.None? { return Failure(BadRequest); }
      var signed := ENROLLMENT_DOMAIN + f.address + [0];
      signed := signed + f.fingerprint + [0];
      signed := signed + f.secretHash + [0];
      signed := signed + crypto.sha256(f.bundle.value);
      if f.signature.None? { return Failure(BadRequest); }
      if !crypto.verify(f.identity.identity, signed, f.signature.value) { return Failure(Unauthorized); }
      var client := crypto.clientOf(f.identity.identity);
      requests := requests[client := Pending(
        f.address, f.identity.identity, f.fingerprint, f.bundle.value, f.secretHash, now, now + REQUEST_LIFETIME)];
      r := Success(client);
    }

    method IssueChallenge(client: ClientId, secret: Text, bytes: seq<byte>, crypto: Crypto, now: nat)
      returns (r: Result<Challenge, Refusal>)
      modifies this`challenges
      ensures (State(), r) == RelayEnrollment.IssueChallenge(old(State()), client, secret, bytes, crypto, now)
    {
      if |client| > MAX_ID || |secret| > MAX_SECRET { return Failure(BadRequest); }
      if client !in allowlist || !allowlist[client].active { return Failure(Unauthorized); }
      var row := allowlist[client];
      if row.used || row.secretHash != crypto.hash(secret) { return Failure(Unauthorized); }
      var issued := Challenge(bytes, now + CHALLENGE_LIFETIME);
      challenges := challenges[client := issued];
      r := Success(issued);
    }

    method Register(f: RegisterForm, token: Text, crypto: Crypto, now: nat) returns (r: Result<Text, Refusal>)
      modifies this
      ensures (State(), r) == RelayEnrollment.Register(old(State()), f, token, crypto, now)
      ensures UniqueTokens(old(devices)) ==> UniqueTokens(devices)
    {
      if |f.client| > MAX_ID || |f.address| > MAX_ID { return Failure(BadRequest); }
      if f.client !in allowlist || !allowlist[f.client].active { return Failure(Unauthorized); }
      var row := allowlist[f.client];
      if row.used { return Failure(Unauthorized); }
      if f.identity.Malformed? { return Failure(BadRequest); }
      if f.identity.NotAKey? || f.identity.identity != row.identity { return Failure(Unauthorized); }
      if f.client !in challenges { return Failure(Unauthorized); }
      var challenge := challenges[f.client];
      if challenge.expiresAt < now || row.secretHash == [] { return Failure(Unauthorized); }
      if f.bundle.None? || f.signature.None? { return Failure(BadRequest); }
      var signed := REGISTER_DOMAIN + f.client + [0];
      signed := signed + f.address + [0];
      signed := signed + crypto.sha256(f.bundle.value) + challenge.bytes;
      if !crypto.verify(f.identity.identity, signed, f.signature.value) { return Failure(Unauthorized); }
      allowlist := allowlist[f.client := row.(used := true, address := f.address)];
      var device := Registered(row.identity, f.address, crypto.hash(token), f.bundle.value, now);
      if UniqueTokens(devices) { PutKeepsUnique(devices, f.client, device); }
      devices := PutDevice(devices, f.client, device);
      challenges := challenges - {f.client};
      r := Success(token);
    }

    method ApproveEnrollment(client: ClientId, now: nat, interrupted: bool) returns (r: Result<(), Refusal>)
      modifies this`allowlist, this`requests
      ensures (State(), r) == Approve(old(State()), client, now, interrupted)
    {
      if client !in requests || requests[client].expiresAt < now { return Failure(NotFound); }
      var request := requests[client];
      allowlist := allowlist[client := Allowed(
        request.identity, request.fingerprint, request.secretHash, false, request.address, true, request.address, now)];
      if interrupted { return Failure(Interrupted); }
      requests := requests - {client};
      r := Success(());
    }

    method AddAllowlist(
      client: ClientId, identity: KeyField, fingerprint: Text, secret: Text, title: Text, crypto: Crypto, now: nat)
      returns (r: Result<(), Refusal>)
      modifies this`allowlist
      ensures (State(), r) == AddAllowed(old(State()), client, identity, fingerprint, secret, title, crypto, now)
    {
      if |client| > MAX_ID || |fingerprint| > MAX_FINGERPRINT { return Failure(BadRequest); }
      if |secret| > MAX_SECRET || |title| > MAX_LABEL { return Failure(BadRequest); }
      if !identity.Key? { return Failure(BadRequest); }
      if client in allowlist { return Failure(AlreadyPresent); }
      allowlist := allowlist[client := Allowed(
        identity.identity, fingerprint, crypto.hash(secret), false, [], true, title, now)];
      r := Success(());
    }

    method RejectEnrollment(client: ClientId) returns (r: Result<(), Refusal>)
      modifies this`requests
      ensures (State(), r) == Reject(old(State()), client)
    {
      if client !in requests { return Failure(NotFound); }
      requests := requests - {client};
      r := Success(());
    }

    method RevokeClient(client: ClientId, interrupted: bool) returns (r: Result<(), Refusal>)
      modifies this`allowlist, this`devices
      ensures (State(), r) == Revoke(old(State()), client, interrupted)
    {
      if client !in allowlist { return Failure(NotFound); }
      allowlist := allowlist[client := allowlist[client].(active := false)];
      if interrupted { return Failure(Interrupted); }
      devices := devices - {client};
      r := Success(());
    }

    /** The token's owner, if it is the one expected. */
    method AuthenticateToken(token: Text, expected: Option<ClientId>, crypto: Crypto) returns (r: Result<ClientId, Refusal>)
      requires UniqueTokens(devices)
      ensures forall c :: r == Success(c) <==>
        Authenticates(State(), crypto.hash(token), c) && 0 < |token| <= MAX_TOKEN && expected in {None, Some(c)}
    {
      if token == [] || |token| > MAX_TOKEN { return Failure(Unauthorized); }
      var tokenHash := crypto.hash(token);
      var pending := devices.Keys;
      while pending != {}
        invariant pending <= devices.Keys
        invariant forall c :: c in devices.Keys - pending ==> !Authenticates(State(), tokenHash, c)
        decreases |pending|
      {
        var c :| c in pending;
        if devices[c].tokenHash == tokenHash && c in allowlist && allowlist[c].active {
          if expected.Some? && expected.value != c {
            return Failure(Unauthorized);
          }
          return Success(c);
        }
        pending := pending - {c};
      }
      r := Failure(Unauthorized);
    }
  }
}
