/** What the enrollment handlers and commands decide, said of the tables and the forms alone, and what they store. */
module Registration {
  import opened Wrappers
  import opened Bytes
  import opened RelayEnrollment
  import RelayAuth

  // ---------------------------------------------------------------- what is signed

  /** The part of a signed payload after the domain: fields ended by zero bytes. */
  lemma RegisterPayloadParts(f: RegisterForm, challenge: seq<byte>, crypto: Crypto)
    requires f.bundle.Some?
    ensures RegisterPayload(f, challenge, crypto)
         == REGISTER_DOMAIN + (f.client + [0] + (f.address + [0] + (crypto.sha256(f.bundle.value) + challenge)))
  {
  }

  /** A registration's signed bytes determine its client, its address, the digest of its bundle and the challenge. */
  lemma RegisterPayloadIdentifies(f: RegisterForm, c: seq<byte>, g: RegisterForm, d: seq<byte>, crypto: Crypto)
    requires f.bundle.Some? && g.bundle.Some?
    requires |crypto.sha256(f.bundle.value)| == |crypto.sha256(g.bundle.value)| == 32
    requires RelayAuth.HasNoNul(f.client) && RelayAuth.HasNoNul(f.address)
    requires RelayAuth.HasNoNul(g.client) && RelayAuth.HasNoNul(g.address)
    requires RegisterPayload(f, c, crypto) == RegisterPayload(g, d, crypto)
    ensures f.client == g.client && f.address == g.address && c == d
    ensures crypto.sha256(f.bundle.value) == crypto.sha256(g.bundle.value)
  {
    RegisterPayloadParts(f, c, crypto);
    RegisterPayloadParts(g, d, crypto);
    var end, end' := crypto.sha256(f.bundle.value) + c, crypto.sha256(g.bundle.value) + d;
    hide RelayAuth.HasNoNul, RegisterPayload;
    RelayAuth.PrefixInjective(REGISTER_DOMAIN, f.client + [0] + (f.address + [0] + end),
                              REGISTER_DOMAIN, g.client + [0] + (g.address + [0] + end'));
    RelayAuth.TerminatedInjective(f.client, f.address + [0] + end, g.client, g.address + [0] + end');
    RelayAuth.TerminatedInjective(f.address, end, g.address, end');
    RelayAuth.PrefixInjective(crypto.sha256(f.bundle.value), c, crypto.sha256(g.bundle.value), d);
  }

  /** Ids without zero bytes are needed for that: with one, part of the client id can pass for part of the address. */
  lemma ZeroBytesBlurFields(bundle: seq<byte>, signature: seq<byte>, challenge: seq<byte>, crypto: Crypto)
    ensures var f := RegisterForm([97, 0, 98], [99], Malformed, Some(bundle), Some(signature));
      var g := RegisterForm([97], [98, 0, 99], Malformed, Some(bundle), Some(signature));
      f != g && RegisterPayload(f, challenge, crypto) == RegisterPayload(g, challenge, crypto)
  {
    var d := crypto.sha256(bundle) + challenge;
    assert [97, 0, 98] + [0] + ([99] + [0] + d) == [97] + [0] + ([98, 0, 99] + [0] + d);
    RegisterPayloadParts(RegisterForm([97, 0, 98], [99], Malformed, Some(bundle), Some(signature)), challenge, crypto);
    RegisterPayloadParts(RegisterForm([97], [98, 0, 99], Malformed, Some(bundle), Some(signature)), challenge, crypto);
  }

  /** A request's signed bytes determine its address, its fingerprint, the hash of its secret and the digest of its
      bundle. */
  lemma EnrollmentPayloadIdentifies(f: EnrollmentForm, g: EnrollmentForm, crypto: Crypto)
    requires f.bundle.Some? && g.bundle.Some?
    requires RelayAuth.HasNoNul(f.address) && RelayAuth.HasNoNul(f.fingerprint) && RelayAuth.HasNoNul(f.secretHash)
    requires RelayAuth.HasNoNul(g.address) && RelayAuth.HasNoNul(g.fingerprint) && RelayAuth.HasNoNul(g.secretHash)
    requires EnrollmentPayload(f, crypto) == EnrollmentPayload(g, crypto)
    ensures f.address == g.address && f.fingerprint == g.fingerprint && f.secretHash == g.secretHash
    ensures crypto.sha256(f.bundle.value) == crypto.sha256(g.bundle.value)
  {
    var end, end' := crypto.sha256(f.bundle.value), crypto.sha256(g.bundle.value);
    assert EnrollmentPayload(f, crypto)
        == ENROLLMENT_DOMAIN + (f.address + [0] + (f.fingerprint + [0] + (f.secretHash + [0] + end)));
    assert EnrollmentPayload(g, crypto)
        == ENROLLMENT_DOMAIN + (g.address + [0] + (g.fingerprint + [0] + (g.secretHash + [0] + end')));
    hide RelayAuth.HasNoNul, EnrollmentPayload;
    var rest, rest' := f.secretHash + [0] + end, g.secretHash + [0] + end';
    RelayAuth.PrefixInjective(ENROLLMENT_DOMAIN, f.address + [0] + (f.fingerprint + [0] + rest),
                              ENROLLMENT_DOMAIN, g.address + [0] + (g.fingerprint + [0] + rest'));
    RelayAuth.TerminatedInjective(f.address, f.fingerprint + [0] + rest, g.address, g.fingerprint + [0] + rest');
    RelayAuth.TerminatedInjective(f.fingerprint, rest, g.fingerprint, rest');
    RelayAuth.TerminatedInjective(f.secretHash, end, g.secretHash, end');
  }

  /** A signature given for one purpose is never one for another: no bytes are the payload of two of an enrollment
      request, a registration and a request to the relay. */
  lemma PurposesAreDisjoint(
    e: EnrollmentForm, f: RegisterForm, challenge: seq<byte>, r: RelayAuth.Request, crypto: Crypto)
    requires e.bundle.Some? && f.bundle.Some?
    ensures EnrollmentPayload(e, crypto) != RegisterPayload(f, challenge, crypto)
    ensures EnrollmentPayload(e, crypto) != RelayAuth.PayloadOf(r, crypto.sha256)
    ensures RegisterPayload(f, challenge, crypto) != RelayAuth.PayloadOf(r, crypto.sha256)
  {
    assert ENROLLMENT_DOMAIN[15] == 'e' as int && REGISTER_DOMAIN[15] == 'r' as int && REGISTER_DOMAIN[17] == 'g' as int;
    assert RelayAuth.REQUEST_DOMAIN[15] == 'r' as int && RelayAuth.REQUEST_DOMAIN[17] == 'q' as int;
    assert EnrollmentPayload(e, crypto)[15] == ENROLLMENT_DOMAIN[15];
    assert RegisterPayload(f, challenge, crypto)[15] == REGISTER_DOMAIN[15];
    assert RegisterPayload(f, challenge, crypto)[17] == REGISTER_DOMAIN[17];
    assert RelayAuth.PayloadOf(r, crypto.sha256)[15] == RelayAuth.REQUEST_DOMAIN[15];
    assert RelayAuth.PayloadOf(r, crypto.sha256)[17] == RelayAuth.REQUEST_DOMAIN[17];
  }

  // ---------------------------------------------------------------- requests and approvals

  /** An ASCII hexadecimal digit of either case. */
  predicate Hexadecimal(b: byte) {
    '0' as int <= b <= '9' as int || 'A' as int <= b <= 'F' as int || 'a' as int <= b <= 'f' as int
  }

  /** The fields have their sizes and decode. */
  predicate Proper(f: EnrollmentForm) {
    && |f.address| <= 256 && |f.fingerprint| <= 256
    && |f.secretHash| == 64 && (forall i :: 0 <= i < 64 ==> Hexadecimal(f.secretHash[i]))
    && f.bundleLength <= 2097152 && f.identity.Key? && f.bundle.Some? && f.signature.Some?
  }

  /** A request is stored exactly if its fields have their sizes and decode and it is signed with the key it names; it
      is stored as sent, under the client id of that key, for 900 seconds, and nothing else changes. */
  lemma RequestIsStoredIff(t: Tables, f: EnrollmentForm, crypto: Crypto, now: nat)
    ensures var (t', r) := RequestEnrollment(t, f, crypto, now);
      && (r.Success? <==>
            Proper(f) && crypto.verify(f.identity.identity, EnrollmentPayload(f, crypto), f.signature.value))
      && (r.Failure? ==> t' == t && r.error == (if Proper(f) then Unauthorized else BadRequest))
      && (r.Success? ==>
            var client := crypto.clientOf(f.identity.identity);
            && r.value == client
            && t'.requests == t.requests[client := Pending(
                 f.address, f.identity.identity, f.fingerprint, f.bundle.value, f.secretHash, now, now + 900)]
            && t' == t.(requests := t'.requests))
  {
    hide EnrollmentPayload;
  }

  /** An approval succeeds exactly if there is a request that has not expired; it lists the request's identity,
      fingerprint and secret, unused and active. The request goes unless the command stops between its statements. */
  lemma ApproveLists(t: Tables, client: ClientId, now: nat, interrupted: bool)
    ensures var (t', r) := Approve(t, client, now, interrupted);
      var pending := client in t.requests && now <= t.requests[client].expiresAt;
      && (r.Success? <==> pending && !interrupted)
      && (!pending ==> t' == t && r == Failure(NotFound))
      && (pending ==>
            var q := t.requests[client];
            t' == Tables(
              t.allowlist[client := Allowed(
                q.identity, q.fingerprint, q.secretHash, false, q.address, true, q.address, now)],
              if interrupted then t.requests else map c | c in t.requests && c != client :: t.requests[c],
              t.challenges, t.devices))
  {
  }

  /** A client is added by hand exactly if the fields have their sizes, the key decodes, and the client is not listed,
      not even as revoked. */
  lemma AddIff(t: Tables, client: ClientId, identity: KeyField, fingerprint: Text, secret: Text, title: Text,
               crypto: Crypto, now: nat)
    ensures var (t', r) := AddAllowed(t, client, identity, fingerprint, secret, title, crypto, now);
      && (r.Success? <==>
            && |client| <= 256 && |fingerprint| <= 256 && |secret| <= 512 && |title| <= 256
            && identity.Key? && client !in t.allowlist)
      && (r.Failure? ==> t' == t)
      && (r.Success? ==>
            t' == t.(allowlist := t.allowlist[client := Allowed(
              identity.identity, fingerprint, crypto.hash(secret), false, [], true, title, now)]))
  {
  }

  /** A rejection removes a request; it succeeds exactly if there is one. */
  lemma RejectIff(t: Tables, client: ClientId)
    ensures var (t', r) := Reject(t, client);
      && (r.Success? <==> client in t.requests)
      && t' == t.(requests := map c | c in t.requests && c != client :: t.requests[c])
  {
    if client !in t.requests {
      assert t.requests == map c | c in t.requests && c != client :: t.requests[c];
    }
  }

  /** A revocation succeeds exactly if the client is listed; it keeps the row and marks it, and removes the device unless
      the command stops between its statements. */
  lemma RevokeIff(t: Tables, client: ClientId, interrupted: bool)
    ensures var (t', r) := Revoke(t, client, interrupted);
      && (r.Success? <==> client in t.allowlist && !interrupted)
      && (client !in t.allowlist ==> t' == t && r == Failure(NotFound))
      && (client in t.allowlist ==>
            t' == t.(
              allowlist := t.allowlist[client := t.allowlist[client].(active := false)],
              devices := if interrupted then t.devices else map c | c in t.devices && c != client :: t.devices[c]))
  {
  }

  // ---------------------------------------------------------------- challenges and registrations

  /** Listed, not revoked, and not registered since it was listed. */
  predicate MayRegister(t: Tables, client: ClientId) {
    client in t.allowlist && t.allowlist[client].active && !t.allowlist[client].used
  }

  /** A challenge is issued exactly to a client that may register and knows its secret; it is stored for 300 seconds in
      the place of an earlier one, and nothing else changes. */
  lemma ChallengeIsIssuedIff(t: Tables, client: ClientId, secret: Text, bytes: seq<byte>, crypto: Crypto, now: nat)
    ensures var (t', r) := IssueChallenge(t, client, secret, bytes, crypto, now);
      var fits := |client| <= 256 && |secret| <= 512;
      && (r.Success? <==> fits && MayRegister(t, client) && t.allowlist[client].secretHash == crypto.hash(secret))
      && (r.Failure? ==> t' == t && r.error == (if fits then Unauthorized else BadRequest))
      && (r.Success? ==>
            && r.value == Challenge(bytes, now + 300)
            && t' == t.(challenges := t.challenges[client := Challenge(bytes, now + 300)]))
  {
  }

  /** The client holds a challenge that has not expired, and there is a secret that bought it. */
  predicate HoldsChallenge(t: Tables, client: ClientId, now: nat) {
    && client in t.challenges && now <= t.challenges[client].expiresAt
    && client in t.allowlist && t.allowlist[client].secretHash != []
  }

  /** A form is refused as malformed exactly if an id is too long, or, of a client that may register, the key is not
      valid base64, or, with the listed key and a live challenge, the bundle or the signature does not decode. */
  predicate Unreadable(t: Tables, f: RegisterForm, now: nat) {
    || |f.client| > 256 || |f.address| > 256
    || (MayRegister(t, f.client)
        && (|| f.identity == Malformed
            || (f.identity == Key(t.allowlist[f.client].identity) && HoldsChallenge(t, f.client, now)
                && (f.bundle == None || f.signature == None))))
  }

  /** A registration succeeds exactly if the ids fit, the client may register, the key is the listed one, the client
      holds a live challenge, bundle and signature are there, and the signature is one of the listed identity over this
      form and that challenge. Any other is refused and changes nothing. */
  lemma RegisterSucceedsIff(t: Tables, f: RegisterForm, token: Text, crypto: Crypto, now: nat)
    ensures var (t', r) := Register(t, f, token, crypto, now);
      && (r.Success? <==>
            && |f.client| <= 256 && |f.address| <= 256
            && MayRegister(t, f.client) && f.identity == Key(t.allowlist[f.client].identity)
            && HoldsChallenge(t, f.client, now) && f.bundle.Some? && f.signature.Some?
            && crypto.verify(
                 t.allowlist[f.client].identity, RegisterPayload(f, t.challenges[f.client].bytes, crypto),
                 f.signature.value))
      && (r.Failure? ==> t' == t && r.error == (if Unreadable(t, f, now) then BadRequest else Unauthorized))
  {
    hide RegisterPayload, PutDevice;
  }

  /** A successful registration hands out the token, stores the device with the listed identity, the form's address and
      bundle and the token's hash, marks the activation used, removes the challenge, and removes any other device with
      that token hash. */
  lemma RegisterStores(t: Tables, f: RegisterForm, token: Text, crypto: Crypto, now: nat)
    requires Register(t, f, token, crypto, now).1.Success?
    ensures f.client in t.allowlist && f.bundle.Some?
    ensures var (t', r) := Register(t, f, token, crypto, now); var listed := t.allowlist[f.client];
      && r.value == token
      && t'.allowlist == t.allowlist[f.client := listed.(used := true, address := f.address)]
      && t'.requests == t.requests
      && t'.challenges == (map c | c in t.challenges && c != f.client :: t.challenges[c])
      && f.client in t'.devices
      && t'.devices[f.client] == Registered(listed.identity, f.address, crypto.hash(token), f.bundle.value, now)
      && (forall c :: c != f.client ==>
            (c in t'.devices <==> c in t.devices && t.devices[c].tokenHash != crypto.hash(token))
            && (c in t'.devices ==> t'.devices[c] == t.devices[c]))
  {
    hide RegisterPayload;
  }

  /** A token authenticates a client exactly if the client's device row has its hash and the client is active. */
  lemma AuthenticatesIff(t: Tables, token: Text, crypto: Crypto, client: ClientId)
    ensures Authenticates(t, crypto.hash(token), client)
       <==> && client in t.devices && t.devices[client].tokenHash == crypto.hash(token)
            && client in t.allowlist && t.allowlist[client].active
  {
  }

  // ---------------------------------------------------------------- from a request to a token

  /** What a client sends to enroll: a signed request, and a registration for the same key, signed over the challenge
      it was given. */
  predicate Follows(f: EnrollmentForm, g: RegisterForm, secret: Text, bytes: seq<byte>, crypto: Crypto) {
    && Proper(f) && crypto.verify(f.identity.identity, EnrollmentPayload(f, crypto), f.signature.value)
    && crypto.hash(secret) == f.secretHash && |secret| <= 512
    && g.client == crypto.clientOf(f.identity.identity) && |g.client| <= 256 && |g.address| <= 256
    && g.identity == f.identity && g.bundle.Some? && g.signature.Some?
    && crypto.verify(f.identity.identity, RegisterPayload(g, bytes, crypto), g.signature.value)
  }

  /** Whatever the tables hold, a client that signs its request, is approved within 900 seconds, presents the secret
      behind the hash in its request and answers its challenge within 300 seconds gets the token, and the token
      authenticates it. */
  lemma EnrollmentWorks(
    t: Tables, f: EnrollmentForm, g: RegisterForm, secret: Text, bytes: seq<byte>, token: Text, crypto: Crypto,
    requested: nat, approved: nat, challenged: nat, registered: nat)
    requires Follows(f, g, secret, bytes, crypto)
    requires approved <= requested + 900 && registered <= challenged + 300
    ensures var (t1, r1) := RequestEnrollment(t, f, crypto, requested);
      var (t2, r2) := Approve(t1, g.client, approved, false);
      var (t3, r3) := IssueChallenge(t2, g.client, secret, bytes, crypto, challenged);
      var (t4, r4) := Register(t3, g, token, crypto, registered);
      && r1 == Success(g.client) && r2.Success? && r3.Success? && r4 == Success(token)
      && Authenticates(t4, crypto.hash(token), g.client)
      && t4.devices[g.client].identity == f.identity.identity && t4.devices[g.client].address == g.address
  {
    hide RequestEnrollment, Approve, IssueChallenge, Register, EnrollmentPayload, RegisterPayload, Hexadecimal;
    RequestIsStoredIff(t, f, crypto, requested);
    var t1 := RequestEnrollment(t, f, crypto, requested).0;
    ApproveLists(t1, g.client, approved, false);
    var t2 := Approve(t1, g.client, approved, false).0;
    ChallengeIsIssuedIff(t2, g.client, secret, bytes, crypto, challenged);
    var t3 := IssueChallenge(t2, g.client, secret, bytes, crypto, challenged).0;
    RegisterSucceedsIff(t3, g, token, crypto, registered);
    RegisterStores(t3, g, token, crypto, registered);
  }
}
