/** The client's side of enrollment and of signed requests: what it signs and sends, and that the relay takes it. The
    client and the relay build the signed bytes in code of their own. */
module RelayClient {
  import opened Wrappers
  import opened Bytes
  import opened RelayEnrollment
  import opened Registration
  import RelayAuth

  // ---------------------------------------------------------------- what the client signs

  /** The path of a request without its query. */
  function BeforeQuery(path: seq<byte>): (p: seq<byte>)
    ensures p <= path && '?' as int !in p && (|p| < |path| ==> path[|p|] == '?' as int)
  {
    if path == [] || path[0] == '?' as int then [] else [path[0]] + BeforeQuery(path[1..])
  }

  function RequestBytes(
    httpMethod: seq<byte>, path: seq<byte>, body: seq<byte>, nonce: seq<byte>, timestamp: nat,
    sha256: seq<byte> -> seq<byte>
  ): seq<byte>
  {
    Ascii("safechat-relay-request-v1") + [0] + httpMethod + [0] + BeforeQuery(path) + [0] + sha256(body) + nonce + [0]
    + BigEndian(timestamp, 8)
  }

  function RegistrationBytes(client: Text, address: Text, bundle: seq<byte>, challenge: seq<byte>, crypto: Crypto)
    : seq<byte>
  {
    Ascii("safechat-relay-register-v1") + [0] + client + [0] + address + [0] + crypto.sha256(bundle) + challenge
  }

  function EnrollmentBytes(address: Text, fingerprint: Text, secretHash: Text, bundle: seq<byte>, crypto: Crypto)
    : seq<byte>
  {
    Ascii("safechat-relay-enrollment-request-v1") + [0] + address + [0] + fingerprint + [0] + secretHash + [0]
    + crypto.sha256(bundle)
  }

  /** The client's key pair: the public key, and signing with the private one. */
  datatype KeyPair = KeyPair(identity: Identity, sign: seq<byte> -> seq<byte>)

  class Client {
    const keys: KeyPair
    const secret: Text
    const device: RelayAuth.DeviceId
    var clientId: Text
    var accessToken: Option<Text>

    constructor (keys: KeyPair, secret: Text, device: RelayAuth.DeviceId, clientId: Text)
      ensures this.keys == keys && this.secret == secret && this.device == device
      ensures this.clientId == clientId && accessToken == None
    {
      this.keys, this.secret, this.device := keys, secret, device;
      this.clientId, this.accessToken := clientId, None;
    }

    /** The body of `submit_enrollment_request`. */
    method EnrollmentForm(address: Text, fingerprint: Text, bundle: seq<byte>, bundleLength: nat, crypto: Crypto)
      returns (f: RelayEnrollment.EnrollmentForm)
      ensures f == RequestForm(keys, address, fingerprint, bundle, bundleLength, secret, crypto)
    {
      var secretHash := crypto.hash(secret);
      var signed := Ascii("safechat-relay-enrollment-request-v1") + [0];
      signed := signed + address + [0];
      signed := signed + fingerprint + [0];
      signed := signed + secretHash + [0];
      signed := signed + crypto.sha256(bundle);
      f := RelayEnrollment.EnrollmentForm(
        address, Key(keys.identity), fingerprint, Some(bundle), bundleLength, secretHash, Some(keys.sign(signed)));
    }

    /** The relay's answer names the client. */
    method Enrolled(client: Text)
      modifies this`clientId
      ensures clientId == client
    {
      clientId := client;
    }

    /** The body of `register`, once the challenge is there. */
    method RegisterForm(address: Text, bundle: seq<byte>, challenge: seq<byte>, crypto: Crypto)
      returns (f: RelayEnrollment.RegisterForm)
      ensures f == RegistrationForm(keys, clientId, address, bundle, challenge, crypto)
    {
      var signed := Ascii("safechat-relay-register-v1") + [0];
      signed := signed + clientId + [0];
      signed := signed + address + [0];
      signed := signed + crypto.sha256(bundle);
      signed := signed + challenge;
      f := RelayEnrollment.RegisterForm(clientId, address, Key(keys.identity), Some(bundle), Some(keys.sign(signed)));
    }

    /** The token is kept for later requests. */
    method Registered(token: Text)
      modifies this`accessToken
      ensures accessToken == Some(token)
    {
      accessToken := Some(token);
    }

    /** `signed_binary` and `signed_json`: none without a token. */
    method SignRequest(
      httpMethod: seq<byte>, path: seq<byte>, body: seq<byte>, nonce: seq<byte>, timestamp: nat,
      sha256: seq<byte> -> seq<byte>)
      returns (r: Option<RelayAuth.Request>)
      ensures r == if accessToken.None? then None
                   else Some(SignedRequest(keys, device, httpMethod, path, body, nonce, timestamp, sha256))
    {
      if accessToken.None? { return None; }
      var signedPath := BeforeQuery(path);
      var signed := Ascii("safechat-relay-request-v1") + [0];
      signed := signed + httpMethod + [0];
      signed := signed + signedPath + [0];
      signed := signed + sha256(body);
      signed := signed + nonce + [0];
      signed := signed + BigEndian(timestamp, 8);
      r := Some(RelayAuth.Request(device, httpMethod, signedPath, body, nonce, timestamp, keys.sign(signed)));
    }
  }

  function RequestForm(
    keys: KeyPair, address: Text, fingerprint: Text, bundle: seq<byte>, bundleLength: nat, secret: Text, crypto: Crypto
  ): EnrollmentForm
  {
    var secretHash := crypto.hash(secret);
    EnrollmentForm(address, Key(keys.identity), fingerprint, Some(bundle), bundleLength, secretHash,
                   Some(keys.sign(EnrollmentBytes(address, fingerprint, secretHash, bundle, crypto))))
  }

  function RegistrationForm(
    keys: KeyPair, client: Text, address: Text, bundle: seq<byte>, challenge: seq<byte>, crypto: Crypto): RegisterForm
  {
    RegisterForm(client, address, Key(keys.identity), Some(bundle),
                 Some(keys.sign(RegistrationBytes(client, address, bundle, challenge, crypto))))
  }

  /** The request as the relay sees it: its router knows the path without the query. */
  function SignedRequest(
    keys: KeyPair, device: RelayAuth.DeviceId, httpMethod: seq<byte>, path: seq<byte>, body: seq<byte>, nonce: seq<byte>,
    timestamp: nat, sha256: seq<byte> -> seq<byte>): RelayAuth.Request
  {
    RelayAuth.Request(device, httpMethod, BeforeQuery(path), body, nonce, timestamp,
                      keys.sign(RequestBytes(httpMethod, path, body, nonce, timestamp, sha256)))
  }

  // ---------------------------------------------------------------- both sides agree

  /** Client and relay put the same bytes under a signature. */
  lemma BothSignTheSame(
    keys: KeyPair, device: RelayAuth.DeviceId, httpMethod: seq<byte>, path: seq<byte>, body: seq<byte>, nonce: seq<byte>,
    timestamp: nat, sha256: seq<byte> -> seq<byte>)
    ensures RelayAuth.PayloadOf(SignedRequest(keys, device, httpMethod, path, body, nonce, timestamp, sha256), sha256)
         == RequestBytes(httpMethod, path, body, nonce, timestamp, sha256)
  {
  }

  lemma BothSignTheSameForms(keys: KeyPair, f: EnrollmentForm, g: RegisterForm, challenge: seq<byte>, crypto: Crypto)
    requires f.bundle.Some? && g.bundle.Some?
    ensures EnrollmentPayload(f, crypto) == EnrollmentBytes(f.address, f.fingerprint, f.secretHash, f.bundle.value, crypto)
    ensures RegisterPayload(g, challenge, crypto)
         == RegistrationBytes(g.client, g.address, g.bundle.value, challenge, crypto)
  {
  }

  /** What the relay checks a signature with accepts what the client's key signs. */
  ghost predicate Genuine(keys: KeyPair, verify: (Identity, seq<byte>, seq<byte>) -> bool) {
    forall m :: verify(keys.identity, m, keys.sign(m))
  }

  /** A request that a client signs is accepted by the relay if its nonce and its signature have their lengths, its
      timestamp is within 300 seconds of the relay's clock, and no row of the nonce is left after the purge. */
  lemma ClientIsHeard(
    nonces: RelayAuth.Nonces, keys: KeyPair, device: RelayAuth.DeviceId, httpMethod: seq<byte>, path: seq<byte>,
    body: seq<byte>, nonce: seq<byte>, timestamp: nat, sha256: seq<byte> -> seq<byte>,
    verify: (Identity, seq<byte>, seq<byte>) -> bool, check: nat, purge: nat, stamp: nat)
    requires Genuine(keys, verify)
    requires 1 <= |nonce| <= 128 && check <= timestamp + 300 && timestamp <= check + 300
    ensures var r := SignedRequest(keys, device, httpMethod, path, body, nonce, timestamp, sha256);
      var a := RelayAuth.Attempt(
        r, verify(keys.identity, RelayAuth.PayloadOf(r, sha256), r.signature), check, purge, stamp);
      |r.signature| <= 512 ==>
        (RelayAuth.Verify(nonces, a, 600).1.Success?
         <==> ((device, nonce) in nonces ==> nonces[(device, nonce)] < purge))
  {
    BothSignTheSame(keys, device, httpMethod, path, body, nonce, timestamp, sha256);
    hide RequestBytes, RelayAuth.PayloadOf;
  }

  /** A client that follows the protocol gets in, whatever the tables hold: its request is stored, and once it is approved
      within 900 seconds its secret buys a challenge, its answer within 300 seconds registers it, and its token works. */
  lemma ClientEnrolls(
    t: Tables, keys: KeyPair, address: Text, fingerprint: Text, bundle: seq<byte>, bundleLength: nat, secret: Text,
    challenge: seq<byte>, token: Text, crypto: Crypto, requested: nat, approved: nat, challenged: nat, registered: nat)
    requires Genuine(keys, crypto.verify) && |crypto.clientOf(keys.identity)| <= 256
    requires |address| <= 256 && |fingerprint| <= 256 && |secret| <= 512 && bundleLength <= 2097152
    requires |crypto.hash(secret)| == 64 && forall i :: 0 <= i < 64 ==> Hexadecimal(crypto.hash(secret)[i])
    requires approved <= requested + 900 && registered <= challenged + 300
    ensures var (t1, r1) := RequestEnrollment(
        t, RequestForm(keys, address, fingerprint, bundle, bundleLength, secret, crypto), crypto, requested);
      && r1.Success?
      && var (t2, r2) := Approve(t1, r1.value, approved, false);
        var (t3, r3) := IssueChallenge(t2, r1.value, secret, challenge, crypto, challenged);
        && r2.Success? && r3.Success?
        && var g := RegistrationForm(keys, r1.value, address, bundle, r3.value.bytes, crypto);
          var (t4, r4) := Register(t3, g, token, crypto, registered);
          r4 == Success(token) && Authenticates(t4, crypto.hash(token), r1.value)
  {
    var f := RequestForm(keys, address, fingerprint, bundle, bundleLength, secret, crypto);
    var client := crypto.clientOf(keys.identity);
    var g := RegistrationForm(keys, client, address, bundle, challenge, crypto);
    BothSignTheSameForms(keys, f, g, challenge, crypto);
    hide EnrollmentBytes, RegistrationBytes, EnrollmentPayload, RegisterPayload;
    hide RequestEnrollment, Approve, Register, Hexadecimal;
    EnrollmentWorks(t, f, g, secret, challenge, token, crypto, requested, approved, challenged, registered);
    var t1 := RequestEnrollment(t, f, crypto, requested).0;
    ChallengeIsIssuedIff(Approve(t1, client, approved, false).0, client, secret, challenge, crypto, challenged);
    hide IssueChallenge;
  }
}
