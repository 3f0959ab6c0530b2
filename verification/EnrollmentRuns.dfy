/** Enrollment over whole runs: activations are spent once, challenges are spent once, and a token works exactly as
    long as it is its client's latest and the client has not been revoked. */
module EnrollmentRuns {
  import opened Wrappers
  import opened Bytes
  import opened RelayEnrollment

  datatype Op =
    | RequestOp(form: EnrollmentForm)
    | ChallengeOp(client: ClientId, secret: Text, bytes: seq<byte>)
    | RegisterOp(register: RegisterForm, token: Text)
    | ApproveOp(client: ClientId, interrupted: bool)
    | AddOp(client: ClientId, identity: KeyField, fingerprint: Text, secret: Text, title: Text)
    | RejectOp(client: ClientId)
    | RevokeOp(client: ClientId, interrupted: bool)

  datatype Step = Step(op: Op, now: nat)

  /** What a run has done: a client was put on the allowlist, was given a challenge, registered with a challenge
      and was given a token, or was revoked by a revocation that completed. */
  datatype Event =
    | Activated(client: ClientId)
    | Challenged(client: ClientId, challenge: seq<byte>)
    | Enrolled(client: ClientId, challenge: seq<byte>, tokenHash: Text)
    | Removed(client: ClientId)
    | Quiet

  datatype World = World(tables: Tables, log: seq<Event>)

  function Apply(t: Tables, s: Step, crypto: Crypto): (Tables, Event) {
    match s.op
    case RequestOp(f) => (RequestEnrollment(t, f, crypto, s.now).0, Quiet)
    case ChallengeOp(c, secret, bytes) =>
      var (t', r) := IssueChallenge(t, c, secret, bytes, crypto, s.now);
      (t', if r.Success? then Challenged(c, bytes) else Quiet)
    case RegisterOp(f, token) =>
      var (t', r) := Register(t, f, token, crypto, s.now);
      (t', if r.Success? && f.client in t.challenges
           then Enrolled(f.client, t.challenges[f.client].bytes, crypto.hash(token)) else Quiet)
    case ApproveOp(c, interrupted) =>
      var (t', r) := Approve(t, c, s.now, interrupted);
      (t', if r == Failure(NotFound) then Quiet else Activated(c))
    case AddOp(c, identity, fingerprint, secret, title) =>
      var (t', r) := AddAllowed(t, c, identity, fingerprint, secret, title, crypto, s.now);
      (t', if r.Success? then Activated(c) else Quiet)
    case RejectOp(c) => (Reject(t, c).0, Quiet)
    case RevokeOp(c, interrupted) =>
      var (t', r) := Revoke(t, c, interrupted);
      (t', if r.Success? then Removed(c) else Quiet)
  }

  /** Challenges and tokens are drawn at random: none was drawn before. */
  ghost predicate Enabled(w: World, s: Step, crypto: Crypto) {
    match s.op
    case ChallengeOp(c, secret, bytes) => forall d :: Challenged(d, bytes) !in w.log
    case RegisterOp(f, token) =>
      forall i :: 0 <= i < |w.log| && w.log[i].Enrolled? ==> w.log[i].tokenHash != crypto.hash(token)
    case _ => true
  }

  function Next(w: World, s: Step, crypto: Crypto): World {
    var (t, e) := Apply(w.tables, s, crypto);
    World(t, w.log + [e])
  }

  ghost predicate Run(w: World, steps: seq<Step>, crypto: Crypto, w': World)
    decreases |steps|
  {
    if steps == [] then w' == w
    else Enabled(w, steps[0], crypto) && Run(Next(w, steps[0], crypto), steps[1..], crypto, w')
  }

  const EMPTY: World := World(Tables(map[], map[], map[], map[]), [])

  ghost predicate Reachable(w: World, crypto: Crypto) {
    exists steps :: Run(EMPTY, steps, crypto, w)
  }

  // ---------------------------------------------------------------- activations

  function Activations(log: seq<Event>, c: ClientId): nat {
    if log == [] then 0
    else Activations(log[..|log| - 1], c) + if log[|log| - 1] == Activated(c) then 1 else 0
  }

  function Enrollments(log: seq<Event>, c: ClientId): nat {
    if log == [] then 0
    else
      var last := log[|log| - 1];
      Enrollments(log[..|log| - 1], c) + if last.Enrolled? && last.client == c then 1 else 0
  }

  lemma Counts(log: seq<Event>, e: Event, c: ClientId)
    ensures Activations(log + [e], c) == Activations(log, c) + if e == Activated(c) then 1 else 0
    ensures Enrollments(log + [e], c) == Enrollments(log, c) + if e.Enrolled? && e.client == c then 1 else 0
  {
    assert (log + [e])[..|log|] == log;
  }

  predicate Unspent(t: Tables, c: ClientId) {
    c in t.allowlist && !t.allowlist[c].used
  }

  /** What a step does to an unspent activation. */
  lemma StepSpends(t: Tables, s: Step, crypto: Crypto, c: ClientId)
    ensures var (t', e) := Apply(t, s, crypto);
      && (Unspent(t', c) ==> Unspent(t, c) || e == Activated(c))
      && (e.Enrolled? && e.client == c ==> Unspent(t, c) && !Unspent(t', c))
  {
    hide RegisterPayload, EnrollmentPayload, PutDevice;
  }

  ghost predicate Budgeted(w: World) {
    forall c :: Enrollments(w.log, c) + (if Unspent(w.tables, c) then 1 else 0) <= Activations(w.log, c)
  }

  lemma NextBudgeted(w: World, s: Step, crypto: Crypto)
    requires Budgeted(w)
    ensures Budgeted(Next(w, s, crypto))
  {
    hide Apply;
    var (t, e) := Apply(w.tables, s, crypto);
    forall c ensures
      Enrollments(w.log + [e], c) + (if Unspent(t, c) then 1 else 0) <= Activations(w.log + [e], c)
    {
      StepSpends(w.tables, s, crypto, c);
      Counts(w.log, e, c);
    }
  }

  // ---------------------------------------------------------------- challenges

  /** Every challenge in the table was issued to its client and has not been used. */
  ghost predicate ChallengesOk(challenges: map<ClientId, Challenge>, log: seq<Event>) {
    && (forall c :: c in challenges ==> Challenged(c, challenges[c].bytes) in log)
    && (forall c, i :: c in challenges && 0 <= i < |log| && log[i].Enrolled? ==> log[i].challenge != challenges[c].bytes)
  }

  /** Every challenge was issued once and used at most once. */
  ghost predicate LogOk(log: seq<Event>) {
    && (forall c, d, b :: Challenged(c, b) in log && Challenged(d, b) in log ==> c == d)
    && (forall i :: 0 <= i < |log| && log[i].Enrolled? ==> Challenged(log[i].client, log[i].challenge) in log)
    && (forall i, j :: 0 <= i < j < |log| && log[i].Enrolled? && log[j].Enrolled? ==>
          log[i].challenge != log[j].challenge && log[i].tokenHash != log[j].tokenHash)
  }

  /** The table of challenges changes by the event of the step alone. */
  lemma StepChallenges(t: Tables, s: Step, crypto: Crypto)
    ensures var (t', e) := Apply(t, s, crypto);
      match e
      case Challenged(c, b) =>
        s.op.ChallengeOp? && s.op.bytes == b && (exists at :: t'.challenges == t.challenges[c := Challenge(b, at)])
      case Enrolled(c, b, h) =>
        && s.op.RegisterOp? && h == crypto.hash(s.op.token)
        && c in t.challenges && t.challenges[c].bytes == b && t'.challenges == t.challenges - {c}
      case _ => t'.challenges == t.challenges
  {
    hide RegisterPayload, EnrollmentPayload, PutDevice;
    if s.op.ChallengeOp? {
      var at := s.now + CHALLENGE_LIFETIME;
      assert IssueChallenge(t, s.op.client, s.op.secret, s.op.bytes, crypto, s.now).1.Success? ==>
          Apply(t, s, crypto).0.challenges == t.challenges[s.op.client := Challenge(s.op.bytes, at)];
    }
  }

  lemma ChallengedKeeps(challenges: map<ClientId, Challenge>, log: seq<Event>, c: ClientId, b: seq<byte>, at: nat)
    requires ChallengesOk(challenges, log) && LogOk(log) && forall d :: Challenged(d, b) !in log
    ensures ChallengesOk(challenges[c := Challenge(b, at)], log + [Challenged(c, b)]) && LogOk(log + [Challenged(c, b)])
  {
  }

  lemma EnrolledKeeps(challenges: map<ClientId, Challenge>, log: seq<Event>, c: ClientId, h: Text)
    requires ChallengesOk(challenges, log) && LogOk(log) && c in challenges
    requires forall i :: 0 <= i < |log| && log[i].Enrolled? ==> log[i].tokenHash != h
    ensures var e := Enrolled(c, challenges[c].bytes, h);
      ChallengesOk(challenges - {c}, log + [e]) && LogOk(log + [e])
  {
    var b := challenges[c].bytes;
    forall d | d in challenges && d != c ensures challenges[d].bytes != b {
      assert Challenged(c, b) in log && Challenged(d, challenges[d].bytes) in log;
    }
  }

  lemma OtherKeeps(challenges: map<ClientId, Challenge>, log: seq<Event>, e: Event)
    requires ChallengesOk(challenges, log) && LogOk(log) && !e.Challenged? && !e.Enrolled?
    ensures ChallengesOk(challenges, log + [e]) && LogOk(log + [e])
  {
  }

  lemma NextLogOk(w: World, s: Step, crypto: Crypto)
    requires ChallengesOk(w.tables.challenges, w.log) && LogOk(w.log) && Enabled(w, s, crypto)
    ensures var w' := Next(w, s, crypto); ChallengesOk(w'.tables.challenges, w'.log) && LogOk(w'.log)
  {
    hide Apply, ChallengesOk, LogOk;
    StepChallenges(w.tables, s, crypto);
    var (t, e) := Apply(w.tables, s, crypto);
    match e
    case Challenged(c, b) =>
      var at :| t.challenges == w.tables.challenges[c := Challenge(b, at)];
      ChallengedKeeps(w.tables.challenges, w.log, c, b, at);
    case Enrolled(c, b, h) => EnrolledKeeps(w.tables.challenges, w.log, c, h);
    case _ => OtherKeeps(w.tables.challenges, w.log, e);
  }

  // ---------------------------------------------------------------- tokens

  /** The event ends the tokens issued to the client before it. */
  predicate Ends(e: Event, c: ClientId) {
    (e.Enrolled? || e.Removed?) && e.client == c
  }

  /** The registration at `i` is its client's latest, and no revocation of the client has completed since. */
  predicate Current(log: seq<Event>, i: nat)
    requires i < |log|
  {
    log[i].Enrolled? && forall j :: i < j < |log| ==> !Ends(log[j], log[i].client)
  }

  /** The registration at `i` is current and gave the client this token. */
  predicate Grants(log: seq<Event>, i: nat, c: ClientId, tokenHash: Text)
    requires i < |log|
  {
    Current(log, i) && log[i].client == c && log[i].tokenHash == tokenHash
  }

  /** The devices are those of the current registrations, with their tokens. */
  ghost predicate DevicesOk(devices: map<ClientId, Registered>, log: seq<Event>) {
    && (forall c :: c in devices ==>
          exists i :: 0 <= i < |log| && Grants(log, i, c, devices[c].tokenHash))
    && (forall i :: 0 <= i < |log| && Current(log, i) ==>
          log[i].client in devices && devices[log[i].client].tokenHash == log[i].tokenHash)
  }

  /** The table of devices changes by the event of the step alone. */
  lemma StepDevices(t: Tables, s: Step, crypto: Crypto)
    ensures var (t', e) := Apply(t, s, crypto);
      match e
      case Enrolled(c, b, h) => exists row: Registered :: row.tokenHash == h && t'.devices == PutDevice(t.devices, c, row)
      case Removed(c) => t'.devices == t.devices - {c}
      case _ => t'.devices == t.devices
  {
    hide RegisterPayload, EnrollmentPayload, PutDevice;
  }

  lemma CurrentGrows(log: seq<Event>, e: Event)
    ensures forall i: nat :: i < |log| ==> (Current(log + [e], i) <==> Current(log, i) && !Ends(e, log[i].client))
    ensures Current(log + [e], |log|) <==> e.Enrolled?
  {
    var after := log + [e];
    forall i: nat | i < |log| ensures Current(after, i) <==> Current(log, i) && !Ends(e, log[i].client) {
      assert after[|log|] == e && after[i] == log[i];
      if Current(after, i) {
        forall j | i < j < |log| ensures !Ends(log[j], log[i].client) { assert after[j] == log[j]; }
      }
    }
  }

  /** With a fresh token nothing else is replaced. */
  lemma PutIsUpdate(devices: map<ClientId, Registered>, log: seq<Event>, c: ClientId, row: Registered)
    requires DevicesOk(devices, log)
    requires forall i :: 0 <= i < |log| && log[i].Enrolled? ==> log[i].tokenHash != row.tokenHash
    ensures PutDevice(devices, c, row) == devices[c := row]
  {
  }

  lemma EnrolledDevices(devices: map<ClientId, Registered>, log: seq<Event>, e: Event, row: Registered)
    requires DevicesOk(devices, log) && e.Enrolled? && row.tokenHash == e.tokenHash
    ensures DevicesOk(devices[e.client := row], log + [e])
  {
    CurrentGrows(log, e);
    var after, devices' := log + [e], devices[e.client := row];
    forall c | c in devices'
      ensures exists i :: 0 <= i < |after| && Grants(after, i, c, devices'[c].tokenHash)
    {
      if c == e.client {
        assert Grants(after, |log|, c, devices'[c].tokenHash);
      } else {
        var i :| 0 <= i < |log| && Grants(log, i, c, devices[c].tokenHash);
        assert after[i] == log[i] && Grants(after, i, c, devices'[c].tokenHash);
      }
    }
    forall i | 0 <= i < |after| && Current(after, i)
      ensures after[i].client in devices' && devices'[after[i].client].tokenHash == after[i].tokenHash
    {
      if i < |log| { assert Current(log, i) && after[i] == log[i]; }
    }
  }

  lemma RemovedDevices(devices: map<ClientId, Registered>, log: seq<Event>, e: Event)
    requires DevicesOk(devices, log) && !e.Enrolled?
    ensures DevicesOk(if e.Removed? then devices - {e.client} else devices, log + [e])
  {
    CurrentGrows(log, e);
    var after, devices' := log + [e], if e.Removed? then devices - {e.client} else devices;
    forall c | c in devices'
      ensures exists i :: 0 <= i < |after| && Grants(after, i, c, devices'[c].tokenHash)
    {
      var i :| 0 <= i < |log| && Grants(log, i, c, devices[c].tokenHash);
      assert after[i] == log[i] && Grants(after, i, c, devices'[c].tokenHash);
    }
    forall i | 0 <= i < |after| && Current(after, i)
      ensures after[i].client in devices' && devices'[after[i].client].tokenHash == after[i].tokenHash
    {
      assert Current(log, i) && after[i] == log[i];
    }
  }

  lemma NextDevicesOk(w: World, s: Step, crypto: Crypto)
    requires DevicesOk(w.tables.devices, w.log) && Enabled(w, s, crypto)
    ensures var w' := Next(w, s, crypto); DevicesOk(w'.tables.devices, w'.log)
  {
    hide Apply, DevicesOk, PutDevice;
    StepDevices(w.tables, s, crypto);
    StepChallenges(w.tables, s, crypto);
    var (t, e) := Apply(w.tables, s, crypto);
    if e.Enrolled? {
      var row: Registered :| row.tokenHash == e.tokenHash && t.devices == PutDevice(w.tables.devices, e.client, row);
      PutIsUpdate(w.tables.devices, w.log, e.client, row);
      EnrolledDevices(w.tables.devices, w.log, e, row);
    } else {
      RemovedDevices(w.tables.devices, w.log, e);
    }
  }

  // ---------------------------------------------------------------- every run

  ghost predicate Inv(w: World) {
    && Budgeted(w)
    && ChallengesOk(w.tables.challenges, w.log) && LogOk(w.log)
    && DevicesOk(w.tables.devices, w.log)
  }

  lemma {:induction false} RunKeepsInv(w: World, steps: seq<Step>, crypto: Crypto, w': World)
    requires Inv(w) && Run(w, steps, crypto, w')
    ensures Inv(w')
    decreases |steps|
  {
    hide Apply, Budgeted, ChallengesOk, LogOk, DevicesOk, Enabled;
    if steps != [] {
      NextBudgeted(w, steps[0], crypto);
      NextLogOk(w, steps[0], crypto);
      NextDevicesOk(w, steps[0], crypto);
      RunKeepsInv(Next(w, steps[0], crypto), steps[1..], crypto, w');
    }
  }

  lemma ReachableInv(w: World, crypto: Crypto)
    requires Reachable(w, crypto)
    ensures Inv(w)
  {
    var steps :| Run(EMPTY, steps, crypto, w);
    assert Inv(EMPTY);
    RunKeepsInv(EMPTY, steps, crypto, w);
  }

  /** A client registers at most once for each time it was put on the allowlist. */
  lemma RegistrationsNeverExceedActivations(w: World, crypto: Crypto, c: ClientId)
    requires Reachable(w, crypto)
    ensures Enrollments(w.log, c) <= Activations(w.log, c)
  {
    ReachableInv(w, crypto);
  }

  /** A challenge is good for one registration, of the client it was issued to. */
  lemma ChallengeRegistersOnce(w: World, crypto: Crypto, i: nat, j: nat)
    requires Reachable(w, crypto) && i < |w.log| && j < |w.log|
    requires w.log[i].Enrolled? && w.log[j].Enrolled? && w.log[i].challenge == w.log[j].challenge
    ensures i == j && Challenged(w.log[i].client, w.log[i].challenge) in w.log
  {
    ReachableInv(w, crypto);
  }

  /** A token authenticates exactly as long as it is its client's latest, no revocation of the client has completed
      since it was issued, and the client is active; and it authenticates no other client. */
  lemma TokenWorksIffCurrent(w: World, crypto: Crypto, i: nat, c: ClientId)
    requires Reachable(w, crypto) && i < |w.log| && w.log[i].Enrolled?
    ensures Authenticates(w.tables, w.log[i].tokenHash, c)
       <==> c == w.log[i].client && Current(w.log, i) && IsActive(w.tables, c)
  {
    ReachableInv(w, crypto);
    var h := w.log[i].tokenHash;
    if c in w.tables.devices && w.tables.devices[c].tokenHash == h {
      var k :| 0 <= k < |w.log| && Grants(w.log, k, c, h);
      assert k == i;
    }
  }

  /** A token issued before a completed revocation never works again, even after the client is approved anew. */
  lemma RevokedTokenNeverReturns(w: World, crypto: Crypto, i: nat, j: nat, c: ClientId)
    requires Reachable(w, crypto) && i < j < |w.log|
    requires w.log[i].Enrolled? && w.log[j] == Removed(w.log[i].client)
    ensures !Authenticates(w.tables, w.log[i].tokenHash, c)
  {
    TokenWorksIffCurrent(w, crypto, i, c);
    assert Ends(w.log[j], w.log[i].client);
  }

  /** The token hashes of the devices are distinct in every reachable state, as the schema demands. */
  lemma ReachableTokensAreUnique(w: World, crypto: Crypto)
    requires Reachable(w, crypto)
    ensures UniqueTokens(w.tables.devices)
  {
    ReachableInv(w, crypto);
    var devices := w.tables.devices;
    forall c, d | c in devices && d in devices && devices[c].tokenHash == devices[d].tokenHash ensures c == d {
      var i :| 0 <= i < |w.log| && Grants(w.log, i, c, devices[c].tokenHash);
      var j :| 0 <= j < |w.log| && Grants(w.log, j, d, devices[d].tokenHash);
      assert i == j;
    }
  }

  /** A revocation that stops between its two statements leaves the device row: the token is refused only until the
      client is approved again. It stays dead exactly when the revocation completed. */
  lemma InterruptedRevocationRestoresTheToken(t: Tables, h: Text, c: ClientId, interrupted: bool, now: nat)
    requires Authenticates(t, h, c) && c in t.requests && now <= t.requests[c].expiresAt
    ensures var revoked := Revoke(t, c, interrupted).0;
      && !Authenticates(revoked, h, c)
      && (Authenticates(Approve(revoked, c, now, false).0, h, c) <==> interrupted)
  {
  }

  // ---------------------------------------------------------------- the way in

  /** What a client sends to use an approval: the secret behind the hash it asked with, and a registration signed
      over the challenge it was given. */
  ghost predicate Entitled(t: Tables, f: RegisterForm, secret: Text, bytes: seq<byte>, crypto: Crypto) {
    && f.client in t.requests && |f.client| <= MAX_ID && |f.address| <= MAX_ID && |secret| <= MAX_SECRET
    && t.requests[f.client].secretHash == crypto.hash(secret) != []
    && f.identity == Key(t.requests[f.client].identity)
    && f.bundle.Some? && f.signature.Some?
    && crypto.verify(f.identity.identity, RegisterPayload(f, bytes, crypto), f.signature.value)
  }

  /** An approved client that answers its challenge in time is registered and its token works; the approval and the
      challenge are spent: the same registration is refused, and so is another challenge. */
  lemma ApprovedClientRegistersOnce(
    t: Tables, f: RegisterForm, secret: Text, bytes: seq<byte>, token: Text, second: Text, crypto: Crypto,
    approved: nat, challenged: nat, registered: nat)
    requires Entitled(t, f, secret, bytes, crypto) && approved <= t.requests[f.client].expiresAt
    requires registered <= challenged + CHALLENGE_LIFETIME
    ensures var a := Approve(t, f.client, approved, false).0;
      var (b, issued) := IssueChallenge(a, f.client, secret, bytes, crypto, challenged);
      var (c, r) := Register(b, f, token, crypto, registered);
      && issued.Success? && r == Success(token)
      && Authenticates(c, crypto.hash(token), f.client)
      && c.devices[f.client].identity == t.requests[f.client].identity
      && f.client !in c.requests && f.client !in c.challenges
      && Register(c, f, second, crypto, registered) == (c, Failure(Unauthorized))
      && IssueChallenge(c, f.client, secret, bytes, crypto, registered) == (c, Failure(Unauthorized))
  {
    hide RegisterPayload;
  }
}
