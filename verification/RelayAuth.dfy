/** Signed relay requests: the timestamp window, the signed payload and the nonce table. */
module RelayAuth {
  import opened Wrappers
  import opened Bytes

  type DeviceId = string

  const WINDOW: nat := 300
  const NONCE_RETENTION: nat := 600
  const MAX_NONCE: nat := 128
  const MAX_SIGNATURE: nat := 512

  const REQUEST_DOMAIN: seq<byte> := Ascii("safechat-relay-request-v1") + [0]

  /** Expiry by device and nonce. */
  type Nonces = map<(DeviceId, seq<byte>), nat>

  /** What a request carries besides its token. */
  datatype Request = Request(
    device: DeviceId, httpMethod: seq<byte>, path: seq<byte>, body: seq<byte>,
    nonce: seq<byte>, timestamp: nat, signature: seq<byte>)

  /** The three readings of the clock made for one request, and the relay's judgement of its signature. */
  datatype Attempt = Attempt(request: Request, authentic: bool, check: nat, purge: nat, stamp: nat)

  datatype Refusal = Unauthorized | Conflict

  function Distance(a: nat, b: nat): nat {
    if a < b then b - a else a - b
  }

  predicate WellFormed(r: Request, now: nat) {
    && Distance(r.timestamp, now) <= WINDOW
    && 0 < |r.nonce| <= MAX_NONCE
    && |r.signature| <= MAX_SIGNATURE
  }

  /** `DELETE ... WHERE expires_at < now`. */
  function Purged(nonces: Nonces, now: nat): Nonces {
    map key | key in nonces && now <= nonces[key] :: nonces[key]
  }

  /** The primary key of the nonce table. */
  function KeyOf(a: Attempt): (DeviceId, seq<byte>) {
    (a.request.device, a.request.nonce)
  }

  /** `verify_signature`, with the time a nonce is kept as a parameter. */
  function Verify(nonces: Nonces, a: Attempt, retention: nat): (Nonces, Result<(), Refusal>) {
    if !WellFormed(a.request, a.check) || !a.authentic then (nonces, Failure(Unauthorized))
    else
      var kept := Purged(nonces, a.purge);
      var key := KeyOf(a);
      if key in kept then (kept, Failure(Conflict))
      else (kept[key := a.stamp + retention], Success(()))
  }

  /** The request is inside its window of 300 seconds to either side, has a nonce and a signature of allowed length,
      and the signature is the device's. */
  predicate InOrder(a: Attempt) {
    && a.request.timestamp <= a.check + 300 && a.check <= a.request.timestamp + 300
    && 1 <= |a.request.nonce| <= 128 && |a.request.signature| <= 512 && a.authentic
  }

  /** Acceptance, said of the table: a request in order is accepted exactly if no row of its device and nonce reaches the
      purging clock reading. Then its row is in the table for the retention after the stamp, other rows that reach the
      purge stay, and none else are left. A request not in order changes nothing. */
  lemma VerifyIff(nonces: Nonces, a: Attempt, retention: nat, key: (DeviceId, seq<byte>))
    ensures var (rows, r) := Verify(nonces, a, retention); var own := (a.request.device, a.request.nonce);
      var live := own in nonces && nonces[own] >= a.purge;
      && (r.Success? <==> InOrder(a) && !live)
      && (r == Failure(Conflict) <==> InOrder(a) && live)
      && (!InOrder(a) ==> rows == nonces && r == Failure(Unauthorized))
      && (InOrder(a) ==>
            && (key in rows <==> key == own || (key in nonces && nonces[key] >= a.purge))
            && (key in rows ==> rows[key] == if key == own && !live then a.stamp + retention else nonces[key]))
  {
  }

  // ---------------------------------------------------------------- the payload

  /** What a device signs after the domain; `digest` is SHA-256. */
  function SignedFields(httpMethod: seq<byte>, path: seq<byte>, digest: seq<byte>, nonce: seq<byte>, timestamp: nat)
    : seq<byte>
  {
    httpMethod + [0] + (path + [0] + (digest + (nonce + [0] + BigEndian(timestamp, 8))))
  }

  function PayloadOf(r: Request, sha256: seq<byte> -> seq<byte>): seq<byte> {
    REQUEST_DOMAIN + SignedFields(r.httpMethod, r.path, sha256(r.body), r.nonce, r.timestamp)
  }

  predicate HasNoNul(s: seq<byte>) {
    forall i :: 0 <= i < |s| ==> s[i] != 0
  }

  lemma FirstNul(a: seq<byte>, x: seq<byte>)
    requires HasNoNul(a)
    ensures var s := a + [0] + x;
      s[|a|] == 0 && (forall i :: 0 <= i < |a| ==> s[i] != 0) && s[..|a|] == a && s[|a| + 1..] == x
  {
  }

  /** A field without zero bytes that is ended by one can be read off the front. */
  lemma TerminatedInjective(a: seq<byte>, x: seq<byte>, b: seq<byte>, y: seq<byte>)
    requires HasNoNul(a) && HasNoNul(b) && a + [0] + x == b + [0] + y
    ensures a == b && x == y
  {
    FirstNul(a, x);
    FirstNul(b, y);
    assert |a| == |b|;
  }

  /** A prefix of known length can be read off the front. */
  lemma PrefixInjective(a: seq<byte>, x: seq<byte>, b: seq<byte>, y: seq<byte>)
    requires |a| == |b| && a + x == b + y
    ensures a == b && x == y
  {
    assert a == (a + x)[..|a|] && b == (b + y)[..|b|];
    assert x == (a + x)[|a|..] && y == (b + y)[|b|..];
  }

  lemma BigEndianInjective(m: nat, n: nat, width: nat)
    requires m < Power256(width) && n < Power256(width) && BigEndian(m, width) == BigEndian(n, width)
    ensures m == n
  {
    BigEndianRoundTrip(m, width);
    BigEndianRoundTrip(n, width);
  }

  /** The last nine bytes are the terminator of the nonce and the timestamp. */
  lemma NonceAndTimeInjective(nonce: seq<byte>, timestamp: nat, nonce': seq<byte>, timestamp': nat)
    requires timestamp < Power256(8) && timestamp' < Power256(8)
    requires nonce + [0] + BigEndian(timestamp, 8) == nonce' + [0] + BigEndian(timestamp', 8)
    ensures nonce == nonce' && timestamp == timestamp'
  {
    hide Power256, BigEndian;
    assert |nonce| == |nonce'|;
    assert nonce + [0] + BigEndian(timestamp, 8) == nonce + ([0] + BigEndian(timestamp, 8));
    assert nonce' + [0] + BigEndian(timestamp', 8) == nonce' + ([0] + BigEndian(timestamp', 8));
    PrefixInjective(nonce, [0] + BigEndian(timestamp, 8), nonce', [0] + BigEndian(timestamp', 8));
    PrefixInjective([0], BigEndian(timestamp, 8), [0], BigEndian(timestamp', 8));
    BigEndianInjective(timestamp, timestamp', 8);
  }

  /** What a request may be: no zero byte in method or path, a 64-bit timestamp. */
  predicate Encodable(r: Request) {
    HasNoNul(r.httpMethod) && HasNoNul(r.path) && r.timestamp < Power256(8)
  }

  /** Two requests have the same signed payload only if they agree in every part. The nonce may hold any bytes. */
  lemma PayloadIdentifiesRequest(r: Request, s: Request, sha256: seq<byte> -> seq<byte>)
    requires Encodable(r) && Encodable(s) && |sha256(r.body)| == 32 && |sha256(s.body)| == 32
    requires PayloadOf(r, sha256) == PayloadOf(s, sha256)
    ensures r.httpMethod == s.httpMethod && r.path == s.path && sha256(r.body) == sha256(s.body)
    ensures r.nonce == s.nonce && r.timestamp == s.timestamp
  {
    hide HasNoNul, Power256, BigEndian;
    var end, end' := r.nonce + [0] + BigEndian(r.timestamp, 8), s.nonce + [0] + BigEndian(s.timestamp, 8);
    var rest, rest' := sha256(r.body) + end, sha256(s.body) + end';
    PrefixInjective(
      REQUEST_DOMAIN, r.httpMethod + [0] + (r.path + [0] + rest),
      REQUEST_DOMAIN, s.httpMethod + [0] + (s.path + [0] + rest'));
    TerminatedInjective(r.httpMethod, r.path + [0] + rest, s.httpMethod, s.path + [0] + rest');
    TerminatedInjective(r.path, rest, s.path, rest');
    PrefixInjective(sha256(r.body), end, sha256(s.body), end');
    NonceAndTimeInjective(r.nonce, r.timestamp, s.nonce, s.timestamp);
  }

  // ---------------------------------------------------------------- runs

  /** The table before attempt `i` of a run that starts with an empty table. */
  function TableBefore(attempts: seq<Attempt>, retention: nat, i: nat): Nonces
    requires i <= |attempts|
  {
    if i == 0 then map[] else Verify(TableBefore(attempts, retention, i - 1), attempts[i - 1], retention).0
  }

  predicate AcceptedAt(attempts: seq<Attempt>, retention: nat, i: nat)
    requires i < |attempts|
  {
    Verify(TableBefore(attempts, retention, i), attempts[i], retention).1.Success?
  }

  predicate SameSignedRequest(r: Request, s: Request) {
    r.device == s.device && r.nonce == s.nonce && r.timestamp == s.timestamp
  }

  /** Some signed request is accepted twice. */
  ghost predicate Replayed(attempts: seq<Attempt>, retention: nat) {
    exists i, j :: 0 <= i < j < |attempts| && AcceptedAt(attempts, retention, i) && AcceptedAt(attempts, retention, j)
      && SameSignedRequest(attempts[i].request, attempts[j].request)
  }

  /** The clock does not go back, and the reading that purges is at most `lag` after the reading that checks the
      window. Requests take the database lock in the order of the run. */
  ghost predicate Timely(attempts: seq<Attempt>, lag: nat) {
    && (forall i :: 0 <= i < |attempts| ==>
          var a := attempts[i]; a.check <= a.purge <= a.check + lag && a.purge <= a.stamp)
    && (forall i, j :: 0 <= i < j < |attempts| ==> attempts[i].purge <= attempts[j].purge)
  }

  /** One reading of a clock that does not go back serves each request. */
  ghost predicate SingleReading(attempts: seq<Attempt>) {
    && (forall i :: 0 <= i < |attempts| ==> attempts[i].check == attempts[i].purge == attempts[i].stamp)
    && (forall i, j :: 0 <= i < j < |attempts| ==> attempts[i].purge <= attempts[j].purge)
  }

  /** An accepted nonce stays in the table until a purge after its expiry. */
  lemma {:induction false} NonceStays(attempts: seq<Attempt>, retention: nat, i: nat, j: nat)
    requires i < j <= |attempts| && AcceptedAt(attempts, retention, i)
    requires forall k :: i < k < j ==> attempts[k].purge <= attempts[i].stamp + retention
    ensures var key, table := KeyOf(attempts[i]), TableBefore(attempts, retention, j);
      key in table && attempts[i].stamp + retention <= table[key]
    decreases j
  {
    var key := KeyOf(attempts[i]);
    if j > i + 1 {
      NonceStays(attempts, retention, i, j - 1);
      assert attempts[j - 1].purge <= attempts[i].stamp + retention;
      assert key in Purged(TableBefore(attempts, retention, j - 1), attempts[j - 1].purge);
    }
  }

  lemma NonceBlocks(attempts: seq<Attempt>, retention: nat, lag: nat, i: nat, j: nat)
    requires Timely(attempts, lag) && i < j < |attempts| && AcceptedAt(attempts, retention, i)
    requires KeyOf(attempts[i]) == KeyOf(attempts[j])
    requires attempts[j].purge <= attempts[i].stamp + retention
    ensures !AcceptedAt(attempts, retention, j)
  {
    forall k | i < k < j ensures attempts[k].purge <= attempts[i].stamp + retention {
      assert attempts[k].purge <= attempts[j].purge;
    }
    NonceStays(attempts, retention, i, j);
    assert KeyOf(attempts[j]) in Purged(TableBefore(attempts, retention, j), attempts[j].purge);
  }

  /** If nonces are kept long enough, a nonce accepted a second time comes with a later timestamp. */
  lemma ReusedNonceIsNewer(attempts: seq<Attempt>, retention: nat, lag: nat, i: nat, j: nat)
    requires Timely(attempts, lag) && i < j < |attempts| && retention >= 2 * WINDOW + lag
    requires AcceptedAt(attempts, retention, i) && AcceptedAt(attempts, retention, j)
    requires KeyOf(attempts[i]) == KeyOf(attempts[j])
    ensures attempts[i].request.timestamp < attempts[j].request.timestamp
  {
    if attempts[j].purge <= attempts[i].stamp + retention {
      NonceBlocks(attempts, retention, lag, i, j);
    }
  }

  lemma LongRetentionIsSafe(attempts: seq<Attempt>, retention: nat, lag: nat)
    requires Timely(attempts, lag) && retention >= 2 * WINDOW + lag
    ensures !Replayed(attempts, retention)
  {
    forall i, j | 0 <= i < j < |attempts| && AcceptedAt(attempts, retention, i) && AcceptedAt(attempts, retention, j)
      ensures !SameSignedRequest(attempts[i].request, attempts[j].request)
    {
      if KeyOf(attempts[i]) == KeyOf(attempts[j]) {
        ReusedNonceIsNewer(attempts, retention, lag, i, j);
      }
    }
  }

  /** A row of the table goes back to an accepted attempt. */
  lemma {:induction false} RowWasAccepted(attempts: seq<Attempt>, retention: nat, i: nat, key: (DeviceId, seq<byte>))
    returns (j: nat)
    requires i <= |attempts| && key in TableBefore(attempts, retention, i)
    ensures j < i && AcceptedAt(attempts, retention, j) && KeyOf(attempts[j]) == key
    ensures TableBefore(attempts, retention, i)[key] == attempts[j].stamp + retention
    decreases i
  {
    if AcceptedAt(attempts, retention, i - 1) && KeyOf(attempts[i - 1]) == key {
      j := i - 1;
    } else {
      j := RowWasAccepted(attempts, retention, i - 1, key);
    }
  }

  /** The rule of acceptance, over whole runs: a request is accepted exactly when it is well formed, in its window and
      signed, and every earlier accepted request of the device with the same nonce has been out of retention when
      this one purges. */
  lemma AcceptedIff(attempts: seq<Attempt>, retention: nat, lag: nat, i: nat)
    requires Timely(attempts, lag) && i < |attempts|
    ensures AcceptedAt(attempts, retention, i) <==>
      && WellFormed(attempts[i].request, attempts[i].check) && attempts[i].authentic
      && forall j :: 0 <= j < i && AcceptedAt(attempts, retention, j) && KeyOf(attempts[j]) == KeyOf(attempts[i])
           ==> attempts[j].stamp + retention < attempts[i].purge
  {
    forall j | 0 <= j < i && AcceptedAt(attempts, retention, j) && KeyOf(attempts[j]) == KeyOf(attempts[i])
      && attempts[i].purge <= attempts[j].stamp + retention
      ensures !AcceptedAt(attempts, retention, i)
    {
      NonceBlocks(attempts, retention, lag, j, i);
    }
    var table := TableBefore(attempts, retention, i);
    if KeyOf(attempts[i]) in table && attempts[i].purge <= table[KeyOf(attempts[i])] {
      var j := RowWasAccepted(attempts, retention, i, KeyOf(attempts[i]));
      assert attempts[i].purge <= attempts[j].stamp + retention;
    }
  }

  /** A request that is inside its window and the device signed. */
  function Probe(check: nat, purge: nat): Attempt {
    Attempt(Request("device", [71], [47], [], [110], WINDOW, []), true, check, purge, purge)
  }

  lemma ShortRetentionReplays(retention: nat, lag: nat)
    requires retention < 2 * WINDOW + lag
    ensures var run := [Probe(0, 0), Probe(2 * WINDOW, 2 * WINDOW + lag)]; Timely(run, lag) && Replayed(run, retention)
  {
    var run := [Probe(0, 0), Probe(2 * WINDOW, 2 * WINDOW + lag)];
    assert TableBefore(run, retention, 0) == map[];
    assert AcceptedAt(run, retention, 0);
    assert TableBefore(run, retention, 1) == map[("device", [110]) := retention];
    assert ("device", [110]) !in Purged(TableBefore(run, retention, 1), run[1].purge);
    assert AcceptedAt(run, retention, 1);
    assert SameSignedRequest(run[0].request, run[1].request);
  }

  /** Nonces are kept just long enough: no run accepts a signed request twice exactly when a nonce is kept for both
      halves of the window and as long as the purging reading of the clock can lag behind the checking one. */
  lemma RetentionIsExact(retention: nat, lag: nat)
    ensures (forall attempts: seq<Attempt> :: Timely(attempts, lag) ==> !Replayed(attempts, retention))
      <==> retention >= 2 * WINDOW + lag
  {
    if retention >= 2 * WINDOW + lag {
      forall attempts: seq<Attempt> | Timely(attempts, lag) ensures !Replayed(attempts, retention) {
        LongRetentionIsSafe(attempts, retention, lag);
      }
    } else {
      ShortRetentionReplays(retention, lag);
    }
  }

  /** With one reading of a non-decreasing clock for each request, no signed request is accepted twice in any run. */
  lemma NoRequestIsAcceptedTwice(attempts: seq<Attempt>)
    requires SingleReading(attempts)
    ensures !Replayed(attempts, NONCE_RETENTION)
  {
    assert Timely(attempts, 0);
    LongRetentionIsSafe(attempts, NONCE_RETENTION, 0);
  }

  /** Two accepted requests of one device were never signed over the same bytes. */
  lemma AcceptedPayloadsDiffer(attempts: seq<Attempt>, sha256: seq<byte> -> seq<byte>, i: nat, j: nat)
    requires SingleReading(attempts) && i < j < |attempts|
    requires AcceptedAt(attempts, NONCE_RETENTION, i) && AcceptedAt(attempts, NONCE_RETENTION, j)
    requires attempts[i].request.device == attempts[j].request.device
    requires Encodable(attempts[i].request) && Encodable(attempts[j].request)
    requires |sha256(attempts[i].request.body)| == 32 && |sha256(attempts[j].request.body)| == 32
    ensures PayloadOf(attempts[i].request, sha256) != PayloadOf(attempts[j].request, sha256)
  {
    hide Encodable, AcceptedAt, PayloadOf;
    NoRequestIsAcceptedTwice(attempts);
    var r, s := attempts[i].request, attempts[j].request;
    if PayloadOf(r, sha256) == PayloadOf(s, sha256) {
      PayloadIdentifiesRequest(r, s, sha256);
    }
  }

  /** `verify_signature` reads the clock three times. If the second reading is a second after the first, a request
      can be accepted twice. */
  lemma SeparateReadingsAdmitAReplay()
    ensures exists attempts: seq<Attempt> :: Timely(attempts, 1) && Replayed(attempts, NONCE_RETENTION)
  {
    ShortRetentionReplays(NONCE_RETENTION, 1);
  }

  // ---------------------------------------------------------------- the handler

  class NonceTable {
    var rows: Nonces

    constructor ()
      ensures rows == map[]
    {
      rows := map[];
    }

    /** `identity` is the device's key, if it has one that decodes; `verified` checks a signature under it. */
    method VerifySignature(
      request: Request, identity: Option<seq<byte>>, sha256: seq<byte> -> seq<byte>,
      verified: (seq<byte>, seq<byte>, seq<byte>) -> bool, check: nat, purge: nat, stamp: nat)
      returns (r: Result<(), Refusal>)
      modifies this
      ensures (rows, r) == Verify(
        old(rows),
        Attempt(request,
          identity.Some? && verified(identity.value, PayloadOf(request, sha256), request.signature),
          check, purge, stamp),
        NONCE_RETENTION)
    {
      if Distance(request.timestamp, check) > WINDOW || request.nonce == [] || |request.nonce| > MAX_NONCE
        || |request.signature| > MAX_SIGNATURE {
        return Failure(Unauthorized);
      }
      if identity.None? { return Failure(Unauthorized); }
      var signed := REQUEST_DOMAIN;
      signed := signed + request.httpMethod + [0];
      signed := signed + request.path + [0];
      signed := signed + sha256(request.body);
      signed := signed + request.nonce + [0];
      signed := signed + BigEndian(request.timestamp, 8);
      assert signed == PayloadOf(request, sha256);
      if !verified(identity.value, signed, request.signature) { return Failure(Unauthorized); }
      rows := map key | key in rows && purge <= rows[key] :: rows[key];
      var key := (request.device, request.nonce);
      if key in rows { return Failure(Conflict); }
      rows := rows[key := stamp + NONCE_RETENTION];
      r := Success(());
    }
  }
}
