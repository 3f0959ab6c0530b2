/** Who gets through when nothing fails, and when a session set up with another identity shuts a trusted peer out. */
module SignalAccess {
  import opened Wrappers
  import opened Bytes
  import opened SignalDevice
  import opened SignalCalls
  import opened SignalTrust

  // ---------------------------------------------------------------- a peer that is trusted

  /** The peer is trusted under this identity and not revoked under it, memory has no other session for it than the
      disk, and the session can be used. */
  predicate Welcome(d: Device, p: Peer, identity: Identity) {
    && p in d.db.trusted && d.db.trusted[p] == identity
    && (p in d.store.trusted ==> d.store.trusted[p] == identity)
    && (p in d.db.revocations ==> d.db.revocations[p].newFingerprint == Some(Hex(identity)))
    && (p in d.store.sessions ==> p in d.db.sessions && d.store.sessions[p] == d.db.sessions[p])
    && (p in d.db.sessions ==> Usable(d.db.sessions[p]))
  }

  /** The session row of the peer. */
  function OnDisk(d: Device, p: Peer): Option<Session> {
    if p in d.db.sessions then Some(d.db.sessions[p]) else None
  }

  /** The session a snapshot for the peer would leave on disk. */
  function Held(d: Device, p: Peer): Option<Session> {
    if p in d.store.sessions then Some(d.store.sessions[p]) else OnDisk(d, p)
  }

  /** There is no session, or the one in use was set up with this identity. */
  predicate Fits(s: Option<Session>, identity: Identity) {
    s.Some? ==> s.value.current.remote == identity
  }

  lemma MaintainSucceeds(d: Device, env: Env)
    requires env.faults == {}
    ensures Maintain(d, env).1.Success?
  {
    hide Replenished, Stocked, Rotated, Overlap, MaxId, Persist;
  }

  lemma MaintainWelcomes(d: Device, env: Env, p: Peer, identity: Identity)
    requires Welcome(d, p, identity)
    ensures var m := Maintain(d, env).0; Welcome(m, p, identity) && OnDisk(m, p) == OnDisk(d, p)
  {
    hide Maintain, Hex, Usable;
    MaintainFrame(d, env);
  }

  /** Loading the peer puts its identity and its session into memory. */
  lemma LoadWelcomes(d: Device, env: Env, p: Peer, identity: Identity)
    requires Welcome(d, p, identity) && env.faults == {}
    ensures var (l, r) := LoadPeer(d, p, env);
      r.Success? && l.configured == d.configured && SessionOf(l, p) == OnDisk(d, p)
      && IdentityOf(l, p) == Some(identity) && !IsRevoked(l, p)
  {
    hide Hex, Usable;
  }

  lemma SealSucceedsIff(d: Device, p: Peer, identity: Identity, env: Env)
    requires env.faults == {} && IdentityOf(d, p) == Some(identity)
    requires SessionOf(d, p).Some? ==> Usable(SessionOf(d, p).value)
    ensures Seal(d, p, env).1.Success? <==> Fits(SessionOf(d, p), identity)
  {
    assert Usable(Established(ChainFor(d, p, env)));
    hide Usable, Persist;
  }

  lemma WelcomeEncrypts(d: Device, b: PeerBundle, identity: Identity, env: Env)
    requires Welcome(d, b.peer, identity) && d.configured && env.faults == {}
    ensures EncryptFor(d, b, env).1.Success? <==> b.identity == identity && Fits(OnDisk(d, b.peer), identity)
  {
    hide Maintain, LoadPeer, Seal, IsRevoked, Usable, Fits, Hex;
    MaintainSucceeds(d, env);
    MaintainWelcomes(d, env, b.peer, identity);
    var m := Maintain(d, env).0;
    assert m.configured by { MaintainFrame(d, env); }
    LoadWelcomes(m, env, b.peer, identity);
    SealSucceedsIff(LoadPeer(m, b.peer, env).0, b.peer, identity, env);
    hide Welcome;
  }

  lemma WelcomeDecrypts(d: Device, p: Peer, identity: Identity, env: Env)
    requires Welcome(d, p, identity) && env.faults == {}
    ensures DecryptFrom(d, p, env).1
         == if Opens(OnDisk(d, p), identity, env) then Success(identity) else Failure(NoTrustedSession)
  {
    hide Welcome, Maintain, LoadPeer, Unsealed, IsRevoked, Persist, Opens;
    LoadWelcomes(d, env, p, identity);
    MaintainSucceeds(Unsealed(LoadPeer(d, p, env).0, p, env), env);
  }

  lemma TrustWelcomes(d: Device, p: Peer, identity: Identity, env: Env)
    requires TrustPeer(d, p, identity, env).1.Success? && (Held(d, p).Some? ==> Usable(Held(d, p).value))
    ensures var d' := TrustPeer(d, p, identity, env).0;
      Welcome(d', p, identity) && OnDisk(d', p) == Held(d, p) && d'.configured == d.configured
  {
    hide Hex, Usable;
  }

  /** With nothing failing, a peer just trusted can be written to exactly under the trusted identity and if the
      session the device holds for it, in memory or else on disk, was set up with that identity; and a message is
      read exactly if it is initial or belongs to a state that was. */
  lemma TrustedPeerGetsThrough(d: Device, p: Peer, identity: Identity, trust: Env, b: PeerBundle, env: Env)
    requires TrustPeer(d, p, identity, trust).1.Success? && d.configured && b.peer == p && env.faults == {}
    requires Held(d, p).Some? ==> Usable(Held(d, p).value)
    ensures var d' := TrustPeer(d, p, identity, trust).0;
      && (EncryptFor(d', b, env).1.Success? <==> b.identity == identity && Fits(Held(d, p), identity))
      && (DecryptFrom(d', p, env).1.Success? <==> Opens(Held(d, p), identity, env))
  {
    TrustWelcomes(d, p, identity, trust);
    var d' := TrustPeer(d, p, identity, trust).0;
    hide TrustPeer, EncryptFor, DecryptFrom, Welcome, Opens, Fits, Held;
    WelcomeEncrypts(d', b, identity, env);
    WelcomeDecrypts(d', p, identity, env);
  }

  lemma RecoveryWelcomes(d: Device, record: Recovery, confirmed: bool, verify: Verifier, env: Env)
    requires AcceptRecovery(d, record, confirmed, verify, env).1.Success?
    requires SessionOf(d, record.bundle.peer).Some? ==> Usable(SessionOf(d, record.bundle.peer).value)
    ensures var d' := AcceptRecovery(d, record, confirmed, verify, env).0; var p := record.bundle.peer;
      Welcome(d', p, record.bundle.identity) && OnDisk(d', p) == SessionOf(d, p) && d'.configured == d.configured
  {
    hide Hex, Usable;
    var p := record.bundle.peer;
    var saved := SaveIdentity(d, p, record.bundle.identity);
    var a := saved.(db := saved.db.(sessions := saved.db.sessions - {p}));
    var b := a.(db := a.db.(revocations := a.db.revocations[p := Revocation(Some(Hex(record.bundle.identity)))]));
    ResetFrame(Persist(b, p), env.faults);
    hide Reset;
  }

  /** With nothing failing, a peer just recovered can be written to exactly under its new identity and if no session
      was in memory or it had been set up with that identity already: the old session is written back. */
  lemma RecoveredPeerGetsThrough(
    d: Device, record: Recovery, confirmed: bool, verify: Verifier, recovery: Env, b: PeerBundle, env: Env)
    requires AcceptRecovery(d, record, confirmed, verify, recovery).1.Success?
    requires d.configured && b.peer == record.bundle.peer && env.faults == {}
    requires SessionOf(d, b.peer).Some? ==> Usable(SessionOf(d, b.peer).value)
    ensures var d' := AcceptRecovery(d, record, confirmed, verify, recovery).0; var identity := record.bundle.identity;
      && (EncryptFor(d', b, env).1.Success? <==> b.identity == identity && Fits(SessionOf(d, b.peer), identity))
      && (DecryptFrom(d', b.peer, env).1.Success? <==> Opens(SessionOf(d, b.peer), identity, env))
  {
    hide AcceptRecovery, EncryptFor, DecryptFrom, Welcome, Opens, Fits, Usable;
    RecoveryWelcomes(d, record, confirmed, verify, recovery);
    var d' := AcceptRecovery(d, record, confirmed, verify, recovery).0;
    WelcomeEncrypts(d', b, record.bundle.identity, env);
    WelcomeDecrypts(d', b.peer, record.bundle.identity, env);
  }

  // ---------------------------------------------------------------- a session set up with another identity

  predicate Foreign(s: Session, identity: Identity) {
    s.current.remote != identity
  }

  /** The peer is trusted under this identity, and its session, on disk and if there is one in memory, was set up
      with another. */
  predicate ShutOut(d: Device, p: Peer, identity: Identity) {
    && p in d.db.trusted && d.db.trusted[p] == identity
    && (p in d.store.trusted ==> d.store.trusted[p] == identity)
    && p in d.db.sessions && Foreign(d.db.sessions[p], identity)
    && (p in d.store.sessions ==> Foreign(d.store.sessions[p], identity))
  }

  lemma MaintainKeepsOut(d: Device, env: Env, p: Peer, identity: Identity)
    requires ShutOut(d, p, identity)
    ensures ShutOut(Maintain(d, env).0, p, identity)
  {
    hide Maintain, Foreign;
    MaintainFrame(d, env);
  }

  lemma LoadKeepsOut(d: Device, q: Peer, env: Env, p: Peer, identity: Identity)
    requires ShutOut(d, p, identity)
    ensures var (l, r) := LoadPeer(d, q, env);
      ShutOut(l, p, identity) && (r.Success? && q == p ==> p in l.store.sessions && p in l.store.trusted)
  {
    hide Foreign, LoadPeer;
    LoadFrame(d, q, env);
  }

  lemma PersistKeepsOut(d: Device, q: Peer, p: Peer, identity: Identity)
    requires ShutOut(d, p, identity)
    ensures ShutOut(Persist(d, q), p, identity)
  {
    hide Foreign;
  }

  lemma ResetKeepsOut(d: Device, faults: set<Fault>, p: Peer, identity: Identity)
    requires p in d.db.trusted && d.db.trusted[p] == identity && p in d.db.sessions && Foreign(d.db.sessions[p], identity)
    ensures ShutOut(Reset(d, faults).0, p, identity)
  {
    ResetFrame(d, faults);
    hide Reset, Foreign;
  }

  /** An encryption for the peer uses its session as it is and is refused; one for another peer does not touch it. */
  lemma SealKeepsOut(d: Device, q: Peer, env: Env, p: Peer, identity: Identity)
    requires ShutOut(d, p, identity) && (q == p ==> p in d.store.sessions && p in d.store.trusted)
    ensures ShutOut(Seal(d, q, env).0, p, identity) && (q == p ==> Seal(d, q, env).1.Failure?)
  {
    hide Advanced, Established, PutSession, Persist, Foreign, SessionOf;
    var session := if SessionOf(d, q).None? then Established(ChainFor(d, q, env)) else SessionOf(d, q).value;
    if q == p {
      assert session == d.store.sessions[p] && Foreign(session, identity) by { HeldInMemory(d, p); }
      assert !SessionTrusted(d, p, session) by { ForeignIsRefused(d, p, session, identity); }
      PutKeepsOut(d, q, session, p, identity);
    } else {
      PutKeepsOut(d, q, session, p, identity);
      if Usable(session) {
        PutKeepsOut(d, q, Advanced(session), p, identity);
        PersistKeepsOut(PutSession(d, q, Advanced(session)), q, p, identity);
      }
    }
    hide ShutOut, Usable, SessionTrusted, NextPosition;
  }

  lemma HeldInMemory(d: Device, p: Peer)
    requires p in d.store.sessions
    ensures SessionOf(d, p) == Some(d.store.sessions[p])
  {
  }

  lemma ForeignIsRefused(d: Device, p: Peer, s: Session, identity: Identity)
    requires p in d.store.trusted && d.store.trusted[p] == identity && Foreign(s, identity)
    ensures !SessionTrusted(d, p, s)
  {
  }

  lemma PutKeepsOut(d: Device, q: Peer, s: Session, p: Peer, identity: Identity)
    requires ShutOut(d, p, identity) && (q == p ==> Foreign(s, identity))
    ensures ShutOut(PutSession(d, q, s), p, identity)
  {
    hide Foreign;
  }

  lemma EncryptKeepsOut(d: Device, b: PeerBundle, env: Env, p: Peer, identity: Identity)
    requires ShutOut(d, p, identity)
    ensures ShutOut(EncryptFor(d, b, env).0, p, identity) && (b.peer == p ==> EncryptFor(d, b, env).1.Failure?)
  {
    hide Maintain, LoadPeer, Seal, ShutOut, IsRevoked, IdentityOf;
    MaintainKeepsOut(d, env, p, identity);
    var m := Maintain(d, env).0;
    LoadKeepsOut(m, b.peer, env, p, identity);
    var l := LoadPeer(m, b.peer, env).0;
    if b.peer != p || LoadPeer(m, b.peer, env).1.Success? { SealKeepsOut(l, b.peer, env, p, identity); }
  }

  lemma UnsealKeepsOut(d: Device, q: Peer, env: Env, p: Peer, identity: Identity)
    requires ShutOut(d, p, identity) && q != p
    ensures ShutOut(Unsealed(d, q, env), p, identity)
  {
    hide Received, Foreign;
  }

  lemma DecryptKeepsOut(d: Device, q: Peer, env: Env, p: Peer, identity: Identity)
    requires ShutOut(d, p, identity) && (q == p ==> Admit(d, q, env).1.Failure?)
    ensures ShutOut(DecryptFrom(d, q, env).0, p, identity)
  {
    hide Admit, LoadPeer, Maintain, Unsealed, Persist, ShutOut;
    LoadKeepsOut(d, q, env, p, identity);
    AdmitLoads(d, q, env);
    var (l, admitted) := Admit(d, q, env);
    if admitted.Success? {
      UnsealKeepsOut(l, q, env, p, identity);
      var u := Unsealed(l, q, env);
      MaintainKeepsOut(u, env, p, identity);
      PersistKeepsOut(Maintain(u, env).0, q, p, identity);
    }
  }

  /** The calls that can let the peer in again: trust in another identity, a revocation or recovery of the peer, a
      replacement of the own identity, and a message of the peer that is decrypted. */
  predicate Renews(d: Device, call: Call, env: Env, p: Peer, identity: Identity) {
    match call
    case TrustCall(q, other) => q == p && other != identity
    case RevokeCall(q) => q == p
    case RecoverCall(record, _) => record.bundle.peer == p
    case ReplaceCall(_, _) => true
    case DecryptCall(q) => q == p && Admit(d, q, env).1.Success?
    case _ => false
  }

  lemma TrustKeepsOut(d: Device, q: Peer, other: Identity, env: Env, p: Peer, identity: Identity)
    requires ShutOut(d, p, identity) && (q == p ==> other == identity)
    ensures ShutOut(TrustPeer(d, q, other, env).0, p, identity)
  {
    hide Persist;
    var a := SaveIdentity(d, q, other);
    var b := a.(db := a.db.(revocations := a.db.revocations - {q}));
    assert ShutOut(a, p, identity) && ShutOut(b, p, identity);
    PersistKeepsOut(b, q, p, identity);
    hide ShutOut, SaveIdentity;
  }

  lemma RevokeKeepsOut(d: Device, q: Peer, env: Env, p: Peer, identity: Identity)
    requires ShutOut(d, p, identity) && q != p
    ensures ShutOut(Revoke(d, q, env).0, p, identity)
  {
    hide Reset;
    var a := d.(db := d.db.(sessions := d.db.sessions - {q}));
    var b := a.(db := a.db.(trusted := a.db.trusted - {q}));
    var c := b.(db := b.db.(revocations := b.db.revocations[q := Revocation(None)]));
    assert ShutOut(a, p, identity) && ShutOut(b, p, identity);
    ResetKeepsOut(c, env.faults, p, identity);
    hide ShutOut;
  }

  lemma RecoverKeepsOut(
    d: Device, record: Recovery, confirmed: bool, verify: Verifier, env: Env, p: Peer, identity: Identity)
    requires ShutOut(d, p, identity) && record.bundle.peer != p
    ensures ShutOut(AcceptRecovery(d, record, confirmed, verify, env).0, p, identity)
  {
    hide Reset, Hex, Persist;
    var q := record.bundle.peer;
    var a := SaveIdentity(d, q, record.bundle.identity);
    var b := a.(db := a.db.(sessions := a.db.sessions - {q}));
    var c := b.(db := b.db.(revocations := b.db.revocations[q := Revocation(Some(Hex(record.bundle.identity)))]));
    assert ShutOut(a, p, identity) && ShutOut(b, p, identity) && ShutOut(c, p, identity);
    PersistKeepsOut(c, q, p, identity);
    ResetKeepsOut(Persist(c, q), env.faults, p, identity);
    hide ShutOut, SaveIdentity;
  }

  lemma CallKeepsOut(d: Device, call: Call, verify: Verifier, env: Env, p: Peer, identity: Identity)
    requires ShutOut(d, p, identity) && !Renews(d, call, env, p, identity)
    ensures ShutOut(Apply(d, call, verify, env).0, p, identity)
  {
    hide TrustPeer, Revoke, AcceptRecovery, EncryptFor, DecryptFrom, Maintain, LoadPeer, Persist, Reset, ShutOut, Admit;
    match call
    case TrustCall(q, other) => TrustKeepsOut(d, q, other, env, p, identity);
    case RevokeCall(q) => RevokeKeepsOut(d, q, env, p, identity);
    case RecoverCall(record, confirmed) => RecoverKeepsOut(d, record, confirmed, verify, env, p, identity);
    case EncryptCall(b) => EncryptKeepsOut(d, b, env, p, identity);
    case DecryptCall(q) => DecryptKeepsOut(d, q, env, p, identity);
    case ExportCall => MaintainKeepsOut(d, env, p, identity);
    case MaintainCall => MaintainKeepsOut(d, env, p, identity);
    case LoadCall(q) => LoadKeepsOut(d, q, env, p, identity);
    case PersistCall(q) => PersistKeepsOut(d, q, p, identity);
    case ReopenCall => OpenKeepsOut(d, p, identity);
    case _ =>
  }

  lemma OpenKeepsOut(d: Device, p: Peer, identity: Identity)
    requires ShutOut(d, p, identity)
    ensures ShutOut(Open(d), p, identity)
  {
    ResetKeepsOut(d.(store := BlankStore(d.db.identity, d.db.registration)), {}, p, identity);
    hide ShutOut, LoadRecords;
  }

  predicate NoneRenews(d: Device, steps: seq<Step>, verify: Verifier, p: Peer, identity: Identity)
    decreases |steps|
  {
    steps == []
    || (!Renews(d, steps[0].call, steps[0].env, p, identity)
        && NoneRenews(Apply(d, steps[0].call, verify, steps[0].env).0, steps[1..], verify, p, identity))
  }

  lemma {:induction false} RunKeepsOut(d: Device, steps: seq<Step>, verify: Verifier, p: Peer, identity: Identity)
    requires ShutOut(d, p, identity) && NoneRenews(d, steps, verify, p, identity)
    ensures ShutOut(After(d, steps, verify), p, identity)
    decreases |steps|
  {
    hide Apply, ShutOut, Renews;
    if steps != [] {
      CallKeepsOut(d, steps[0].call, verify, steps[0].env, p, identity);
      RunKeepsOut(Apply(d, steps[0].call, verify, steps[0].env).0, steps[1..], verify, p, identity);
    }
  }

  /** As long as no call renews the session no encryption for the peer succeeds, whatever bundle it is given and
      whatever else happens, a reopen included. */
  lemma ShutOutUntilRenewed(
    d: Device, steps: seq<Step>, verify: Verifier, p: Peer, identity: Identity, b: PeerBundle, env: Env)
    requires ShutOut(d, p, identity) && NoneRenews(d, steps, verify, p, identity) && b.peer == p
    ensures EncryptFor(After(d, steps, verify), b, env).1.Failure?
  {
    hide After, NoneRenews, ShutOut, EncryptFor;
    RunKeepsOut(d, steps, verify, p, identity);
    EncryptKeepsOut(After(d, steps, verify), b, env, p, identity);
  }

  /** A recovery accepted while a session with another identity than the new one is in memory shuts the peer out. */
  lemma RecoveryShutsOut(d: Device, record: Recovery, confirmed: bool, verify: Verifier, env: Env)
    requires AcceptRecovery(d, record, confirmed, verify, env).1.Success?
    requires var s := SessionOf(d, record.bundle.peer);
      s.Some? && Usable(s.value) && !Fits(s, record.bundle.identity)
    ensures ShutOut(AcceptRecovery(d, record, confirmed, verify, env).0, record.bundle.peer, record.bundle.identity)
  {
    hide AcceptRecovery, Hex, Usable;
    RecoveryWelcomes(d, record, confirmed, verify, env);
  }

  /** So does trust by hand given while a session with another identity is held. */
  lemma TrustShutsOut(d: Device, p: Peer, identity: Identity, env: Env)
    requires TrustPeer(d, p, identity, env).1.Success?
    requires Held(d, p).Some? && Usable(Held(d, p).value) && !Fits(Held(d, p), identity)
    ensures ShutOut(TrustPeer(d, p, identity, env).0, p, identity)
  {
    hide TrustPeer, Hex, Usable;
    TrustWelcomes(d, p, identity, env);
  }

  /** A message of the peer that is decrypted renews the session: it is under the trusted identity afterwards, and if
      the record held no state under it before, the message was an initial one. */
  lemma DecryptionRenews(d: Device, p: Peer, env: Env)
    requires DecryptFrom(d, p, env).1.Success?
    ensures var d' := DecryptFrom(d, p, env).0; var identity := DecryptFrom(d, p, env).1.value;
      && p in d'.db.sessions && d'.db.sessions[p].current.remote == identity
      && p in d'.db.trusted && d'.db.trusted[p] == identity
      && Opens(SessionOf(Admit(d, p, env).0, p), identity, env)
  {
    hide Maintain, LoadPeer, IsRevoked;
    var l := Admit(d, p, env).0;
    var u := Unsealed(l, p, env);
    assert u.store.sessions[p].current.remote == u.store.trusted[p];
    hide Admit, Unsealed;
    MaintainFrame(u, env);
  }

  /** A revocation followed by trust by hand renews it too: with nothing failing, the peer can be written to under
      the trusted identity. */
  lemma RevocationAndTrustRenew(
    d: Device, p: Peer, revocation: Env, identity: Identity, trust: Env, b: PeerBundle, env: Env)
    requires Revoke(d, p, revocation).1.Success? && TrustPeer(Revoke(d, p, revocation).0, p, identity, trust).1.Success?
    requires d.configured && b == PeerBundle(p, identity) && env.faults == {}
    ensures EncryptFor(TrustPeer(Revoke(d, p, revocation).0, p, identity, trust).0, b, env).1.Success?
  {
    var db := d.db.(sessions := d.db.sessions - {p}, trusted := d.db.trusted - {p});
    ResetFrame(d.(db := db.(revocations := db.revocations[p := Revocation(None)])), revocation.faults);
    var r := Revoke(d, p, revocation).0;
    assert r.configured && Held(r, p).None?;
    hide Revoke, Reset, TrustPeer, EncryptFor;
    TrustedPeerGetsThrough(r, p, identity, trust, b, env);
  }

  // ---------------------------------------------------------------- a revocation that does not get through

  /** The peer is trusted in memory, whatever rows are missing, and every session held for it can be used. */
  predicate InUse(d: Device, p: Peer, identity: Identity) {
    && d.configured
    && p in d.store.trusted && d.store.trusted[p] == identity
    && (p in d.db.trusted ==> d.db.trusted[p] == identity)
    && (p in d.db.revocations ==> d.db.revocations[p].newFingerprint == Some(Hex(identity)))
    && (p in d.store.sessions ==> Ours(d.store.sessions[p], identity))
    && (p in d.db.sessions ==> Ours(d.db.sessions[p], identity))
  }

  predicate Ours(s: Session, identity: Identity) {
    Usable(s) && s.current.remote == identity
  }

  lemma MaintainKeepsUse(d: Device, env: Env, p: Peer, identity: Identity)
    requires InUse(d, p, identity)
    ensures InUse(Maintain(d, env).0, p, identity)
  {
    hide Maintain, Hex, Ours;
    MaintainFrame(d, env);
  }

  lemma LoadKeepsUse(d: Device, p: Peer, env: Env, identity: Identity)
    requires InUse(d, p, identity) && env.faults == {}
    ensures var (l, r) := LoadPeer(d, p, env);
      && r.Success? && l.configured && IdentityOf(l, p) == Some(identity) && !IsRevoked(l, p)
      && (SessionOf(l, p).Some? ==> Ours(SessionOf(l, p).value, identity))
  {
    hide Hex, Ours;
  }

  lemma InUseEncrypts(d: Device, p: Peer, identity: Identity, env: Env)
    requires InUse(d, p, identity) && env.faults == {}
    ensures EncryptFor(d, PeerBundle(p, identity), env).1.Success?
  {
    hide Maintain, LoadPeer, Seal, IsRevoked, Usable, InUse;
    MaintainSucceeds(d, env);
    MaintainKeepsUse(d, env, p, identity);
    assert d.configured by { UseIsConfigured(d, p, identity); }
    var m := Maintain(d, env).0;
    LoadKeepsUse(m, p, env, identity);
    SealSucceedsIff(LoadPeer(m, p, env).0, p, identity, env);
  }

  lemma UseIsConfigured(d: Device, p: Peer, identity: Identity)
    requires InUse(d, p, identity)
    ensures d.configured
  {
  }

  /** A statement that fails before the revocation row is written leaves the peer in use. */
  lemma StoppedRevocationKeepsUse(d: Device, p: Peer, identity: Identity, revocation: Env)
    requires InUse(d, p, identity) && !(revocation.faults !! REVOCATION_STATEMENTS)
    ensures InUse(Revoke(d, p, revocation).0, p, identity)
  {
    hide Hex, Ours, Reset;
  }

  predicate NoTrust(steps: seq<Step>, p: Peer) {
    forall i :: 0 <= i < |steps| ==> !(steps[i].call.TrustCall? && steps[i].call.peer == p)
  }

  /** Neither call succeeds for the peer in any continuation without trust by hand. */
  ghost predicate Shut(d: Device, p: Peer, verify: Verifier) {
    forall steps, b: PeerBundle, env :: NoTrust(steps, p) && b.peer == p ==>
      EncryptFor(After(d, steps, verify), b, env).1.Failure? && DecryptFrom(After(d, steps, verify), p, env).1.Failure?
  }

  /** The barrier stands exactly if the statements up to the revocation row went through: for a peer that is trusted
      and whose sessions can be used, any of them that fails leaves it to be written to from memory. */
  lemma RevocationBarsIff(d: Device, p: Peer, identity: Identity, revocation: Env, verify: Verifier)
    requires InUse(d, p, identity)
    ensures Shut(Revoke(d, p, revocation).0, p, verify) <==> revocation.faults !! REVOCATION_STATEMENTS
  {
    hide Revoke, EncryptFor, DecryptFrom, InUse;
    var r := Revoke(d, p, revocation).0;
    if revocation.faults !! REVOCATION_STATEMENTS {
      forall steps, b: PeerBundle, env | NoTrust(steps, p) && b.peer == p
        ensures EncryptFor(After(r, steps, verify), b, env).1.Failure?
             && DecryptFrom(After(r, steps, verify), p, env).1.Failure?
      {
        hide After;
        RevocationIsABarrier(d, p, revocation, steps, verify, b, env);
      }
    } else {
      StoppedRevocationKeepsUse(d, p, identity, revocation);
      var smooth := revocation.(faults := {});
      InUseEncrypts(r, p, identity, smooth);
      assert After(r, [], verify) == r && NoTrust([], p);
    }
  }
}
