/** Which identities a device trusts, over whole runs: revocation is a barrier, and every trusted identity goes back
    to one that was verified by hand through recovery records each signed by the identity before it. */
module SignalTrust {
  import opened Wrappers
  import opened Bytes
  import opened SignalDevice
  import opened SignalCalls

  datatype Step = Step(call: Call, env: Env)

  function After(d: Device, steps: seq<Step>, verify: Verifier): Device
    decreases |steps|
  {
    if steps == [] then d else After(Apply(d, steps[0].call, verify, steps[0].env).0, steps[1..], verify)
  }

  // ---------------------------------------------------------------- how calls change trust

  /** Identities in memory and on disk after an operation come from memory or disk before it. */
  ghost predicate TrustFrom(d: Device, d': Device) {
    && (forall p :: p in d'.store.trusted ==>
          || (p in d.store.trusted && d.store.trusted[p] == d'.store.trusted[p])
          || (p in d.db.trusted && d.db.trusted[p] == d'.store.trusted[p]))
    && (forall p :: p in d'.db.trusted ==>
          || (p in d.store.trusted && d.store.trusted[p] == d'.db.trusted[p])
          || (p in d.db.trusted && d.db.trusted[p] == d'.db.trusted[p]))
  }

  /** The operation neither adds trust nor touches the revocation table. */
  ghost predicate Neutral(d: Device, d': Device) {
    TrustFrom(d, d') && d'.db.revocations == d.db.revocations
  }

  lemma NeutralTransitive(a: Device, b: Device, c: Device)
    requires Neutral(a, b) && Neutral(b, c)
    ensures Neutral(a, c)
  {
  }

  lemma NeutralReflexive(d: Device)
    ensures Neutral(d, d)
  {
  }

  lemma UnsealIsNeutral(d: Device, p: Peer, env: Env)
    ensures Neutral(d, Unsealed(d, p, env))
  {
  }

  lemma PersistIsNeutral(d: Device, p: Peer)
    ensures Neutral(d, Persist(d, p))
  {
  }

  lemma LoadIsNeutral(d: Device, p: Peer, env: Env)
    ensures Neutral(d, LoadPeer(d, p, env).0)
  {
  }

  lemma MaintainIsNeutral(d: Device, env: Env)
    ensures Neutral(d, Maintain(d, env).0)
  {
    MaintainFrame(d, env);
    hide Maintain;
  }

  lemma ResetIsNeutral(d: Device, faults: set<Fault>)
    ensures Neutral(d, Reset(d, faults).0)
  {
    ResetFrame(d, faults);
    hide Reset;
  }

  lemma PutIsNeutral(d: Device, p: Peer, s: Session)
    ensures Neutral(d, PutSession(d, p, s))
  {
  }

  lemma SealIsNeutral(d: Device, p: Peer, env: Env)
    ensures Neutral(d, Seal(d, p, env).0)
  {
    hide Persist, Neutral, PutSession, Advanced;
    var session := if SessionOf(d, p).None? then Established(ChainFor(d, p, env)) else SessionOf(d, p).value;
    NeutralReflexive(d);
    PutIsNeutral(d, p, session);
    if Usable(session) {
      var e := PutSession(d, p, Advanced(session));
      PutIsNeutral(d, p, Advanced(session));
      PersistIsNeutral(e, p);
      NeutralTransitive(d, e, Persist(e, p));
    }
  }

  lemma EncryptIsNeutral(d: Device, b: PeerBundle, env: Env)
    ensures Neutral(d, EncryptFor(d, b, env).0)
  {
    hide Maintain, LoadPeer, Seal, Neutral;
    var m := Maintain(d, env).0;
    var l := LoadPeer(m, b.peer, env).0;
    MaintainIsNeutral(d, env);
    LoadIsNeutral(m, b.peer, env);
    SealIsNeutral(l, b.peer, env);
    NeutralTransitive(d, m, l);
    NeutralTransitive(d, l, Seal(l, b.peer, env).0);
    NeutralReflexive(d);
  }

  lemma DecryptIsNeutral(d: Device, p: Peer, env: Env)
    ensures Neutral(d, DecryptFrom(d, p, env).0)
  {
    hide Maintain, LoadPeer, Unsealed, Persist, Neutral;
    var l := LoadPeer(d, p, env).0;
    var o := Unsealed(l, p, env);
    var m := Maintain(o, env).0;
    LoadIsNeutral(d, p, env);
    UnsealIsNeutral(l, p, env);
    MaintainIsNeutral(o, env);
    PersistIsNeutral(m, p);
    NeutralTransitive(d, l, o);
    NeutralTransitive(d, o, m);
    NeutralTransitive(d, m, Persist(m, p));
  }

  /** Every call but the three that are about trust is neutral; replacing the own identity forgets all trust. */
  lemma OtherCallsAreNeutral(d: Device, call: Call, verify: Verifier, env: Env)
    requires !call.TrustCall? && !call.RevokeCall? && !call.RecoverCall?
    ensures Neutral(d, Apply(d, call, verify, env).0)
  {
    match call
    case EncryptCall(b) => EncryptIsNeutral(d, b, env);
    case DecryptCall(p) => DecryptIsNeutral(d, p, env);
    case ReplaceCall(identity, registration) => ReplaceIsNeutral(d, identity, registration, env);
    case LoadCall(p) => LoadIsNeutral(d, p, env);
    case ReopenCall => ResetIsNeutral(d.(store := BlankStore(d.db.identity, d.db.registration)), {});
    case PersistCall(p) => PersistIsNeutral(d, p);
    case _ => MaintainIsNeutral(d, env);
    hide EncryptFor, DecryptFrom, ReplaceIdentity, LoadPeer, Maintain, Persist, BundleOf, LoadRecords;
  }

  lemma ReplaceIsNeutral(d: Device, identity: Identity, registration: nat, env: Env)
    ensures Neutral(d, ReplaceIdentity(d, identity, registration, env).0)
  {
    var db := Database(identity, registration, map[], map[], map[], map[], map[], 0, d.db.revocations);
    var blank := d.(db := db, store := BlankStore(identity, registration));
    MaintainIsNeutral(blank, env);
    hide Maintain, BundleOf;
  }

  // ---------------------------------------------------------------- the revocation barrier

  /** Revoked by hand, with no identity left in memory or on disk. */
  predicate Barred(d: Device, p: Peer) {
    p in d.db.revocations && d.db.revocations[p].newFingerprint.None? && p !in d.store.trusted && p !in d.db.trusted
  }

  /** The statements of `revoke_device` up to and with the revocation row. */
  const REVOCATION_STATEMENTS := {DeleteSession, DeleteTrusted, WriteRevocation}

  lemma RevokeBars(d: Device, p: Peer, env: Env)
    requires env.faults !! REVOCATION_STATEMENTS
    ensures Barred(Revoke(d, p, env).0, p)
  {
    assert DeleteSession in REVOCATION_STATEMENTS;
    var db := d.db.(sessions := d.db.sessions - {p}, trusted := d.db.trusted - {p});
    var c := d.(db := db.(revocations := db.revocations[p := Revocation(None)]));
    assert Revoke(d, p, env) == Reset(c, env.faults);
    ResetFrame(c, env.faults);
    hide Reset, Revoke;
  }

  lemma NeutralKeepsBarred(d: Device, d': Device, p: Peer)
    requires Barred(d, p) && Neutral(d, d')
    ensures Barred(d', p)
  {
  }

  lemma RevokeKeepsBarred(d: Device, other: Peer, env: Env, p: Peer)
    requires Barred(d, p)
    ensures Barred(Revoke(d, other, env).0, p)
  {
    var a := d.(db := d.db.(sessions := d.db.sessions - {other}));
    var b := a.(db := a.db.(trusted := a.db.trusted - {other}));
    var c := b.(db := b.db.(revocations := b.db.revocations[other := Revocation(None)]));
    assert Barred(a, p) && Barred(b, p) && Barred(c, p);
    ResetIsNeutral(c, env.faults);
    NeutralKeepsBarred(c, Reset(c, env.faults).0, p);
    hide Reset, Barred, Neutral;
  }

  lemma TrustKeepsBarred(d: Device, other: Peer, identity: Identity, env: Env, p: Peer)
    requires Barred(d, p) && other != p
    ensures Barred(TrustPeer(d, other, identity, env).0, p)
  {
    hide Persist;
    var a := SaveIdentity(d, other, identity);
    PersistIsNeutral(a.(db := a.db.(revocations := a.db.revocations - {other})), other);
  }

  /** A recovery of a barred peer is refused; one of another peer is no concern of it. */
  lemma RecoverKeepsBarred(d: Device, record: Recovery, confirmed: bool, verify: Verifier, env: Env, p: Peer)
    requires Barred(d, p)
    ensures Barred(AcceptRecovery(d, record, confirmed, verify, env).0, p)
    ensures record.bundle.peer == p ==> AcceptRecovery(d, record, confirmed, verify, env).1.Failure?
  {
    hide Hex, Reset, Persist;
    var q := record.bundle.peer;
    if q != p {
      var a := SaveIdentity(d, q, record.bundle.identity);
      var b := a.(db := a.db.(sessions := a.db.sessions - {q}));
      var c := b.(db := b.db.(revocations := b.db.revocations[q := Revocation(Some(Hex(record.bundle.identity)))]));
      PersistIsNeutral(c, q);
      ResetFrame(Persist(c, q), env.faults);
    }
  }

  lemma CallKeepsBarred(d: Device, call: Call, verify: Verifier, env: Env, p: Peer)
    requires Barred(d, p) && !(call.TrustCall? && call.peer == p)
    ensures Barred(Apply(d, call, verify, env).0, p)
  {
    hide Barred, Neutral, TrustPeer, Revoke, AcceptRecovery, EncryptFor, DecryptFrom, ReplaceIdentity;
    hide LoadPeer, Maintain, Persist, Open, Export;
    match call
    case TrustCall(other, identity) => TrustKeepsBarred(d, other, identity, env, p);
    case RevokeCall(other) => RevokeKeepsBarred(d, other, env, p);
    case RecoverCall(record, confirmed) => RecoverKeepsBarred(d, record, confirmed, verify, env, p);
    case _ =>
      OtherCallsAreNeutral(d, call, verify, env);
      NeutralKeepsBarred(d, Apply(d, call, verify, env).0, p);
  }

  lemma {:induction false} RunKeepsBarred(d: Device, steps: seq<Step>, verify: Verifier, p: Peer)
    requires Barred(d, p)
    requires forall i :: 0 <= i < |steps| ==> !(steps[i].call.TrustCall? && steps[i].call.peer == p)
    ensures Barred(After(d, steps, verify), p)
    decreases |steps|
  {
    hide Barred, Apply;
    if steps != [] {
      CallKeepsBarred(d, steps[0].call, verify, steps[0].env, p);
      RunKeepsBarred(Apply(d, steps[0].call, verify, steps[0].env).0, steps[1..], verify, p);
    }
  }

  lemma BarredRefusesEncryption(d: Device, b: PeerBundle, env: Env)
    requires Barred(d, b.peer)
    ensures EncryptFor(d, b, env).1.Failure?
  {
    hide Maintain, Seal, LoadPeer, Neutral;
    var m := Maintain(d, env).0;
    MaintainIsNeutral(d, env);
    NeutralKeepsBarred(d, m, b.peer);
    LoadKeepsDatabase(m, b.peer, env);
  }

  lemma LoadKeepsDatabase(d: Device, p: Peer, env: Env)
    ensures LoadPeer(d, p, env).0.db == d.db
  {
  }

  lemma BarredRefusesDecryption(d: Device, p: Peer, env: Env)
    requires Barred(d, p)
    ensures DecryptFrom(d, p, env).1.Failure?
  {
    hide Maintain, Persist, Unsealed, LoadPeer;
    LoadKeepsDatabase(d, p, env);
  }

  /** Once a device is revoked no encryption for it and no decryption from it succeeds in any continuation, through
      reopening, recovery attempts and replacement of the own identity, until it is trusted again by hand. That holds
      as soon as the revocation row is written, even if the call then fails. */
  lemma RevocationIsABarrier(
    d: Device, p: Peer, revocation: Env, steps: seq<Step>, verify: Verifier, b: PeerBundle, env: Env)
    requires revocation.faults !! REVOCATION_STATEMENTS
    requires forall i :: 0 <= i < |steps| ==> !(steps[i].call.TrustCall? && steps[i].call.peer == p)
    requires b.peer == p
    ensures var later := After(Revoke(d, p, revocation).0, steps, verify);
      EncryptFor(later, b, env).1.Failure? && DecryptFrom(later, p, env).1.Failure?
  {
    hide Barred, After, Revoke, EncryptFor, DecryptFrom;
    RevokeBars(d, p, revocation);
    RunKeepsBarred(Revoke(d, p, revocation).0, steps, verify, p);
    BarredRefusesEncryption(After(Revoke(d, p, revocation).0, steps, verify), b, env);
    BarredRefusesDecryption(After(Revoke(d, p, revocation).0, steps, verify), p, env);
  }

  /** Trusting a peer by hand lifts the barrier. */
  lemma TrustLiftsTheBarrier(d: Device, p: Peer, identity: Identity, env: Env)
    requires TrustPeer(d, p, identity, env).1.Success?
    ensures var d' := TrustPeer(d, p, identity, env).0;
      !IsRevoked(d', p) && IdentityOf(d', p) == Some(identity) && p in d'.db.trusted && d'.db.trusted[p] == identity
  {
  }

  // ---------------------------------------------------------------- after a recovery

  predicate OnlyUnder(d: Device, p: Peer, identity: Identity) {
    p in d.db.revocations && d.db.revocations[p].newFingerprint == Some(Hex(identity))
  }

  lemma RecoveryConfines(d: Device, record: Recovery, confirmed: bool, verify: Verifier, env: Env)
    requires AcceptRecovery(d, record, confirmed, verify, env).1.Success?
    ensures OnlyUnder(AcceptRecovery(d, record, confirmed, verify, env).0, record.bundle.peer, record.bundle.identity)
  {
    hide Hex;
  }

  /** Calls that may change which identity a peer is accepted under. */
  predicate Concerns(call: Call, p: Peer) {
    match call
    case TrustCall(q, _) => q == p
    case RevokeCall(q) => q == p
    case RecoverCall(record, _) => record.bundle.peer == p
    case _ => false
  }

  lemma CallKeepsRevocation(d: Device, call: Call, verify: Verifier, env: Env, p: Peer)
    requires !Concerns(call, p)
    ensures var d' := Apply(d, call, verify, env).0;
      (p in d'.db.revocations <==> p in d.db.revocations)
      && (p in d.db.revocations ==> d'.db.revocations[p] == d.db.revocations[p])
  {
    hide Hex, EncryptFor, DecryptFrom, ReplaceIdentity, LoadPeer, Maintain, Open, Export, Reset;
    match call
    case TrustCall(other, identity) =>
    case RevokeCall(other) =>
      var db := d.db.(sessions := d.db.sessions - {other}, trusted := d.db.trusted - {other});
      ResetFrame(d.(db := db.(revocations := db.revocations[other := Revocation(None)])), env.faults);
    case RecoverCall(record, confirmed) =>
      RecoverRevocations(d, record, confirmed, verify, env);
    case _ => OtherCallsAreNeutral(d, call, verify, env);
  }

  lemma RecoverRevocations(d: Device, record: Recovery, confirmed: bool, verify: Verifier, env: Env)
    ensures var after := AcceptRecovery(d, record, confirmed, verify, env).0.db.revocations;
      after == d.db.revocations
      || after == d.db.revocations[record.bundle.peer := Revocation(Some(Hex(record.bundle.identity)))]
  {
    hide Hex, Reset, Persist;
    var q := record.bundle.peer;
    var a := SaveIdentity(d, q, record.bundle.identity);
    var b := a.(db := a.db.(sessions := a.db.sessions - {q}));
    var c := b.(db := b.db.(revocations := b.db.revocations[q := Revocation(Some(Hex(record.bundle.identity)))]));
    PersistIsNeutral(c, q);
    ResetFrame(Persist(c, q), env.faults);
  }

  lemma {:induction false} RunKeepsRevocation(d: Device, steps: seq<Step>, verify: Verifier, p: Peer, identity: Identity)
    requires OnlyUnder(d, p, identity)
    requires forall i :: 0 <= i < |steps| ==> !Concerns(steps[i].call, p)
    ensures OnlyUnder(After(d, steps, verify), p, identity)
    decreases |steps|
  {
    hide Apply, Hex;
    if steps != [] {
      CallKeepsRevocation(d, steps[0].call, verify, steps[0].env, p);
      RunKeepsRevocation(Apply(d, steps[0].call, verify, steps[0].env).0, steps[1..], verify, p, identity);
    }
  }

  lemma OnlyUnderAdmits(d: Device, p: Peer, identity: Identity, b: PeerBundle, env: Env)
    requires OnlyUnder(d, p, identity) && b.peer == p
    ensures EncryptFor(d, b, env).1.Success? ==> b.identity == identity
    ensures DecryptFrom(d, p, env).1.Success? ==> DecryptFrom(d, p, env).1.value == identity
  {
    MaintainIsNeutral(d, env);
    hide Maintain, Seal, Persist, Unsealed, Hex;
    var l := Authorize(d, b, env).0;
    if p in l.store.trusted && Hex(l.store.trusted[p]) == Hex(identity) {
      HexInjective(l.store.trusted[p], identity);
    }
    var a := Admit(d, p, env).0;
    if p in a.store.trusted && Hex(a.store.trusted[p]) == Hex(identity) {
      HexInjective(a.store.trusted[p], identity);
    }
  }

  /** An envelope leaves only in a session that was set up with the identity of the bundle it is for. */
  lemma SealedUnderTheBundlesIdentity(d: Device, b: PeerBundle, env: Env)
    requires EncryptFor(d, b, env).1.Success?
    ensures EncryptFor(d, b, env).1.value.peer == b.peer && EncryptFor(d, b, env).1.value.chain.remote == b.identity
  {
    hide Maintain, LoadPeer, IsRevoked, Persist, Advanced;
    var l := Authorize(d, b, env).0;
    assert b.peer in l.store.trusted && l.store.trusted[b.peer] == b.identity;
    hide Authorize;
  }

  /** After an accepted recovery encryption and decryption succeed only under the new identity, and envelopes leave
      only in sessions set up with it, in every continuation, until the peer is next trusted by hand, revoked or
      recovered. */
  lemma RecoveryConfinesThePeer(
    d: Device, record: Recovery, confirmed: bool, verify: Verifier, recovery: Env, steps: seq<Step>, b: PeerBundle,
    env: Env)
    requires AcceptRecovery(d, record, confirmed, verify, recovery).1.Success?
    requires forall i :: 0 <= i < |steps| ==> !Concerns(steps[i].call, record.bundle.peer)
    requires b.peer == record.bundle.peer
    ensures var later := After(AcceptRecovery(d, record, confirmed, verify, recovery).0, steps, verify);
      && (EncryptFor(later, b, env).1.Success? ==>
          b.identity == record.bundle.identity == EncryptFor(later, b, env).1.value.chain.remote)
      && var reply := DecryptFrom(later, b.peer, env).1;
        reply.Success? ==> reply.value == record.bundle.identity
  {
    hide OnlyUnder, After, AcceptRecovery, EncryptFor, DecryptFrom;
    var start := AcceptRecovery(d, record, confirmed, verify, recovery).0;
    RecoveryConfines(d, record, confirmed, verify, recovery);
    RunKeepsRevocation(start, steps, verify, b.peer, record.bundle.identity);
    var later := After(start, steps, verify);
    OnlyUnderAdmits(later, b.peer, record.bundle.identity, b, env);
    if EncryptFor(later, b, env).1.Success? { SealedUnderTheBundlesIdentity(later, b, env); }
  }
}
