/** When each operation of a Signal device succeeds, said of what memory, the database and the surroundings hold, and
    what it then leaves. */
module SignalAnswers {
  import opened Wrappers
  import opened Bytes
  import opened SignalDevice
  import opened SignalCalls
  import opened SignalInventory

  // ---------------------------------------------------------------- the snapshot and the restart

  /** A snapshot writes the device's identity and registration, the peer's session and identity if memory holds them,
      and all one-time and signed prekeys of memory in the place of those on disk; Kyber prekeys are added to those on
      disk; nothing else changes. */
  lemma SnapshotWrites(d: Device, p: Peer)
    ensures var db, s := Persist(d, p).db, d.store;
      && Persist(d, p) == d.(db := db)
      && db.identity == s.identity && db.registration == s.registration
      && (forall q :: q in db.sessions <==> q in d.db.sessions || (q == p && p in s.sessions))
      && (forall q :: q in db.sessions ==>
            db.sessions[q] == if q == p && p in s.sessions then s.sessions[p] else d.db.sessions[q])
      && (forall q :: q in db.trusted <==> q in d.db.trusted || (q == p && p in s.trusted))
      && (forall q :: q in db.trusted ==>
            db.trusted[q] == if q == p && p in s.trusted then s.trusted[p] else d.db.trusted[q])
      && db.prekeys == s.prekeys && db.signed == s.signed
      && (forall id :: id in db.kyber <==> id in d.db.kyber || id in s.kyber)
      && (forall id :: id in db.kyber ==> db.kyber[id] == if id in s.kyber then s.kyber[id] else d.db.kyber[id])
      && db.rotatedAt == d.db.rotatedAt && db.revocations == d.db.revocations
  {
  }

  /** After a restart memory holds exactly the identity and the keys on disk, and no session and no identity of a peer;
      the disk is as it was. */
  lemma RestartReads(d: Device)
    ensures var o := Open(d);
      && o == d.(store := o.store)
      && o.store.identity == d.db.identity && o.store.registration == d.db.registration
      && o.store.prekeys == d.db.prekeys && o.store.signed == d.db.signed && o.store.kyber == d.db.kyber
      && o.store.sessions == map[] && o.store.trusted == map[]
  {
    assert map[] + d.db.prekeys == d.db.prekeys && map[] + d.db.signed == d.db.signed && map[] + d.db.kyber == d.db.kyber;
  }

  /** Loading a peer succeeds exactly if both rows can be read; memory then holds the peer's session and identity from
      disk, or what it held if there is no row, and everything else as before. */
  lemma LoadPeerIff(d: Device, p: Peer, env: Env)
    ensures var (l, r) := LoadPeer(d, p, env);
      && (r.Success? <==> ReadSession !in env.faults && ReadTrusted !in env.faults)
      && (r.Success? ==>
            l == d.(store := d.store.(
              sessions := if p in d.db.sessions then d.store.sessions[p := d.db.sessions[p]] else d.store.sessions,
              trusted := if p in d.db.trusted then d.store.trusted[p := d.db.trusted[p]] else d.store.trusted)))
  {
  }

  // ---------------------------------------------------------------- maintenance

  /** There is no signed or no Kyber prekey. */
  predicate Bare(s: Store) {
    |s.signed| == 0 || |s.kyber| == 0
  }

  /** Maintenance has something to commit: a first bundle, one-time prekeys to restock, a rotation, or more than two
      signed prekeys. */
  predicate Changes(d: Device, env: Env) {
    Bare(d.store) || |d.store.prekeys| < 8 || env.now >= d.db.rotatedAt + 2592000 || |d.store.signed| > 2
  }

  /** Maintenance succeeds exactly if the rotation time can be read, the commit succeeds if there is something to commit,
      the new rotation time can be written if 30 days have passed, and the failure counter can be reset. */
  lemma MaintainSucceedsIff(d: Device, env: Env)
    ensures Maintain(d, env).1.Success?
       <==> && ReadRotation !in env.faults && StatusRow !in env.faults
            && (Changes(d, env) ==> MaintenanceCommit !in env.faults)
            && (env.now >= d.db.rotatedAt + 2592000 ==> RotationStamp !in env.faults)
  {
    hide Replenished, MaxId, Overlap, Persist;
  }

  /** Every key is an old one or a generated one, under its id. */
  ghost predicate OldOrNew(before: map<nat, Key>, after: map<nat, Key>, generate: nat -> Key) {
    forall id :: id in after ==> (id in before && after[id] == before[id]) || after[id] == generate(id)
  }

  lemma {:induction false} TurnsGenerate(prekeys: map<nat, Key>, n: nat, env: Env)
    ensures OldOrNew(prekeys, AfterTurns(prekeys, n, env), env.prekey)
  {
    if n > 0 {
      TurnsGenerate(prekeys, n - 1, env);
      hide IdOfTurn;
    }
  }

  lemma StockedGenerates(s: Store, env: Env)
    ensures var t := Stocked(s, env);
      && OldOrNew(s.prekeys, t.prekeys, env.prekey) && OldOrNew(s.signed, t.signed, env.signed)
      && OldOrNew(s.kyber, t.kyber, env.kyber)
  {
  }

  lemma RotatedGenerates(s: Store, env: Env)
    ensures OldOrNew(s.signed, Rotated(s, env).signed, env.signed)
  {
    hide MaxId;
  }

  lemma OverlapIsPart(signed: map<nat, Key>)
    ensures forall id :: id in Overlap(signed) ==> id in signed && Overlap(signed)[id] == signed[id]
  {
    hide NewestTwo;
  }

  lemma OldOrNewJoins(a: map<nat, Key>, b: map<nat, Key>, c: map<nat, Key>, generate: nat -> Key)
    requires OldOrNew(a, b, generate) && OldOrNew(b, c, generate)
    ensures OldOrNew(a, c, generate)
  {
  }

  lemma ReplenishedGenerates(prekeys: map<nat, Key>, env: Env)
    ensures OldOrNew(prekeys, Replenished(prekeys, env), env.prekey)
  {
    if |prekeys| < PREKEY_LOW_WATERMARK { TurnsGenerate(prekeys, PREKEY_TARGET - |prekeys|, env); }
  }

  /** All keys of the second store are those of the first or generated. */
  ghost predicate Generated(s: Store, t: Store, env: Env) {
    && OldOrNew(s.prekeys, t.prekeys, env.prekey) && OldOrNew(s.signed, t.signed, env.signed)
    && OldOrNew(s.kyber, t.kyber, env.kyber)
  }

  lemma EnsureGenerates(d: Device, env: Env)
    ensures Generated(d.store, EnsureInventory(d, env).0.store, env)
  {
    EnsuredStore(d, env);
    var stocked := Stocked(d.store, env);
    StockedGenerates(d.store, env);
    RotatedGenerates(stocked, env);
    ReplenishedGenerates(stocked.prekeys, env);
    hide EnsureInventory, Stocked, Replenished, Rotated, LacksBundle, OldOrNew;
    OldOrNewJoins(d.store.prekeys, stocked.prekeys, Replenished(stocked.prekeys, env), env.prekey);
    OldOrNewJoins(d.store.signed, stocked.signed, Rotated(stocked, env).signed, env.signed);
  }

  /** Whatever fails, maintenance leaves in memory only keys that were there, and keys generated by it, each under the id
      it was generated for. */
  lemma MaintenanceGenerates(d: Device, env: Env)
    ensures Generated(d.store, Maintain(d, env).0.store, env)
  {
    EnsureGenerates(d, env);
    MaintainedStore(d, env);
    OverlapIsPart(EnsureInventory(d, env).0.store.signed);
    hide EnsureInventory, Maintain, Overlap;
  }

  lemma MaintainedStore(d: Device, env: Env)
    ensures Maintain(d, env).0.store in {EnsureInventory(d, env).0.store, Trimmed(EnsureInventory(d, env).0).store}
  {
    hide EnsureInventory, Trimmed, Conclude;
    var (e, r) := EnsureInventory(d, env);
    if r.Success? {
      ConcludeFrame(Trimmed(e), r.value.0 || |e.store.signed| > SIGNED_PREKEY_OVERLAP, r.value.1, env);
    }
  }

  /** With memory and disk in agreement and ids left, successful maintenance leaves on disk what is in memory: 32
      one-time prekeys if there were fewer than 8, one or two signed prekeys, and a Kyber prekey. */
  lemma MaintenanceStocks(d: Device, env: Env)
    requires Synced(d) && !Bare(d.store) && Maintain(d, env).1.Success?
    requires (forall id :: id in d.store.prekeys ==> id <= 4294967263)
    ensures var d' := Maintain(d, env).0;
      && d'.db.prekeys == d'.store.prekeys && d'.db.signed == d'.store.signed && d'.db.kyber == d'.store.kyber
      && |d'.store.prekeys| == (if |d.store.prekeys| < 8 then 32 else |d.store.prekeys|)
      && 1 <= |d'.store.signed| <= 2 && |d'.store.kyber| >= 1
  {
    assert d.store.signed != map[] && d.store.kyber != map[];
    assert Stocked(d.store, env) == d.store;
    assert MaxId(d.store.prekeys.Keys) <= 4294967263 by {
      assert d.store.prekeys.Keys != {} ==> MaxId(d.store.prekeys.Keys) in d.store.prekeys;
    }
    hide Maintain, MaxId, Stocked, Overlap, EnsureInventory;
    MaintenanceRestoresInventory(d, env);
  }

  // ---------------------------------------------------------------- trust, revocation, recovery

  /** Trust by hand succeeds exactly if no other identity is held in memory and nothing fails. The identity is then held
      in memory and on disk, the revocation row is gone, and a session in memory is on disk; a refusal for another
      identity changes nothing. */
  lemma TrustPeerIff(d: Device, p: Peer, identity: Identity, env: Env)
    ensures var (d', r) := TrustPeer(d, p, identity, env);
      var free := p !in d.store.trusted || d.store.trusted[p] == identity;
      && (r.Success? <==> free && DeleteRevocation !in env.faults && PeerCommit !in env.faults)
      && (!free ==> d' == d && r == Failure(IdentityChanged))
      && (free ==> d'.store == d.store.(trusted := d.store.trusted[p := identity]))
      && (r.Success? ==>
            && p in d'.db.trusted && d'.db.trusted[p] == identity
            && (forall q :: q in d'.db.revocations <==> q in d.db.revocations && q != p)
            && (forall q :: q in d'.db.revocations ==> d'.db.revocations[q] == d.db.revocations[q])
            && (p in d.store.sessions ==> p in d'.db.sessions && d'.db.sessions[p] == d.store.sessions[p])
            && (p !in d.store.sessions ==> d'.db.sessions == d.db.sessions))
  {
    var a := SaveIdentity(d, p, identity);
    var b := a.(db := a.db.(revocations := a.db.revocations - {p}));
    SnapshotWrites(b, p);
  }

  /** A revocation succeeds exactly if nothing fails. The peer's rows are then gone, a revocation row without a new
      fingerprint is there, memory holds no session and no identity at all, and the rows of others are as before. */
  lemma RevokeIff(d: Device, p: Peer, env: Env)
    ensures var (d', r) := Revoke(d, p, env);
      && (r.Success? <==>
            env.faults !! {DeleteSession, DeleteTrusted, WriteRevocation, ReadPrekeys, ReadSigned, ReadKyber})
      && (r.Success? ==>
            && d'.db.sessions == (map q | q in d.db.sessions && q != p :: d.db.sessions[q])
            && d'.db.trusted == (map q | q in d.db.trusted && q != p :: d.db.trusted[q])
            && d'.db.revocations == d.db.revocations[p := Revocation(None)]
            && d'.store.sessions == map[] && d'.store.trusted == map[])
  {
    var a := d.(db := d.db.(sessions := d.db.sessions - {p}));
    var b := a.(db := a.db.(trusted := a.db.trusted - {p}));
    var c := b.(db := b.db.(revocations := b.db.revocations[p := Revocation(None)]));
    ResetFrame(c, env.faults);
    ResetSucceedsIff(c, env.faults);
    hide Reset;
  }

  lemma ResetSucceedsIff(d: Device, faults: set<Fault>)
    ensures Reset(d, faults).1.Success? <==> ReadPrekeys !in faults && ReadSigned !in faults && ReadKyber !in faults
  {
  }

  /** A recovery succeeds exactly if it is confirmed by the caller and in the record, the record's signature verifies
      under the identity it names as the previous one, that is the one memory holds for the peer, and nothing fails. The
      new identity is then the trusted one on disk and the only one the revocation row admits; memory holds no session
      and no identity. */
  lemma AcceptRecoveryIff(d: Device, record: Recovery, confirmed: bool, verify: Verifier, env: Env)
    ensures var (d', r) := AcceptRecovery(d, record, confirmed, verify, env); var p := record.bundle.peer;
      && (r.Success? <==>
            && confirmed && record.confirmation && verify(record.previous, record)
            && p in d.store.trusted && d.store.trusted[p] == record.previous
            && env.faults !! {DeleteSession, WriteRevocation, WriteRecovery, PeerCommit}
            && env.faults !! {ReadPrekeys, ReadSigned, ReadKyber})
      && (r.Success? ==>
            && r.value == record.bundle
            && p in d'.db.trusted && d'.db.trusted[p] == record.bundle.identity
            && d'.db.revocations == d.db.revocations[p := Revocation(Some(Hex(record.bundle.identity)))]
            && (p in d'.db.sessions <==> p in d.store.sessions)
            && (p in d.store.sessions ==> d'.db.sessions[p] == d.store.sessions[p])
            && d'.store.sessions == map[] && d'.store.trusted == map[])
  {
    var p := record.bundle.peer;
    var saved := SaveIdentity(d, p, record.bundle.identity);
    var a := saved.(db := saved.db.(sessions := saved.db.sessions - {p}));
    var b := a.(db := a.db.(revocations := a.db.revocations[p := Revocation(Some(Hex(record.bundle.identity)))]));
    SnapshotWrites(b, p);
    ResetFrame(Persist(b, p), env.faults);
    ResetSucceedsIff(Persist(b, p), env.faults);
    hide Reset, Persist, Hex;
  }

  // ---------------------------------------------------------------- messages

  /** The session a call works with: the row, or what memory holds if there is none. */
  function SessionFor(d: Device, p: Peer): Option<Session> {
    if p in d.db.sessions then Some(d.db.sessions[p])
    else if p in d.store.sessions then Some(d.store.sessions[p]) else None
  }

  /** The identity a call works with. */
  function IdentityFor(d: Device, p: Peer): Option<Identity> {
    if p in d.db.trusted then Some(d.db.trusted[p])
    else if p in d.store.trusted then Some(d.store.trusted[p]) else None
  }

  /** The revocation row, if there is one, admits this identity. */
  predicate Admits(d: Device, p: Peer, identity: Option<Identity>) {
    p in d.db.revocations ==>
      identity.Some? && d.db.revocations[p].newFingerprint == Some(Hex(identity.value))
  }

  lemma LoadFinds(d: Device, p: Peer, env: Env)
    requires LoadPeer(d, p, env).1.Success?
    ensures var l := LoadPeer(d, p, env).0;
      && l.db == d.db && SessionOf(l, p) == SessionFor(d, p) && IdentityOf(l, p) == IdentityFor(d, p)
      && (IsRevoked(l, p) <==> !Admits(d, p, IdentityFor(d, p)))
  {
    LoadPeerIff(d, p, env);
    hide LoadPeer, Hex;
  }

  /** The reads of a peer's rows. */
  const READS := {ReadSession, ReadTrusted, ReadRevocation}

  /** The session is there or can be set up, can be used, and belongs to this identity. */
  predicate CanSeal(s: Option<Session>, identity: Identity, env: Env) {
    match s
    case None => ProcessBundle !in env.faults
    case Some(session) => session.current in session.next && session.current.remote == identity
  }

  /** An encryption succeeds exactly if the device is configured, maintenance succeeds, the peer's rows can be read and
      its revocation row, if any, admits its identity, that is the bundle's, there is or can be set up a session with
      that identity, and neither encryption nor encoding nor the commit fails. */
  lemma EncryptForIff(d: Device, b: PeerBundle, env: Env)
    ensures var m := Maintain(d, env).0; var p := b.peer;
      EncryptFor(d, b, env).1.Success?
      <==> && d.configured && Maintain(d, env).1.Success? && env.faults !! READS
           && IdentityFor(m, p) == Some(b.identity) && Admits(m, p, Some(b.identity))
           && CanSeal(SessionFor(m, p), b.identity, env)
           && env.faults !! {Encrypt, Encode, PeerCommit}
  {
    hide Maintain, LoadPeer, IsRevoked, Admits, CanSeal, Seal, Authorize, READS;
    AuthorizeIff(d, b, env);
    var (l, allowed) := Authorize(d, b, env);
    if allowed.Success? { SealSucceedsIff(l, b.peer, b.identity, env); }
  }

  lemma AuthorizeIff(d: Device, b: PeerBundle, env: Env)
    ensures var m := Maintain(d, env).0; var p := b.peer; var (l, r) := Authorize(d, b, env);
      && (r.Success? <==>
            && Maintain(d, env).1.Success? && env.faults !! READS
            && IdentityFor(m, p) == Some(b.identity) && Admits(m, p, Some(b.identity)))
      && (r.Success? ==> SessionOf(l, p) == SessionFor(m, p) && IdentityOf(l, p) == Some(b.identity))
  {
    var m := Maintain(d, env).0;
    LoadPeerIff(m, b.peer, env);
    assert ReadSession in READS && ReadTrusted in READS && ReadRevocation in READS;
    hide Maintain, LoadPeer, IsRevoked, Admits, SessionFor, IdentityFor;
    if LoadPeer(m, b.peer, env).1.Success? { LoadFinds(m, b.peer, env); }
  }

  lemma SealSucceedsIff(d: Device, p: Peer, identity: Identity, env: Env)
    requires IdentityOf(d, p) == Some(identity)
    ensures Seal(d, p, env).1.Success?
       <==> CanSeal(SessionOf(d, p), identity, env) && env.faults !! {Encrypt, Encode, PeerCommit}
  {
    hide Persist, Advanced;
  }

  /** The session an encryption uses. */
  function SealedIn(s: Option<Session>, identity: Identity, env: Env): Session {
    if s.Some? then s.value else Session(Chain(env.draw, identity), map[Chain(env.draw, identity) := 0])
  }

  /** The envelope is released at the session's position, and memory and disk both hold the session one further on; no
      other peer's session moves. */
  lemma EncryptForMoves(d: Device, b: PeerBundle, env: Env, q: Peer)
    requires EncryptFor(d, b, env).1.Success? && q != b.peer && q != d.local
    ensures var (d', r) := EncryptFor(d, b, env); var p := b.peer;
      var s := SealedIn(SessionFor(Maintain(d, env).0, p), b.identity, env);
      && s.current in s.next
      && r.value == Position(p, s.current, s.next[s.current])
      && p in d'.store.sessions && p in d'.db.sessions && d'.store.sessions[p] == d'.db.sessions[p]
      && d'.db.sessions[p] == Session(s.current, s.next[s.current := s.next[s.current] + 1])
      && p in d'.db.trusted && d'.db.trusted[p] == b.identity
      && (q in d'.db.sessions <==> q in d.db.sessions) && (q in d.db.sessions ==> d'.db.sessions[q] == d.db.sessions[q])
      && (q in d'.store.sessions <==> q in d.store.sessions)
      && (q in d.store.sessions ==> d'.store.sessions[q] == d.store.sessions[q])
  {
    EncryptForIff(d, b, env);
    var m := Maintain(d, env).0;
    MaintainFrame(d, env);
    LoadPeerIff(m, b.peer, env);
    var l := LoadPeer(m, b.peer, env).0;
    assert LoadPeer(m, b.peer, env).1.Success? by { hide LoadPeer, Maintain, Seal; }
    LoadFinds(m, b.peer, env);
    SealMoves(l, b.peer, b.identity, env, q);
    hide Maintain, LoadPeer, Seal, IsRevoked, Admits, CanSeal, SealedIn, Persist;
  }

  lemma SealMoves(d: Device, p: Peer, identity: Identity, env: Env, q: Peer)
    requires IdentityOf(d, p) == Some(identity) && Seal(d, p, env).1.Success? && q != p
    ensures var (d', r) := Seal(d, p, env); var s := SealedIn(SessionOf(d, p), identity, env);
      && s.current in s.next
      && r.value == Position(p, s.current, s.next[s.current])
      && p in d'.store.sessions && p in d'.db.sessions && d'.store.sessions[p] == d'.db.sessions[p]
      && d'.db.sessions[p] == Session(s.current, s.next[s.current := s.next[s.current] + 1])
      && p in d'.db.trusted && d'.db.trusted[p] == identity
      && (q in d'.db.sessions <==> q in d.db.sessions) && (q in d.db.sessions ==> d'.db.sessions[q] == d.db.sessions[q])
      && (q in d'.store.sessions <==> q in d.store.sessions)
      && (q in d.store.sessions ==> d'.store.sessions[q] == d.store.sessions[q])
  {
    var s := if SessionOf(d, p).None? then Established(ChainFor(d, p, env)) else SessionOf(d, p).value;
    SnapshotWrites(PutSession(d, p, Advanced(s)), p);
    hide Persist;
  }

  /** A decryption succeeds exactly if the sender's rows can be read, it is trusted and its revocation row, if any,
      admits that identity, the envelope decodes and decrypts in a state set up with that identity, maintenance succeeds
      after it, and the commit does not fail. It reports that identity. */
  lemma DecryptFromIff(d: Device, p: Peer, env: Env)
    ensures var r := DecryptFrom(d, p, env).1; var identity := IdentityFor(d, p);
      && (r.Success? <==>
            && env.faults !! READS && identity.Some? && Admits(d, p, identity)
            && env.faults !! {Decode, Decrypt, PeerCommit}
            && Readable(SessionFor(d, p), identity.value, env)
            && Maintain(Unsealed(LoadPeer(d, p, env).0, p, env), env).1.Success?)
      && (r.Success? ==> r.value == identity.value)
  {
    hide Maintain, Unsealed, Persist, Admit, Readable, READS, Admits, LoadPeer;
    AdmitIff(d, p, env);
  }

  /** Some state of the session can open what the surroundings hand in: a message that is not initial takes one that was
      set up with this identity. */
  predicate Readable(s: Option<Session>, identity: Identity, env: Env) {
    env.initial || (s.Some? && exists c :: c in s.value.next && c.remote == identity)
  }

  lemma AdmitIff(d: Device, p: Peer, env: Env)
    ensures var (l, r) := Admit(d, p, env); var identity := IdentityFor(d, p);
      && l == LoadPeer(d, p, env).0
      && (r.Success? <==>
            && env.faults !! READS && identity.Some? && Admits(d, p, identity)
            && env.faults !! {Decode, Decrypt} && Readable(SessionFor(d, p), identity.value, env))
      && (r.Success? ==> r.value == identity.value)
  {
    LoadPeerIff(d, p, env);
    assert ReadSession in READS && ReadTrusted in READS && ReadRevocation in READS;
    hide LoadPeer, IsRevoked, Admits, SessionFor, IdentityFor;
    if LoadPeer(d, p, env).1.Success? { LoadFinds(d, p, env); }
  }

  /** After a decryption memory and disk hold one session for the sender, on the chain in use, which was set up with the
      trusted identity; the consumed one-time prekeys are gone or have been generated anew; and a chain that is kept
      goes on where it was. */
  lemma DecryptFromMoves(d: Device, p: Peer, env: Env)
    requires DecryptFrom(d, p, env).1.Success?
    ensures var (d', r) := DecryptFrom(d, p, env); var chain := Chain(env.draw, r.value);
      && p in d'.store.sessions && p in d'.db.sessions && d'.store.sessions[p] == d'.db.sessions[p]
      && p in d'.db.trusted && d'.db.trusted[p] == r.value
      && var s := d'.db.sessions[p]; var before := SessionFor(d, p);
        && s.current == chain && chain in s.next
        && (forall c :: c in s.next ==>
              if before.Some? && c in before.value.next
              then s.next[c] == before.value.next[c] && (c == chain || c in env.kept)
              else c == chain && s.next[c] == 0)
        && (forall id :: id in env.consumed && id in d'.db.prekeys ==> d'.db.prekeys[id] == env.prekey(id))
  {
    var u := Unsealed(LoadPeer(d, p, env).0, p, env);
    DecryptedDevice(d, p, env);
    hide DecryptFrom, Maintain, LoadPeer, Unsealed, Persist, SessionFor, IdentityFor, Admits;
    var m := Maintain(u, env).0;
    MaintainFrame(u, env);
    MaintenanceGenerates(u, env);
    SnapshotWrites(m, p);
    assert forall id :: id in env.consumed ==> id !in u.store.prekeys;
  }

  /** The device a successful decryption leaves, and what it did to the runtime store. */
  lemma DecryptedDevice(d: Device, p: Peer, env: Env)
    requires DecryptFrom(d, p, env).1.Success?
    ensures var (d', r) := DecryptFrom(d, p, env); var u := Unsealed(LoadPeer(d, p, env).0, p, env);
      var chain := Chain(env.draw, r.value); var before := SessionFor(d, p);
      && d' == Persist(Maintain(u, env).0, p)
      && p in u.store.trusted && u.store.trusted[p] == r.value && p in u.store.sessions
      && (forall id :: id in u.store.prekeys ==> id !in env.consumed)
      && var s := u.store.sessions[p];
        && s.current == chain && chain in s.next
        && (forall c :: c in s.next ==>
              if before.Some? && c in before.value.next
              then s.next[c] == before.value.next[c] && (c == chain || c in env.kept)
              else c == chain && s.next[c] == 0)
  {
    AdmitIff(d, p, env);
    LoadPeerIff(d, p, env);
    var l := LoadPeer(d, p, env).0;
    hide Admit, LoadPeer, Unsealed, Maintain, Persist, SessionFor, IdentityFor, Admits, READS;
    assert LoadPeer(d, p, env).1.Success? by { AdmittedIsLoaded(d, p, env); }
    LoadFinds(d, p, env);
    UnsealedSession(l, p, env);
  }

  lemma AdmittedIsLoaded(d: Device, p: Peer, env: Env)
    requires Admit(d, p, env).1.Success?
    ensures LoadPeer(d, p, env).1.Success?
  {
    hide LoadPeer, IsRevoked;
  }

  lemma UnsealedSession(l: Device, p: Peer, env: Env)
    requires p in l.store.trusted
    ensures var u := Unsealed(l, p, env); var before := SessionOf(l, p); var chain := Chain(env.draw, l.store.trusted[p]);
      && u.db == l.db && u.store.trusted == l.store.trusted && u.store.prekeys == l.store.prekeys - env.consumed
      && p in u.store.sessions
      && var s := u.store.sessions[p];
        && s.current == chain && chain in s.next
        && (forall c :: c in s.next ==>
              if before.Some? && c in before.value.next
              then s.next[c] == before.value.next[c] && (c == chain || c in env.kept)
              else c == chain && s.next[c] == 0)
  {
  }

  // ---------------------------------------------------------------- export

  /** An export succeeds exactly if maintenance does and leaves a key of each kind; the bundle names the device's
      identity, one of its one-time prekeys, and the newest of the others. */
  lemma ExportIff(d: Device, env: Env)
    ensures var (d', r) := Export(d, env); var s := d'.store;
      && d' == Maintain(d, env).0
      && (r.Success? <==> Maintain(d, env).1.Success? && s.prekeys != map[] && s.signed != map[] && s.kyber != map[])
      && (r.Success? ==>
            && r.value.identity == s.identity
            && r.value.prekey in s.prekeys && (env.pick in s.prekeys ==> r.value.prekey == env.pick)
            && r.value.signed in s.signed && (forall id :: id in s.signed ==> id <= r.value.signed)
            && r.value.kyber in s.kyber && (forall id :: id in s.kyber ==> id <= r.value.kyber))
  {
    var s := Maintain(d, env).0.store;
    if s.prekeys != map[] && s.signed != map[] && s.kyber != map[] { BundleNames(s, env.pick); }
    hide Maintain, MaxId;
  }
}
