/** What a reopened device knows: exactly what was in memory when it was persisted, if the peer was loaded. */
module SignalStorage {
  import opened Wrappers
  import opened Bytes
  import opened SignalDevice
  import opened SignalCalls
  import opened SignalInventory

  /** All that bears on one peer: the device's keys and that peer's session and identity. */
  datatype View = View(
    identity: Identity, registration: nat, session: Option<Session>, trusted: Option<Identity>,
    prekeys: map<nat, Key>, signed: map<nat, Key>, kyber: map<nat, Key>)

  function ViewOf(d: Device, p: Peer): View {
    View(d.store.identity, d.store.registration, SessionOf(d, p), IdentityOf(d, p),
         d.store.prekeys, d.store.signed, d.store.kyber)
  }

  const NO_FAULTS: Env :=
    Env(0, {}, (id: nat) => 0, (id: nat) => 0, (id: nat) => 0, false, 0, {}, {}, 0,
        (key: Identity, record: Recovery) => [])

  /** The device after a restart, with the peer loaded. */
  function Restarted(d: Device, p: Peer): Device {
    LoadPeer(Open(d), p, NO_FAULTS).0
  }

  /** Whatever rows the disk has for the peer, and every Kyber prekey it has, have counterparts in memory. */
  predicate Loaded(d: Device, p: Peer) {
    && (p in d.db.sessions ==> p in d.store.sessions)
    && (p in d.db.trusted ==> p in d.store.trusted)
    && d.db.kyber.Keys <= d.store.kyber.Keys
  }

  lemma OpenView(d: Device, p: Peer)
    ensures var r := Restarted(d, p);
      && r.db == d.db
      && ViewOf(r, p) == View(
        d.db.identity, d.db.registration,
        if p in d.db.sessions then Some(d.db.sessions[p]) else None,
        if p in d.db.trusted then Some(d.db.trusted[p]) else None,
        d.db.prekeys, d.db.signed, d.db.kyber)
  {
    var o := Open(d);
    assert map[] + d.db.prekeys == d.db.prekeys && map[] + d.db.signed == d.db.signed && map[] + d.db.kyber == d.db.kyber;
    assert o.db == d.db && o.store.sessions == map[] && o.store.trusted == map[];
    hide Open;
  }

  lemma UnionIsSecond(a: map<nat, Key>, b: map<nat, Key>)
    ensures a + b == b <==> a.Keys <= b.Keys
  {
    if a + b == b {
      assert (a + b).Keys == a.Keys + b.Keys;
    }
  }

  /** A snapshot followed by a restart gives back what was in memory exactly when the peer was loaded. Rows that
      exist only on disk survive the snapshot, so memory without them is not what a restart finds. */
  lemma ReopenAgreesIffLoaded(d: Device, p: Peer)
    ensures ViewOf(Restarted(Persist(d, p), p), p) == ViewOf(d, p) <==> Loaded(d, p)
  {
    hide Restarted;
    OpenView(Persist(d, p), p);
    UnionIsSecond(d.db.kyber, d.store.kyber);
  }

  /** A snapshot for one peer leaves every other peer's rows and all revocations alone. */
  lemma SnapshotTouchesOnePeer(d: Device, p: Peer, q: Peer)
    requires q != p
    ensures var db := Persist(d, p).db;
      && (q in db.sessions <==> q in d.db.sessions) && (q in db.sessions ==> db.sessions[q] == d.db.sessions[q])
      && (q in db.trusted <==> q in d.db.trusted) && (q in db.trusted ==> db.trusted[q] == d.db.trusted[q])
      && db.revocations == d.db.revocations && db.rotatedAt == d.db.rotatedAt
      && ViewOf(Restarted(Persist(d, p), q), q).session == ViewOf(Restarted(d, q), q).session
      && ViewOf(Restarted(Persist(d, p), q), q).trusted == ViewOf(Restarted(d, q), q).trusted
  {
    OpenView(d, q);
    OpenView(Persist(d, p), q);
    hide Restarted;
  }

  // ---------------------------------------------------------------- calls that load, change and persist

  /** Disk has no row and no Kyber prekey that it did not have, unless memory has it too. */
  predicate NoNewRows(d: Device, d': Device, p: Peer) {
    && (p in d'.db.sessions ==> p in d.db.sessions || p in d'.store.sessions)
    && (p in d'.db.trusted ==> p in d.db.trusted || p in d'.store.trusted)
    && d'.db.kyber.Keys <= d.db.kyber.Keys + d'.store.kyber.Keys
    && (p in d.store.sessions ==> p in d'.store.sessions)
    && (p in d.store.trusted ==> p in d'.store.trusted)
    && d.store.kyber.Keys <= d'.store.kyber.Keys
  }

  lemma StaysLoaded(d: Device, d': Device, p: Peer)
    requires Loaded(d, p) && NoNewRows(d, d', p)
    ensures Loaded(d', p)
  {
  }

  lemma LoadLoads(d: Device, p: Peer, env: Env)
    requires d.db.kyber.Keys <= d.store.kyber.Keys && LoadPeer(d, p, env).1.Success?
    ensures Loaded(LoadPeer(d, p, env).0, p) && LoadPeer(d, p, env).0.db == d.db
  {
  }

  lemma KyberGrows(d: Device, env: Env)
    ensures var e := EnsureInventory(d, env).0; e.db == d.db && d.store.kyber.Keys <= e.store.kyber.Keys
  {
    EnsuredStore(d, env);
    hide EnsureInventory, MaxId, Replenished, Rotated;
  }

  lemma ConcludeKyber(d: Device, changed: bool, rotated: Option<nat>, env: Env)
    ensures var m := Conclude(d, changed, rotated, env).0; m.db.kyber.Keys <= d.db.kyber.Keys + d.store.kyber.Keys
  {
  }

  lemma MaintainKyber(d: Device, env: Env)
    ensures var m := Maintain(d, env).0;
      m.db.kyber.Keys <= d.db.kyber.Keys + m.store.kyber.Keys && d.store.kyber.Keys <= m.store.kyber.Keys
  {
    hide EnsureInventory, Overlap, Conclude;
    KyberGrows(d, env);
    var (e, r) := EnsureInventory(d, env);
    if r.Success? {
      var t := Trimmed(e);
      var changed := r.value.0 || |e.store.signed| > SIGNED_PREKEY_OVERLAP;
      ConcludeKyber(t, changed, r.value.1, env);
      ConcludeFrame(t, changed, r.value.1, env);
      assert t.db == d.db && t.store.kyber == e.store.kyber;
      assert Maintain(d, env) == Conclude(t, changed, r.value.1, env);
      hide Maintain, RowsFrom, Trimmed;
    }
  }

  lemma MaintainNoNewRows(d: Device, env: Env, p: Peer)
    ensures NoNewRows(d, Maintain(d, env).0, p)
  {
    hide Maintain;
    MaintainFrame(d, env);
    MaintainKyber(d, env);
  }

  /** A successful encryption ends with the snapshot of a device that has the peer loaded. */
  lemma SealedIsLoaded(d: Device, p: Peer, env: Env)
    requires Loaded(d, p) && Seal(d, p, env).1.Success?
    ensures exists e :: Loaded(e, p) && Seal(d, p, env).0 == Persist(e, p)
  {
    var session := if SessionOf(d, p).None? then Established(ChainFor(d, p, env)) else SessionOf(d, p).value;
    var e := PutSession(d, p, Advanced(session));
    assert Loaded(e, p) && Seal(d, p, env).0 == Persist(e, p);
    hide Persist, Loaded;
  }

  lemma PersistedAgrees(e: Device, p: Peer)
    requires Loaded(e, p)
    ensures var d := Persist(e, p); ViewOf(Restarted(d, p), p) == ViewOf(d, p)
  {
    ReopenAgreesIffLoaded(e, p);
    assert ViewOf(Persist(e, p), p) == ViewOf(e, p);
    hide Restarted, Persist, Loaded;
  }

  /** After a successful `encrypt_for`, a restart finds the session already past the envelope that was released. */
  lemma EncryptionSurvivesRestart(d: Device, b: PeerBundle, env: Env)
    requires d.db.kyber.Keys <= d.store.kyber.Keys && EncryptFor(d, b, env).1.Success?
    ensures var d' := EncryptFor(d, b, env).0; ViewOf(Restarted(d', b.peer), b.peer) == ViewOf(d', b.peer)
  {
    hide Maintain, LoadPeer, Seal, Restarted, ViewOf, Loaded, Persist, IsRevoked;
    var m := Maintain(d, env).0;
    MaintainNoNewRows(d, env, b.peer);
    assert m.db.kyber.Keys <= m.store.kyber.Keys;
    LoadLoads(m, b.peer, env);
    var l := LoadPeer(m, b.peer, env).0;
    SealedIsLoaded(l, b.peer, env);
    var e :| Loaded(e, b.peer) && Seal(l, b.peer, env).0 == Persist(e, b.peer);
    PersistedAgrees(e, b.peer);
  }

  lemma AdmittedIsLoaded(d: Device, p: Peer, env: Env)
    requires d.db.kyber.Keys <= d.store.kyber.Keys && Admit(d, p, env).1.Success?
    ensures Loaded(Unsealed(Admit(d, p, env).0, p, env), p)
  {
    LoadLoads(d, p, env);
    var l := LoadPeer(d, p, env).0;
    assert Admit(d, p, env).0 == l;
    hide Admit, LoadPeer, Received;
    assert NoNewRows(l, Unsealed(l, p, env), p);
    StaysLoaded(l, Unsealed(l, p, env), p);
  }

  /** After a successful `decrypt_from`, a restart finds the session and the prekeys as the decryption left them. */
  lemma DecryptionSurvivesRestart(d: Device, p: Peer, env: Env)
    requires d.db.kyber.Keys <= d.store.kyber.Keys && DecryptFrom(d, p, env).1.Success?
    ensures var d' := DecryptFrom(d, p, env).0; ViewOf(Restarted(d', p), p) == ViewOf(d', p)
  {
    hide Admit, Unsealed, Maintain, Restarted, ViewOf, Persist, Loaded, NoNewRows;
    AdmittedIsLoaded(d, p, env);
    var u := Unsealed(Admit(d, p, env).0, p, env);
    MaintainNoNewRows(u, env, p);
    StaysLoaded(u, Maintain(u, env).0, p);
    PersistedAgrees(Maintain(u, env).0, p);
  }

  /** `trust_peer` does not load the peer first, so a session row that is only on disk stays out of the view. */
  lemma TrustSurvivesRestartIffLoaded(d: Device, p: Peer, identity: Identity, env: Env)
    requires TrustPeer(d, p, identity, env).1.Success?
    ensures var d' := TrustPeer(d, p, identity, env).0;
      ViewOf(Restarted(d', p), p) == ViewOf(d', p)
      <==> (p in d.db.sessions ==> p in d.store.sessions) && d.db.kyber.Keys <= d.store.kyber.Keys
  {
    var a := SaveIdentity(d, p, identity);
    var b := a.(db := a.db.(revocations := a.db.revocations - {p}));
    ReopenAgreesIffLoaded(b, p);
    assert ViewOf(Persist(b, p), p) == ViewOf(b, p);
    hide Restarted, ViewOf, Persist;
  }

  // ---------------------------------------------------------------- calls that fail

  /** The disk holds the same session and identity of a peer, and the same revocations. */
  predicate SameRows(db: Database, db': Database, q: Peer) {
    && db'.revocations == db.revocations
    && (q in db'.sessions <==> q in db.sessions) && (q in db.sessions ==> db'.sessions[q] == db.sessions[q])
    && (q in db'.trusted <==> q in db.trusted) && (q in db.trusted ==> db'.trusted[q] == db.trusted[q])
  }

  lemma MaintainKeepsRows(d: Device, env: Env, q: Peer)
    requires q != d.local
    ensures SameRows(d.db, Maintain(d, env).0.db, q)
  {
    hide Maintain;
    MaintainFrame(d, env);
  }

  lemma RefusedSealKeepsDisk(d: Device, p: Peer, env: Env)
    requires Seal(d, p, env).1.Failure?
    ensures Seal(d, p, env).0.db == d.db
  {
    hide Advanced, Established, Usable;
  }

  lemma AuthorizeKeepsRows(d: Device, b: PeerBundle, env: Env, q: Peer)
    requires q != d.local
    ensures SameRows(d.db, Authorize(d, b, env).0.db, q)
  {
    hide Maintain, SameRows, IsRevoked, IdentityOf;
    MaintainKeepsRows(d, env, q);
    var m := Maintain(d, env).0;
    assert LoadPeer(m, b.peer, env).0.db == m.db;
    hide LoadPeer;
  }

  /** A refused `encrypt_for` leaves every row of every peer, except the device's own address, as it was. */
  lemma RefusedEncryptionKeepsRows(d: Device, b: PeerBundle, env: Env, q: Peer)
    requires EncryptFor(d, b, env).1.Failure? && q != d.local
    ensures SameRows(d.db, EncryptFor(d, b, env).0.db, q)
  {
    hide Authorize, Seal;
    AuthorizeKeepsRows(d, b, env, q);
    var (l, allowed) := Authorize(d, b, env);
    if d.configured && allowed.Success? {
      RefusedSealKeepsDisk(l, b.peer, env);
    }
  }

  /** Maintenance of this device reaches its commit and the commit succeeds: a first bundle, a restock, a rotation or
      a surplus of signed prekeys calls for it, and neither it nor the read before it fails. */
  predicate Commits(d: Device, env: Env) {
    && ReadRotation !in env.faults && MaintenanceCommit !in env.faults
    && (|| LacksBundle(d.store) || |Stocked(d.store, env).prekeys| < PREKEY_LOW_WATERMARK
        || Elapsed(env.now, d.db.rotatedAt) >= ROTATION_SECS
        || |EnsureInventory(d, env).0.store.signed| > SIGNED_PREKEY_OVERLAP)
  }

  lemma EnsuredChange(d: Device, env: Env)
    ensures var (e, r) := EnsureInventory(d, env);
      && (r.Failure? <==> ReadRotation in env.faults)
      && (r.Success? ==> (r.value.0 <==>
            || LacksBundle(d.store) || |Stocked(d.store, env).prekeys| < PREKEY_LOW_WATERMARK
            || Elapsed(env.now, d.db.rotatedAt) >= ROTATION_SECS))
  {
    hide Replenished, Stocked, Rotated;
  }

  lemma ConcludeCommits(d: Device, changed: bool, rotated: Option<nat>, env: Env)
    ensures var m := Conclude(d, changed, rotated, env).0;
      && m.store == d.store
      && m.db.prekeys == (if changed && MaintenanceCommit !in env.faults then d.store.prekeys else d.db.prekeys)
  {
  }

  /** The one-time prekeys on disk after maintenance: the restocked ones if it commits, the old ones if not. */
  lemma MaintainCommits(d: Device, env: Env)
    ensures Maintain(d, env).0.db.prekeys
         == if Commits(d, env) then Replenished(Stocked(d.store, env).prekeys, env) else d.db.prekeys
  {
    EnsuredStore(d, env);
    EnsuredChange(d, env);
    hide EnsureInventory, Overlap, Conclude, Replenished, Stocked, Rotated;
    var (e, r) := EnsureInventory(d, env);
    if r.Success? {
      ConcludeCommits(Trimmed(e), r.value.0 || |e.store.signed| > SIGNED_PREKEY_OVERLAP, r.value.1, env);
    }
  }

  lemma AdmitKeepsDisk(d: Device, p: Peer, env: Env)
    ensures var l := Admit(d, p, env).0; var u := Unsealed(l, p, env);
      && u.db == d.db && u.local == d.local && u.store.prekeys == d.store.prekeys - env.consumed
  {
    hide Admit, LoadPeer, Received;
    AdmitLoads(d, p, env);
    LoadFrame(d, p, env);
  }

  /** Decryption commits what maintenance commits before it commits the sender's session. If the last commit fails,
      the sender's rows on disk are the old ones, and the one-time prekeys on disk are those left after the
      decryption, restocked, exactly if maintenance had something to commit and did; otherwise they are the old
      ones. In the first case a prekey that the decryption consumed is gone: its id, if it is there, is a new key's. */
  lemma FailedDecryptionMayCommitPrekeysAlone(d: Device, p: Peer, env: Env)
    requires Admit(d, p, env).1.Success? && p != d.local && PeerCommit in env.faults
    ensures var (d', r) := DecryptFrom(d, p, env); var u := Unsealed(Admit(d, p, env).0, p, env);
      && r.Failure? && SameRows(d.db, d'.db, p)
      && d'.db.prekeys == (if Commits(u, env) then Replenished(Stocked(u.store, env).prekeys, env) else d.db.prekeys)
      && (Commits(u, env) && !LacksBundle(u.store) && Headroom(u.store.prekeys) && U32Ids(u.store.prekeys.Keys) ==>
          forall id :: id in env.consumed && id in d'.db.prekeys ==> id > MaxId(u.store.prekeys.Keys))
  {
    hide Admit, Unsealed, Maintain, SameRows, Commits, LacksBundle, Stocked, MaxId, Replenished, Headroom, U32Ids;
    AdmitKeepsDisk(d, p, env);
    var u := Unsealed(Admit(d, p, env).0, p, env);
    MaintainKeepsRows(u, env, p);
    MaintainCommits(u, env);
    NothingToCreate(u.store, env);
    if Headroom(u.store.prekeys) && U32Ids(u.store.prekeys.Keys) { ConsumedStayGone(d.store.prekeys, env); }
  }

  /** A decryption that fails after it has opened the message: the next call of the same process reads the sender's old
      row and decrypts the message again, or, if there is no row, goes on with the session that has used the message
      up. A restart undoes the decryption either way. */
  lemma FailedDecryptionStandsIffNoRow(d: Device, p: Peer, env: Env, retry: Env)
    requires Admit(d, p, env).1.Success? && DecryptFrom(d, p, env).1.Failure? && p != d.local && retry.faults == {}
    ensures var d' := DecryptFrom(d, p, env).0; var u := Unsealed(Admit(d, p, env).0, p, env);
      && LoadPeer(d', p, retry).1.Success? && LoadPeer(Open(d'), p, retry).1.Success?
      && SessionOf(LoadPeer(d', p, retry).0, p)
         == (if p in d.db.sessions then Some(d.db.sessions[p]) else SessionOf(u, p))
      && SessionOf(LoadPeer(Open(d'), p, retry).0, p)
         == (if p in d.db.sessions then Some(d.db.sessions[p]) else None)
  {
    var u := Unsealed(Admit(d, p, env).0, p, env);
    var d' := DecryptFrom(d, p, env).0;
    FailedDecryptionIsMaintained(d, p, env);
    hide DecryptFrom, Admit, Unsealed, Maintain, Open, LoadPeer;
    AdmitKeepsDisk(d, p, env);
    MaintainKeepsRows(u, env, p);
    assert SessionOf(d', p) == SessionOf(u, p) by { MaintainFrame(u, env); }
    OpenForgetsSessions(d', p);
    LoadFindsSession(d', p, retry);
    LoadFindsSession(Open(d'), p, retry);
  }

  lemma FailedDecryptionIsMaintained(d: Device, p: Peer, env: Env)
    requires Admit(d, p, env).1.Success? && DecryptFrom(d, p, env).1.Failure?
    ensures DecryptFrom(d, p, env).0 == Maintain(Unsealed(Admit(d, p, env).0, p, env), env).0
  {
    hide Admit, Unsealed, Maintain, Persist;
  }

  lemma OpenForgetsSessions(d: Device, p: Peer)
    ensures Open(d).db == d.db && SessionOf(Open(d), p).None?
  {
    ResetFrame(d.(store := BlankStore(d.db.identity, d.db.registration)), {});
    hide LoadRecords;
  }

  lemma LoadFindsSession(d: Device, p: Peer, env: Env)
    requires env.faults == {}
    ensures LoadPeer(d, p, env).1.Success?
    ensures SessionOf(LoadPeer(d, p, env).0, p)
         == if p in d.db.sessions then Some(d.db.sessions[p]) else SessionOf(d, p)
  {
  }

  lemma NothingToCreate(s: Store, env: Env)
    ensures !LacksBundle(s) ==> Stocked(s, env) == s
  {
  }

  /** A restock does not bring a consumed prekey back: it adds only ids above all that are left. */
  lemma ConsumedStayGone(prekeys: map<nat, Key>, env: Env)
    requires Headroom(prekeys - env.consumed) && U32Ids((prekeys - env.consumed).Keys)
    ensures var left := prekeys - env.consumed;
      forall id :: id in env.consumed && id in Replenished(left, env) ==> id > MaxId(left.Keys)
  {
    hide Headroom, U32Ids, Replenished, MaxId;
    var left := prekeys - env.consumed;
    forall id | id in env.consumed && id in Replenished(left, env) ensures id > MaxId(left.Keys) {
      RestockKeepsPrekeys(left, env, id);
    }
  }

  /** `accept_recovery` deletes the session row, but a session in memory is written back with the new identity. */
  lemma RecoveryKeepsALoadedSession(d: Device, record: Recovery, confirmed: bool, verify: Verifier, env: Env)
    requires AcceptRecovery(d, record, confirmed, verify, env).1.Success?
    ensures var d' := AcceptRecovery(d, record, confirmed, verify, env).0; var p := record.bundle.peer;
      && p in d'.db.trusted && d'.db.trusted[p] == record.bundle.identity
      && (p in d'.db.sessions <==> p in d.store.sessions)
      && (p in d.store.sessions ==> d'.db.sessions[p] == d.store.sessions[p])
  {
    hide Hex, LoadRecords;
    var p := record.bundle.peer;
    var saved := SaveIdentity(d, p, record.bundle.identity);
    var row := Revocation(Some(Hex(record.bundle.identity)));
    var a := saved.(db := saved.db.(sessions := saved.db.sessions - {p}));
    var b := a.(db := a.db.(revocations := a.db.revocations[p := row]));
    ResetFrame(Persist(b, p), env.faults);
    hide Reset;
  }
}
