/** The calls a front end makes on a Signal device, and what maintenance leaves alone. */
module SignalCalls {
  import opened Wrappers
  import opened Bytes
  import opened SignalDevice

  datatype Call =
    | TrustCall(peer: Peer, identity: Identity)
    | RevokeCall(peer: Peer)
    | RecoverCall(record: Recovery, confirmed: bool)
    | ReplaceCall(identity: Identity, registration: nat)
    | EncryptCall(bundle: PeerBundle)
    | DecryptCall(peer: Peer)
    | ExportCall
    | MaintainCall
    | LoadCall(peer: Peer)
    | PersistCall(peer: Peer)
    | ReopenCall

  datatype Reply =
    | Refused(reason: Refusal)
    | Accepted
    | Sealed(position: Position)
    | Opened(under: Identity)
    | Published(bundle: OwnBundle)

  type Verifier = (Identity, Recovery) -> bool

  function Plain<T>(r: Result<T, Refusal>): Reply {
    match r case Success(_) => Accepted case Failure(e) => Refused(e)
  }

  function Bundled(r: Result<OwnBundle, Refusal>): Reply {
    match r case Success(b) => Published(b) case Failure(e) => Refused(e)
  }

  function Apply(d: Device, call: Call, verify: Verifier, env: Env): (Device, Reply) {
    match call
    case TrustCall(p, identity) => var (d', r) := TrustPeer(d, p, identity, env); (d', Plain(r))
    case RevokeCall(p) => var (d', r) := Revoke(d, p, env); (d', Plain(r))
    case RecoverCall(record, confirmed) => var (d', r) := AcceptRecovery(d, record, confirmed, verify, env); (d', Plain(r))
    case ReplaceCall(identity, registration) =>
      var (d', r) := ReplaceIdentity(d, identity, registration, env);
      (d', match r case Success(all) => Published(all.0) case Failure(e) => Refused(e))
    case EncryptCall(b) =>
      var (d', r) := EncryptFor(d, b, env); (d', match r case Success(at) => Sealed(at) case Failure(e) => Refused(e))
    case DecryptCall(p) =>
      var (d', r) := DecryptFrom(d, p, env); (d', match r case Success(id) => Opened(id) case Failure(e) => Refused(e))
    case ExportCall => var (d', r) := Export(d, env); (d', Bundled(r))
    case MaintainCall => var (d', r) := Maintain(d, env); (d', Plain(r))
    case LoadCall(p) => var (d', r) := LoadPeer(d, p, env); (d', Plain(r))
    case PersistCall(p) =>
      if PeerCommit in env.faults then (d, Refused(Failed(PeerCommit))) else (Persist(d, p), Accepted)
    case ReopenCall => (Open(d), Accepted)
  }

  predicate SameButKeys(s: Store, t: Store) {
    t.(prekeys := s.prekeys, signed := s.signed, kyber := s.kyber) == s
  }

  lemma EnsureFrame(d: Device, env: Env)
    ensures var d' := EnsureInventory(d, env).0;
      d' == d.(store := d'.store) && SameButKeys(d.store, d'.store)
  {
    hide Replenished, MaxId;
    var stocked := Stocked(d.store, env);
    assert SameButKeys(d.store, stocked);
    var s := stocked.(prekeys := Replenished(stocked.prekeys, env));
    assert SameButKeys(d.store, s) && SameButKeys(d.store, Rotated(s, env));
    hide SameButKeys, Stocked, Rotated;
  }

  /** A peer's rows are written, if at all, from memory, and only those of the local address. */
  predicate RowsFrom(db: Database, s: Store, p: Peer, db': Database) {
    && db'.revocations == db.revocations
    && (|| (db'.sessions == db.sessions && db'.trusted == db.trusted)
        || (db'.sessions == Snapshot(db, s, p).sessions && db'.trusted == Snapshot(db, s, p).trusted))
  }

  lemma ConcludeFrame(d: Device, changed: bool, rotated: Option<nat>, env: Env)
    ensures var d' := Conclude(d, changed, rotated, env).0;
      d'.store == d.store && d'.local == d.local && d'.configured == d.configured && RowsFrom(d.db, d.store, d.local, d'.db)
  {
    if changed && MaintenanceCommit !in env.faults {
      var kept := Persist(d, d.local);
      assert kept.store == d.store && RowsFrom(d.db, d.store, d.local, kept.db);
      hide Persist;
    }
  }

  lemma RowsFromFrame(db: Database, s: Store, t: Store, p: Peer, db': Database)
    requires SameButKeys(s, t) && RowsFrom(db, t, p, db')
    ensures RowsFrom(db, s, p, db')
  {
  }

  /** Maintenance changes key records only, apart from rows of the local address written from memory. */
  lemma MaintainFrame(d: Device, env: Env)
    ensures var d' := Maintain(d, env).0;
      && d'.local == d.local && d'.configured == d.configured
      && SameButKeys(d.store, d'.store) && RowsFrom(d.db, d.store, d.local, d'.db)
  {
    EnsureFrame(d, env);
    var (e, r) := EnsureInventory(d, env);
    if r.Success? {
      var t := Trimmed(e);
      ConcludeFrame(t, r.value.0 || |e.store.signed| > SIGNED_PREKEY_OVERLAP, r.value.1, env);
      RowsFromFrame(d.db, d.store, t.store, d.local, Maintain(d, env).0.db);
    }
  }

  /** A reset forgets every session and identity and changes nothing on disk. */
  lemma ResetFrame(d: Device, faults: set<Fault>)
    ensures var d' := Reset(d, faults).0;
      && d'.local == d.local && d'.configured == d.configured && d'.db == d.db
      && d'.store.sessions == map[] && d'.store.trusted == map[]
      && d'.store.identity == d.store.identity && d'.store.registration == d.store.registration
  {
  }

  /** Loading a peer copies its rows, and only those, into memory. */
  lemma LoadFrame(d: Device, p: Peer, env: Env)
    ensures var (l, r) := LoadPeer(d, p, env);
      var sessions := if p in d.db.sessions then d.store.sessions[p := d.db.sessions[p]] else d.store.sessions;
      var trusted := if p in d.db.trusted then d.store.trusted[p := d.db.trusted[p]] else d.store.trusted;
      && l == d.(store := d.store.(sessions := l.store.sessions, trusted := l.store.trusted))
      && l.store.sessions in {d.store.sessions, sessions} && l.store.trusted in {d.store.trusted, trusted}
      && (r.Success? ==> l.store.sessions == sessions && l.store.trusted == trusted)
      && (r.Failure? ==> r.error in {Failed(ReadSession), Failed(ReadTrusted)})
  {
  }

  lemma AdmitLoads(d: Device, p: Peer, env: Env)
    ensures Admit(d, p, env).0 == LoadPeer(d, p, env).0
  {
    hide LoadPeer, IsRevoked, IdentityOf, Opens;
  }

  /** A reset can fail only at one of its three reads. */
  lemma ResetRefuses(d: Device, faults: set<Fault>)
    ensures Reset(d, faults).1.Failure? ==>
      Reset(d, faults).1.error in {Failed(ReadPrekeys), Failed(ReadSigned), Failed(ReadKyber)}
  {
  }
}
