/** One Signal device: what SQLite holds, what the runtime store holds, and every operation on the two, on values.
    libsignal's sessions are reduced to their sending chains: whose identity each was set up with, and the position
    it would use next. */
module SignalDevice {
  import opened Wrappers
  import opened Bytes

  /** A peer's address, `name.device`. */
  type Peer = string

  /** A serialized public identity key. The device's own key pair is represented by its public key. */
  type Identity = seq<byte>

  /** A serialized prekey record. */
  type Key = nat

  /** A sending chain of the double ratchet. libsignal draws a new one at random whenever it starts one; it belongs to
      the session state set up with the identity `remote`, which never changes. */
  datatype Chain = Chain(number: nat, remote: Identity)

  /** A session record: the chain in use and, for every chain the record still holds, in the state in use or in an
      archived one, its next counter. */
  datatype Session = Session(current: Chain, next: map<Chain, nat>)

  datatype Position = Position(peer: Peer, chain: Chain, counter: nat)

  datatype Revocation = Revocation(newFingerprint: Option<string>)

  datatype Store = Store(
    identity: Identity, registration: nat, sessions: map<Peer, Session>, trusted: map<Peer, Identity>,
    prekeys: map<nat, Key>, signed: map<nat, Key>, kyber: map<nat, Key>)

  datatype Database = Database(
    identity: Identity, registration: nat, sessions: map<Peer, Session>, trusted: map<Peer, Identity>,
    prekeys: map<nat, Key>, signed: map<nat, Key>, kyber: map<nat, Key>,
    rotatedAt: nat, revocations: map<Peer, Revocation>)

  datatype Device = Device(local: Peer, configured: bool, db: Database, store: Store)

  /** A peer's published bundle: its address and the identity key in it. */
  datatype PeerBundle = PeerBundle(peer: Peer, identity: Identity)

  /** A signed statement that the identity of `bundle.peer` was replaced. */
  datatype Recovery = Recovery(
    previous: Identity, bundle: PeerBundle, effectiveAt: nat, confirmation: bool, signature: seq<byte>)

  /** The exported bundle names one key of each kind. */
  datatype OwnBundle = OwnBundle(identity: Identity, prekey: nat, signed: nat, kyber: nat)

  const PREKEY_LOW_WATERMARK: nat := 8
  const PREKEY_TARGET: nat := 32
  const SIGNED_PREKEY_OVERLAP: nat := 2
  const ROTATION_SECS: nat := 30 * 24 * 60 * 60

  /** The statements and library calls that can fail, each where it stands in the operation. */
  datatype Fault =
    | ReadRotation | MaintenanceCommit | RotationStamp | StatusRow
    | ReadSession | ReadTrusted | ReadRevocation | PeerCommit
    | ProcessBundle | Encrypt | Encode | Decode | Decrypt
    | DeleteRevocation | DeleteSession | DeleteTrusted | WriteRevocation | WriteRecovery
    | ReadPrekeys | ReadSigned | ReadKyber | ReplaceCommit

  datatype Refusal =
    | Failed(fault: Fault) | NotConfigured | Revoked | NotTrusted | IdentityChanged | NotConfirmed | BadSignature
    | WrongSigner | NoKey | NoTrustedSession

  /** What the surroundings supply to one call: the time, the statements that fail, the keys generated (by id),
      whether the message to decrypt is an initial one, which sets up a session of its own, and libsignal's
      choices: the number of the chain in use afterwards, the chains it keeps, the prekeys it consumes, the one-time
      prekey that iteration meets first, and the signature under a key of its own that it gives to a record. */
  datatype Env = Env(
    now: nat, faults: set<Fault>, prekey: nat -> Key, signed: nat -> Key, kyber: nat -> Key,
    initial: bool, draw: nat, kept: set<Chain>, consumed: set<nat>, pick: nat,
    sign: (Identity, Recovery) -> seq<byte>)

  // ---------------------------------------------------------------- key ids

  lemma {:induction false} MaxExists(ids: set<nat>) returns (max: nat)
    requires ids != {}
    ensures max in ids && forall id :: id in ids ==> id <= max
    decreases |ids|
  {
    var some :| some in ids;
    var rest := ids - {some};
    if rest == {} {
      max := some;
    } else {
      max := MaxExists(rest);
      if max < some { max := some; }
    }
    forall id | id in ids ensures id <= max {
      assert id == some || id in rest;
    }
  }

  lemma HasMax(ids: set<nat>)
    requires ids != {}
    ensures exists m :: m in ids && forall id :: id in ids ==> id <= m
  {
    var m := MaxExists(ids);
  }

  /** `max().unwrap_or(0)`. */
  function MaxId(ids: set<nat>): (max: nat)
    ensures ids != {} ==> max in ids
    ensures forall id :: id in ids ==> id <= max
  {
    if ids == {} then 0
    else
      HasMax(ids);
      var m :| m in ids && forall id :: id in ids ==> id <= m;
      m
  }

  /** `saturating_add(1)` on u32. */
  function Successor(id: nat): nat {
    if id >= U32_MAX then U32_MAX else id + 1
  }

  /** `saturating_sub` on u64. */
  function Elapsed(now: nat, since: nat): nat {
    if now < since then 0 else now - since
  }

  // ---------------------------------------------------------------- maintenance

  function CreateBundle(s: Store, env: Env): Store {
    s.(prekeys := s.prekeys[1 := env.prekey(1)],
       signed := s.signed[1 := env.signed(1)],
       kyber := s.kyber[1 := env.kyber(1)])
  }

  predicate LacksBundle(s: Store) {
    s.signed == map[] || s.kyber == map[]
  }

  function Stocked(s: Store, env: Env): Store {
    if LacksBundle(s) then CreateBundle(s, env) else s
  }

  /** There are ids left for a full restock. */
  predicate Headroom(prekeys: map<nat, Key>) {
    |prekeys| < PREKEY_LOW_WATERMARK ==> MaxId(prekeys.Keys) + (PREKEY_TARGET - |prekeys|) <= U32_MAX
  }

  /** The id used by turn `n` of the restocking loop. */
  function IdOfTurn(prekeys: map<nat, Key>, n: nat): nat {
    if n == 0 then Successor(MaxId(prekeys.Keys)) else Successor(IdOfTurn(prekeys, n - 1))
  }

  /** The prekeys after `n` turns of the restocking loop. */
  function AfterTurns(prekeys: map<nat, Key>, n: nat, env: Env): map<nat, Key> {
    if n == 0 then prekeys
    else
      var id := IdOfTurn(prekeys, n - 1);
      AfterTurns(prekeys, n - 1, env)[id := env.prekey(id)]
  }

  function Replenished(prekeys: map<nat, Key>, env: Env): map<nat, Key> {
    if |prekeys| < PREKEY_LOW_WATERMARK then AfterTurns(prekeys, PREKEY_TARGET - |prekeys|, env) else prekeys
  }

  /** The two largest ids. */
  function NewestTwo(ids: set<nat>): set<nat> {
    var newest := MaxId(ids);
    var others := ids - {newest};
    if others == {} then ids else {newest, MaxId(others)}
  }

  /** The signed prekeys kept by the overlap rule. */
  function Overlap(signed: map<nat, Key>): map<nat, Key> {
    if |signed| <= SIGNED_PREKEY_OVERLAP then signed
    else map id | id in NewestTwo(signed.Keys) && id in signed :: signed[id]
  }

  function Rotated(s: Store, env: Env): Store {
    var id := Successor(MaxId(s.signed.Keys));
    s.(signed := s.signed[id := env.signed(id)])
  }

  /** `ensure_key_inventory`: the store, and whether it changed and when it rotated. */
  function EnsureInventory(d: Device, env: Env): (Device, Result<(bool, Option<nat>), Refusal>) {
    var stocked := Stocked(d.store, env);
    var s := stocked.(prekeys := Replenished(stocked.prekeys, env));
    var changed := LacksBundle(d.store) || |stocked.prekeys| < PREKEY_LOW_WATERMARK;
    if ReadRotation in env.faults then
      (d.(store := s), Failure(Failed(ReadRotation)))
    else if Elapsed(env.now, d.db.rotatedAt) < ROTATION_SECS then
      (d.(store := s), Success((changed, None)))
    else
      (d.(store := Rotated(s, env)), Success((true, Some(env.now))))
  }

  /** `persist_peer`: one transaction that writes the device records and one peer's session and identity. */
  function Snapshot(db: Database, s: Store, p: Peer): Database {
    db.(identity := s.identity, registration := s.registration,
        sessions := if p in s.sessions then db.sessions[p := s.sessions[p]] else db.sessions,
        trusted := if p in s.trusted then db.trusted[p := s.trusted[p]] else db.trusted,
        prekeys := s.prekeys, signed := s.signed, kyber := db.kyber + s.kyber)
  }

  function Persist(d: Device, p: Peer): Device {
    d.(db := Snapshot(d.db, d.store, p))
  }

  function Trimmed(d: Device): Device {
    d.(store := d.store.(signed := Overlap(d.store.signed)))
  }

  /** The end of maintenance: commit a changed inventory, then write the rotation time in a statement of its own. */
  function Conclude(d: Device, changed: bool, rotated: Option<nat>, env: Env): (Device, Result<(), Refusal>) {
    if !changed then (d, Finish(env))
    else if MaintenanceCommit in env.faults then (d, Failure(Failed(MaintenanceCommit)))
    else
      var kept := Persist(d, d.local);
      if rotated.None? then (kept, Finish(env))
      else if RotationStamp in env.faults then (kept, Failure(Failed(RotationStamp)))
      else (kept.(db := kept.db.(rotatedAt := rotated.value)), Finish(env))
  }

  /** `maintain_key_inventory`. */
  function Maintain(d: Device, env: Env): (Device, Result<(), Refusal>) {
    var (ensured, r) := EnsureInventory(d, env);
    if r.Failure? then (ensured, Failure(r.error))
    else
      Conclude(Trimmed(ensured), r.value.0 || |ensured.store.signed| > SIGNED_PREKEY_OVERLAP, r.value.1, env)
  }

  /** The failure counter is reset after a success. */
  function Finish(env: Env): Result<(), Refusal> {
    if StatusRow in env.faults then Failure(Failed(StatusRow)) else Success(())
  }

  /** `export_bundle`. */
  function Export(d: Device, env: Env): (Device, Result<OwnBundle, Refusal>) {
    var (d', r) := Maintain(d, env);
    (d', if r.Failure? then Failure(r.error) else BundleOf(d'.store, env.pick))
  }

  /** `bundle_from_store`: any one-time prekey, the newest signed and the newest Kyber prekey. */
  function BundleOf(s: Store, pick: nat): Result<OwnBundle, Refusal> {
    if s.prekeys == map[] || s.signed == map[] || s.kyber == map[] then Failure(NoKey)
    else
      Success(OwnBundle(s.identity, if pick in s.prekeys then pick else MaxId(s.prekeys.Keys),
                        MaxId(s.signed.Keys), MaxId(s.kyber.Keys)))
  }

  // ---------------------------------------------------------------- loading

  /** `load_peer`: the session first, then the identity; a peer without a row leaves memory as it is. */
  function LoadPeer(d: Device, p: Peer, env: Env): (Device, Result<(), Refusal>) {
    if ReadSession in env.faults then (d, Failure(Failed(ReadSession)))
    else
      var s := if p in d.db.sessions then d.store.(sessions := d.store.sessions[p := d.db.sessions[p]]) else d.store;
      if ReadTrusted in env.faults then (d.(store := s), Failure(Failed(ReadTrusted)))
      else
        var t := if p in d.db.trusted then s.(trusted := s.trusted[p := d.db.trusted[p]]) else s;
        (d.(store := t), Success(()))
  }

  /** `InMemSignalProtocolStore::new`. */
  function BlankStore(identity: Identity, registration: nat): Store {
    Store(identity, registration, map[], map[], map[], map[], map[])
  }

  /** `load_records`: prekeys, then signed, then Kyber prekeys; no session and no identity. */
  function LoadRecords(d: Device, faults: set<Fault>): (Device, Result<(), Refusal>) {
    if ReadPrekeys in faults then (d, Failure(Failed(ReadPrekeys)))
    else
      var a := d.store.(prekeys := d.store.prekeys + d.db.prekeys);
      if ReadSigned in faults then (d.(store := a), Failure(Failed(ReadSigned)))
      else
        var b := a.(signed := a.signed + d.db.signed);
        if ReadKyber in faults then (d.(store := b), Failure(Failed(ReadKyber)))
        else (d.(store := b.(kyber := b.kyber + d.db.kyber)), Success(()))
  }

  /** `open` on an initialized database: a process restart. */
  function Open(d: Device): Device {
    LoadRecords(d.(store := BlankStore(d.db.identity, d.db.registration)), {}).0
  }

  /** `reset_runtime_store`. */
  function Reset(d: Device, faults: set<Fault>): (Device, Result<(), Refusal>) {
    LoadRecords(d.(store := BlankStore(d.store.identity, d.store.registration)), faults)
  }

  // ---------------------------------------------------------------- trust

  function IdentityOf(d: Device, p: Peer): Option<Identity> {
    if p in d.store.trusted then Some(d.store.trusted[p]) else None
  }

  /** `is_revoked`, after the row has been read. */
  predicate IsRevoked(d: Device, p: Peer) {
    p in d.db.revocations &&
    match d.db.revocations[p].newFingerprint
    case None => true
    case Some(expected) => p !in d.store.trusted || Hex(d.store.trusted[p]) != expected
  }

  function SaveIdentity(d: Device, p: Peer, identity: Identity): Device {
    d.(store := d.store.(trusted := d.store.trusted[p := identity]))
  }

  /** `trust_peer`: only the identity in memory is compared. */
  function TrustPeer(d: Device, p: Peer, identity: Identity, env: Env): (Device, Result<(), Refusal>) {
    if p in d.store.trusted && d.store.trusted[p] != identity then (d, Failure(IdentityChanged))
    else
      var saved := SaveIdentity(d, p, identity);
      if DeleteRevocation in env.faults then (saved, Failure(Failed(DeleteRevocation)))
      else
        var cleared := saved.(db := saved.db.(revocations := saved.db.revocations - {p}));
        if PeerCommit in env.faults then (cleared, Failure(Failed(PeerCommit)))
        else (Persist(cleared, p), Success(()))
  }

  /** `revoke_device`. */
  function Revoke(d: Device, p: Peer, env: Env): (Device, Result<(), Refusal>) {
    if DeleteSession in env.faults then (d, Failure(Failed(DeleteSession)))
    else
      var a := d.(db := d.db.(sessions := d.db.sessions - {p}));
      if DeleteTrusted in env.faults then (a, Failure(Failed(DeleteTrusted)))
      else
        var b := a.(db := a.db.(trusted := a.db.trusted - {p}));
        if WriteRevocation in env.faults then (b, Failure(Failed(WriteRevocation)))
        else
          Reset(b.(db := b.db.(revocations := b.db.revocations[p := Revocation(None)])), env.faults)
  }

  /** `accept_recovery`. The session row is deleted, but a session held in memory is written back by the snapshot. */
  function AcceptRecovery(
    d: Device, record: Recovery, confirmed: bool, verify: (Identity, Recovery) -> bool, env: Env
  ): (Device, Result<PeerBundle, Refusal>)
  {
    var p := record.bundle.peer;
    if !confirmed || !record.confirmation then (d, Failure(NotConfirmed))
    else if !verify(record.previous, record) then (d, Failure(BadSignature))
    else if IdentityOf(d, p) != Some(record.previous) then (d, Failure(WrongSigner))
    else
      var saved := SaveIdentity(d, p, record.bundle.identity);
      if DeleteSession in env.faults then (saved, Failure(Failed(DeleteSession)))
      else
        var a := saved.(db := saved.db.(sessions := saved.db.sessions - {p}));
        if WriteRevocation in env.faults then (a, Failure(Failed(WriteRevocation)))
        else
          var row := Revocation(Some(Hex(record.bundle.identity)));
          var b := a.(db := a.db.(revocations := a.db.revocations[p := row]));
          if WriteRecovery in env.faults then (b, Failure(Failed(WriteRecovery)))
          else if PeerCommit in env.faults then (b, Failure(Failed(PeerCommit)))
          else
            var (c, r) := Reset(Persist(b, p), env.faults);
            (c, if r.Failure? then Failure(r.error) else Success(record.bundle))
  }

  /** The statement, signed with the old key, that the identity of this device is now the one in the bundle. */
  function Announcement(d: Device, bundle: OwnBundle, env: Env): Recovery {
    var unsigned := Recovery(d.store.identity, PeerBundle(d.local, bundle.identity), env.now, true, []);
    unsigned.(signature := env.sign(d.store.identity, unsigned))
  }

  /** `replace_identity_with_recovery`: one transaction empties every table that belongs to the old identity; the new
      bundle is exported and announced. */
  function ReplaceIdentity(d: Device, identity: Identity, registration: nat, env: Env)
    : (Device, Result<(OwnBundle, Recovery), Refusal>)
  {
    if ReplaceCommit in env.faults then (d, Failure(Failed(ReplaceCommit)))
    else
      var db := Database(identity, registration, map[], map[], map[], map[], map[], 0, d.db.revocations);
      var (e, r) := Export(d.(db := db, store := BlankStore(identity, registration)), env);
      (e, if r.Failure? then Failure(r.error)
          else if WriteRecovery in env.faults then Failure(Failed(WriteRecovery))
          else Success((r.value, Announcement(d, r.value, env))))
  }

  // ---------------------------------------------------------------- messages

  /** A session with a chain that was never used. */
  function Established(chain: Chain): Session {
    Session(chain, map[chain := 0])
  }

  predicate Usable(s: Session) {
    s.current in s.next
  }

  /** `message_encrypt` moves the chain in use on by one. */
  function Advanced(s: Session): Session
    requires Usable(s)
  {
    s.(next := s.next[s.current := s.next[s.current] + 1])
  }

  function NextPosition(p: Peer, s: Session): Position
    requires Usable(s)
  {
    Position(p, s.current, s.next[s.current])
  }

  /** `message_decrypt` may start a new chain, go back to one the record still holds, and drop chains. */
  function Received(s: Option<Session>, chain: Chain, kept: set<Chain>): Session {
    var next := if s.None? then map[] else map c | c in s.value.next && (c in kept || c == chain) :: s.value.next[c];
    Session(chain, if chain in next then next else next[chain := 0])
  }

  function SessionOf(d: Device, p: Peer): Option<Session> {
    if p in d.store.sessions then Some(d.store.sessions[p]) else None
  }

  function PutSession(d: Device, p: Peer, s: Session): Device {
    d.(store := d.store.(sessions := d.store.sessions[p := s]))
  }

  /** The chain a call draws or goes on with. Whenever libsignal gets that far, the identity it sets a session up with
      is the one the peer is trusted under. */
  function ChainFor(d: Device, p: Peer, env: Env): Chain {
    Chain(env.draw, if p in d.store.trusted then d.store.trusted[p] else [])
  }

  /** `is_trusted_identity`, asked by `message_encrypt` for the session it is about to use. */
  predicate SessionTrusted(d: Device, p: Peer, s: Session) {
    p in d.store.trusted ==> d.store.trusted[p] == s.current.remote
  }

  /** The same question asked by `message_decrypt`: an initial message sets up a state under the trusted identity,
      any other is accepted by a state of the record that was. */
  predicate Opens(s: Option<Session>, identity: Identity, env: Env) {
    env.initial || (s.Some? && exists c :: c in s.value.next && c.remote == identity)
  }

  /** `encrypt_for` up to the check that the bundle's identity is the trusted one. */
  function Authorize(d: Device, b: PeerBundle, env: Env): (Device, Result<(), Refusal>) {
    var (m, maintained) := Maintain(d, env);
    if maintained.Failure? then (m, maintained)
    else
      var (l, loaded) := LoadPeer(m, b.peer, env);
      if loaded.Failure? then (l, loaded)
      else if ReadRevocation in env.faults then (l, Failure(Failed(ReadRevocation)))
      else if IsRevoked(l, b.peer) then (l, Failure(Revoked))
      else if IdentityOf(l, b.peer) != Some(b.identity) then (l, Failure(NotTrusted))
      else (l, Success(()))
  }

  /** The rest of `encrypt_for`: a session if there is none, the encryption, the snapshot. A session that exists is
      used whoever it was set up with, and refused by the encryption if that is not the trusted identity. */
  function Seal(d: Device, p: Peer, env: Env): (Device, Result<Position, Refusal>) {
    if SessionOf(d, p).None? && ProcessBundle in env.faults then (d, Failure(Failed(ProcessBundle)))
    else
      var session := if SessionOf(d, p).None? then Established(ChainFor(d, p, env)) else SessionOf(d, p).value;
      if Encrypt in env.faults || !Usable(session) then (PutSession(d, p, session), Failure(Failed(Encrypt)))
      else if !SessionTrusted(d, p, session) then (PutSession(d, p, session), Failure(NoTrustedSession))
      else
        var e := PutSession(d, p, Advanced(session));
        if Encode in env.faults then (e, Failure(Failed(Encode)))
        else if PeerCommit in env.faults then (e, Failure(Failed(PeerCommit)))
        else (Persist(e, p), Success(NextPosition(p, session)))
  }

  /** `encrypt_for`; success releases the envelope at the returned position. */
  function EncryptFor(d: Device, b: PeerBundle, env: Env): (Device, Result<Position, Refusal>) {
    if !d.configured then (d, Failure(NotConfigured))
    else
      var (l, allowed) := Authorize(d, b, env);
      if allowed.Failure? then (l, Failure(allowed.error)) else Seal(l, b.peer, env)
  }

  /** `decrypt_from` up to the decryption. */
  function Admit(d: Device, sender: Peer, env: Env): (Device, Result<Identity, Refusal>) {
    var (l, loaded) := LoadPeer(d, sender, env);
    if loaded.Failure? then (l, Failure(loaded.error))
    else if ReadRevocation in env.faults then (l, Failure(Failed(ReadRevocation)))
    else if IsRevoked(l, sender) then (l, Failure(Revoked))
    else if IdentityOf(l, sender).None? then (l, Failure(NotTrusted))
    else if Decode in env.faults then (l, Failure(Failed(Decode)))
    else if Decrypt in env.faults then (l, Failure(Failed(Decrypt)))
    else if !Opens(SessionOf(l, sender), IdentityOf(l, sender).value, env) then (l, Failure(NoTrustedSession))
    else (l, Success(IdentityOf(l, sender).value))
  }

  /** What a decryption does to the runtime store. */
  function Unsealed(d: Device, sender: Peer, env: Env): Device {
    var r := PutSession(d, sender, Received(SessionOf(d, sender), ChainFor(d, sender, env), env.kept));
    r.(store := r.store.(prekeys := r.store.prekeys - env.consumed))
  }

  /** `decrypt_from`; success reports the identity the sender is trusted under. Maintenance runs, and may commit the
      consumed prekeys, before the sender's session is committed. */
  function DecryptFrom(d: Device, sender: Peer, env: Env): (Device, Result<Identity, Refusal>) {
    var (l, admitted) := Admit(d, sender, env);
    if admitted.Failure? then (l, admitted)
    else
      var (m, maintained) := Maintain(Unsealed(l, sender, env), env);
      if maintained.Failure? then (m, Failure(maintained.error))
      else if PeerCommit in env.faults then (m, Failure(Failed(PeerCommit)))
      else (Persist(m, sender), admitted)
  }
}
