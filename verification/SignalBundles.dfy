/** A published bundle stays usable: the signed prekey it names is not dropped for 30 days. */
module SignalBundles {
  import opened Wrappers
  import opened Bytes
  import opened SignalDevice
  import opened SignalCalls
  import opened SignalInventory

  /** A bundle that left the device: when, and which signed prekey it names. */
  datatype Exported = Exported(at: nat, id: nat, key: Key)

  datatype World = World(device: Device, exports: seq<Exported>, clock: nat)

  datatype Step = Step(call: Call, env: Env)

  /** Memory and disk agree on the signed and Kyber prekeys. */
  predicate Settled(d: Device) {
    d.store.signed == d.db.signed && d.store.kyber == d.db.kyber
  }

  /** A rotation is due. */
  predicate Due(d: Device, env: Env) {
    Elapsed(env.now, d.db.rotatedAt) >= ROTATION_SECS
  }

  /** If maintenance rotates, the statement that records the time of the rotation does not fail once the new key is
      committed. */
  predicate Undisturbed(d: Device, env: Env) {
    Due(d, env) && ReadRotation !in env.faults ==>
      MaintenanceCommit in env.faults || RotationStamp !in env.faults
  }

  /** The calls that maintain keys. */
  predicate Maintains(call: Call) {
    call.EncryptCall? || call.DecryptCall? || call.ExportCall? || call.MaintainCall?
  }

  /** The clock does not go back, the identity is not replaced, rotations are undisturbed, and a device whose memory
      and disk disagree on signed or Kyber prekeys is reopened before it is used again. */
  predicate Enabled(w: World, s: Step) {
    && w.clock <= s.env.now
    && !s.call.ReplaceCall?
    && (Maintains(s.call) ==> Undisturbed(w.device, s.env))
    && (!Settled(w.device) ==> s.call.ReopenCall?)
  }

  function ExportedBy(d: Device, reply: Reply, now: nat): seq<Exported> {
    if reply.Published? && reply.bundle.signed in d.store.signed
    then [Exported(now, reply.bundle.signed, d.store.signed[reply.bundle.signed])]
    else []
  }

  function Next(w: World, s: Step, verify: Verifier): World {
    var (d, reply) := Apply(w.device, s.call, verify, s.env);
    World(d, w.exports + ExportedBy(d, reply, s.env.now), s.env.now)
  }

  // ---------------------------------------------------------------- one rotation

  lemma MaxIs(ids: set<nat>, max: nat)
    requires max in ids && forall id :: id in ids ==> id <= max
    ensures MaxId(ids) == max
  {
    assert MaxId(ids) in ids;
  }

  /** A rotation keeps the newest signed prekey and adds one after it; everything older goes. */
  lemma RotationKeepsNewest(signed: map<nat, Key>, key: Key)
    requires signed != map[] && MaxId(signed.Keys) < U32_MAX
    ensures var max := MaxId(signed.Keys); var after := Overlap(signed[Successor(max) := key]);
      max in after && after[max] == signed[max] && after.Keys == {max, max + 1} && MaxId(after.Keys) == max + 1
  {
    var max := MaxId(signed.Keys);
    var all := signed[max + 1 := key];
    assert signed.Keys != {};
    assert max in signed.Keys && max in all;
    MaxIs(all.Keys, max + 1);
    var others := all.Keys - {max + 1};
    assert others == signed.Keys;
    assert |all.Keys| == |others| + 1 && |all| == |all.Keys|;
    if |all| <= SIGNED_PREKEY_OVERLAP {
      Singleton(signed.Keys, max);
    }
    assert Overlap(all).Keys == {max, max + 1};
    MaxIs({max, max + 1}, max + 1);
  }

  lemma Singleton(ids: set<nat>, id: nat)
    requires id in ids && |ids| <= 1
    ensures ids == {id}
  {
    assert |ids - {id}| == |ids| - 1;
  }

  /** What the inventory step does to the signed prekeys. */
  lemma EnsureSigned(d: Device, env: Env)
    ensures var (e, r) := EnsureInventory(d, env); var stocked := Stocked(d.store, env);
      && e.db == d.db && e.store.kyber == stocked.kyber
      && (r.Failure? ==> r.error == Failed(ReadRotation))
      && (r.Success? ==>
          if Elapsed(env.now, d.db.rotatedAt) < ROTATION_SECS
          then e.store.signed == stocked.signed && r.value.1.None? && (r.value.0 || stocked == d.store)
          else e.store.signed == Rotated(stocked, env).signed && r.value == (true, Some(env.now)))
  {
    hide Replenished, MaxId, CreateBundle;
  }

  // ---------------------------------------------------------------- the database between calls

  /** At most two signed prekeys, and Kyber prekeys exactly when there are signed ones. */
  predicate Orderly(signed: map<nat, Key>, kyber: map<nat, Key>) {
    |signed| <= SIGNED_PREKEY_OVERLAP && (signed == map[] <==> kyber == map[])
  }

  /** A call that ended like this may have left keys in memory that are not on disk. */
  predicate Unsettled(reply: Reply) {
    reply.Refused? && reply.reason.Failed?
    && reply.reason.fault in {ReadRotation, MaintenanceCommit, ReadPrekeys, ReadSigned, ReadKyber}
  }

  /** One call leaves the signed prekeys, creates the first, or rotates when 30 days have passed. */
  predicate SignedMove(db: Database, db': Database, now: nat) {
    || (db'.signed == db.signed && db'.rotatedAt == db.rotatedAt)
    || db.signed == map[]
    || (&& Elapsed(now, db.rotatedAt) >= ROTATION_SECS && db'.rotatedAt == now && db'.signed != map[]
        && var max := MaxId(db.signed.Keys);
          max < U32_MAX ==> max in db.signed && max in db'.signed && db'.signed[max] == db.signed[max])
  }

  /** The exported key is on disk, and it is the newest or was the newest until after the export; or it had the last id
      there is, and there was a rotation after the export. */
  predicate Kept(db: Database, e: Exported) {
    || (&& e.id in db.signed && db.signed[e.id] == e.key
        && (e.id == MaxId(db.signed.Keys) || db.rotatedAt >= e.at))
    || (e.id >= U32_MAX && db.rotatedAt >= e.at && db.signed != map[])
  }

  ghost predicate AllKept(exports: seq<Exported>, db: Database, clock: nat) {
    forall i :: 0 <= i < |exports| ==>
      exports[i].at <= clock && (exports[i].at + ROTATION_SECS <= clock || Kept(db, exports[i]))
  }

  lemma MoveKeeps(exports: seq<Exported>, db: Database, clock: nat, db': Database, now: nat)
    requires AllKept(exports, db, clock) && clock <= now && SignedMove(db, db', now)
    ensures AllKept(exports, db', now)
  {
    forall i | 0 <= i < |exports| && now < exports[i].at + ROTATION_SECS
      ensures exports[i].at <= now && Kept(db', exports[i])
    {
      assert Kept(db, exports[i]);
    }
  }

  ghost predicate Inv(w: World) {
    && Orderly(w.device.db.signed, w.device.db.kyber)
    && AllKept(w.exports, w.device.db, w.clock)
  }

  // ---------------------------------------------------------------- what each operation does to signed prekeys

  /** Nothing happens to the signed and Kyber prekeys. */
  predicate KeysStay(d: Device, d': Device) {
    && d'.db.signed == d.db.signed && d'.db.kyber == d.db.kyber && d'.db.rotatedAt == d.db.rotatedAt
    && d'.store.signed == d.store.signed && d'.store.kyber == d.store.kyber
  }

  predicate Good(d: Device) {
    Orderly(d.db.signed, d.db.kyber) && Settled(d)
  }

  /** How a call may leave the device. */
  predicate Sound(d: Device, d': Device, unsettled: bool, now: nat) {
    && SignedMove(d.db, d'.db, now)
    && Orderly(d'.db.signed, d'.db.kyber)
    && (!unsettled ==> Settled(d'))
  }

  lemma StayIsSound(d: Device, d': Device, now: nat)
    requires Good(d) && KeysStay(d, d')
    ensures Sound(d, d', false, now) && Good(d')
  {
  }

  lemma PersistStays(d: Device, p: Peer)
    requires Settled(d)
    ensures KeysStay(d, Persist(d, p))
  {
    assert d.db.kyber + d.store.kyber == d.db.kyber;
  }

  lemma LoadStays(d: Device, p: Peer, env: Env)
    ensures KeysStay(d, LoadPeer(d, p, env).0)
  {
    hide LoadPeer;
    LoadFrame(d, p, env);
  }

  lemma ReloadSettles(d: Device, identity: Identity, registration: nat, faults: set<Fault>)
    ensures var (d', r) := LoadRecords(d.(store := BlankStore(identity, registration)), faults);
      && d'.db == d.db
      && (r.Success? ==> Settled(d'))
      && (faults == {} ==> r.Success?)
      && (r.Failure? ==> r.error in {Failed(ReadPrekeys), Failed(ReadSigned), Failed(ReadKyber)})
  {
    assert map[] + d.db.signed == d.db.signed && map[] + d.db.kyber == d.db.kyber;
  }

  /** The signed prekeys after the first bundle, if there was none, and the rotation, if it is due. */
  lemma ConcludeSound(d: Device, e: Device, changed: bool, rotated: Option<nat>, env: Env)
    requires e.db == d.db && d.db.kyber.Keys <= e.store.kyber.Keys
    requires rotated.Some? ==> MaintenanceCommit in env.faults || RotationStamp !in env.faults
    requires Good(d) && Orderly(e.store.signed, e.store.kyber)
    requires !changed ==> e.store.signed == d.store.signed && e.store.kyber == d.store.kyber && rotated.None?
    requires SignedMove(
      d.db, d.db.(signed := e.store.signed, rotatedAt := if rotated.Some? then rotated.value else d.db.rotatedAt), env.now)
    ensures var (m, r) := Conclude(e, changed, rotated, env);
      && Sound(d, m, r.Failure? && r.error == Failed(MaintenanceCommit), env.now)
      && (r.Failure? ==> r.error in {Failed(MaintenanceCommit), Failed(StatusRow)})
  {
    assert e.db.kyber + e.store.kyber == e.store.kyber;
  }

  lemma EnsureFails(d: Device, env: Env)
    ensures EnsureInventory(d, env).1.Failure? <==> ReadRotation in env.faults
  {
    hide Replenished, Stocked, Rotated;
  }

  /** Without any signed or Kyber prekey, maintenance creates the first of each. */
  lemma FirstKeys(d: Device, env: Env)
    requires LacksBundle(d.store)
    ensures var (e, r) := EnsureInventory(d, env); r.Success? ==>
      && Orderly(Overlap(e.store.signed), e.store.kyber) && d.store.kyber.Keys <= e.store.kyber.Keys && r.value.0
  {
    EnsureSigned(d, env);
    var (e, r) := EnsureInventory(d, env);
    if r.Success? {
      var s := CreateBundle(d.store, env);
      assert 1 in s.signed && 1 in s.kyber && Stocked(d.store, env) == s;
      assert Successor(MaxId(s.signed.Keys)) in Rotated(s, env).signed;
      OverlapKeepsTwo(e.store.signed);
      hide EnsureInventory, MaxId, Overlap, Stocked, Rotated;
    }
  }

  /** A rotation, or none, of a device that has keys. */
  lemma RotatedIsOrderly(d: Device, env: Env)
    requires Good(d) && !LacksBundle(d.store) && Undisturbed(d, env) && EnsureInventory(d, env).1.Success?
    ensures var (e, r) := EnsureInventory(d, env); var signed := Overlap(e.store.signed);
      && Orderly(signed, e.store.kyber) && e.store.kyber == d.store.kyber
      && (if Due(d, env)
          then r.value == (true, Some(env.now))
            && var max := MaxId(d.db.signed.Keys);
              max < U32_MAX ==> max in d.db.signed && max in signed && signed[max] == d.db.signed[max]
          else e.store.signed == signed == d.store.signed && r.value.1.None?)
  {
    EnsureSigned(d, env);
    EnsureFails(d, env);
    var s := d.store.signed;
    assert Stocked(d.store, env) == d.store;
    hide EnsureInventory, NewestTwo, Stocked, MaxId;
    if Due(d, env) {
      RotationIsOrderly(s, env.signed(Successor(MaxId(s.Keys))));
      hide Overlap, Successor;
    }
  }

  /** A rotation leaves one or two keys and, unless the newest has the last id, the newest among them. */
  lemma RotationIsOrderly(signed: map<nat, Key>, key: Key)
    requires signed != map[]
    ensures var max := MaxId(signed.Keys); var after := Overlap(signed[Successor(max) := key]);
      && 0 < |after| <= SIGNED_PREKEY_OVERLAP
      && (max < U32_MAX ==> max in signed && max in after && after[max] == signed[max])
  {
    var max := MaxId(signed.Keys);
    assert signed.Keys != {};
    if max < U32_MAX { RotationKeepsNewest(signed, key); }
    OverlapKeepsTwo(signed[Successor(max) := key]);
    hide Overlap, MaxId;
  }

  /** The signed prekeys that maintenance is about to commit. */
  lemma TrimmedIsOrderly(d: Device, env: Env)
    requires Good(d) && Undisturbed(d, env) && EnsureInventory(d, env).1.Success?
    ensures var (e, r) := EnsureInventory(d, env); var signed := Overlap(e.store.signed); var rotated := r.value.1;
      && Orderly(signed, e.store.kyber) && d.db.kyber.Keys <= e.store.kyber.Keys
      && (!r.value.0 && |e.store.signed| <= SIGNED_PREKEY_OVERLAP ==>
          signed == d.store.signed && e.store.kyber == d.store.kyber && rotated.None?)
      && (rotated.Some? ==> MaintenanceCommit in env.faults || RotationStamp !in env.faults)
      && SignedMove(
        d.db, d.db.(signed := signed, rotatedAt := if rotated.Some? then rotated.value else d.db.rotatedAt), env.now)
  {
    EnsureSigned(d, env);
    EnsureFails(d, env);
    if LacksBundle(d.store) {
      FirstKeys(d, env);
    } else {
      RotatedIsOrderly(d, env);
    }
    hide EnsureInventory, MaxId, Overlap, Stocked, Rotated, Orderly;
  }

  lemma MaintainSound(d: Device, env: Env)
    requires Good(d) && Undisturbed(d, env)
    ensures var (m, r) := Maintain(d, env);
      && Sound(d, m, r.Failure? && r.error in {Failed(ReadRotation), Failed(MaintenanceCommit)}, env.now)
      && (r.Failure? ==> r.error in {Failed(ReadRotation), Failed(MaintenanceCommit), Failed(StatusRow)})
  {
    EnsureSigned(d, env);
    var (e, r) := EnsureInventory(d, env);
    hide EnsureInventory, Overlap, MaxId, Undisturbed;
    if r.Success? {
      TrimmedIsOrderly(d, env);
      ConcludeSound(d, Trimmed(e), r.value.0 || |e.store.signed| > SIGNED_PREKEY_OVERLAP, r.value.1, env);
      hide Conclude, Orderly, SignedMove, Settled;
    }
  }

  lemma StaySound(d: Device, m: Device, m': Device, now: nat)
    requires Sound(d, m, false, now) && KeysStay(m, m')
    ensures Sound(d, m', false, now)
  {
  }

  lemma TrustSound(d: Device, p: Peer, identity: Identity, env: Env)
    requires Good(d)
    ensures KeysStay(d, TrustPeer(d, p, identity, env).0)
  {
    var a := SaveIdentity(d, p, identity);
    var b := a.(db := a.db.(revocations := a.db.revocations - {p}));
    PersistStays(b, p);
    hide Persist;
  }

  lemma ResetSound(d: Device, c: Device, faults: set<Fault>, now: nat)
    requires Good(d) && KeysStay(d, c)
    ensures var (d', r) := Reset(c, faults); Sound(d, d', Unsettled(Plain(r)), now)
  {
    ReloadSettles(c, c.store.identity, c.store.registration, faults);
    var (d', r) := Reset(c, faults);
    hide LoadRecords;
    assert d'.db == c.db;
    assert SignedMove(d.db, d'.db, now);
    assert Orderly(d'.db.signed, d'.db.kyber);
    assert r.Failure? ==> Unsettled(Plain(r));
    assert r.Success? ==> Settled(d');
  }

  /** A revocation stops at a failed statement, with the keys untouched, or it ends with a reset. */
  lemma RevokeOutcome(d: Device, p: Peer, env: Env)
    ensures var (d', r) := Revoke(d, p, env);
      || (KeysStay(d, d') && !Unsettled(Plain(r)))
      || (exists c :: KeysStay(d, c) && (d', r) == Reset(c, env.faults))
  {
    hide Reset;
    var (d', r) := Revoke(d, p, env);
    if DeleteSession in env.faults || DeleteTrusted in env.faults || WriteRevocation in env.faults {
      assert KeysStay(d, d') && !Unsettled(Plain(r));
    } else {
      var db := d.db.(sessions := d.db.sessions - {p}, trusted := d.db.trusted - {p},
                      revocations := d.db.revocations[p := Revocation(None)]);
      assert KeysStay(d, d.(db := db)) && (d', r) == Reset(d.(db := db), env.faults);
    }
  }

  lemma RevokeSound(d: Device, p: Peer, env: Env)
    requires Good(d)
    ensures var (d', r) := Revoke(d, p, env); Sound(d, d', Unsettled(Plain(r)), env.now)
  {
    hide Revoke, Reset, Good, KeysStay, Sound, Unsettled;
    RevokeOutcome(d, p, env);
    var (d', r) := Revoke(d, p, env);
    if KeysStay(d, d') && !Unsettled(Plain(r)) {
      StayIsSound(d, d', env.now);
    } else {
      var c :| KeysStay(d, c) && (d', r) == Reset(c, env.faults);
      ResetSound(d, c, env.faults, env.now);
    }
  }

  /** The state in which `accept_recovery` takes its snapshot. */
  function Replaced(d: Device, record: Recovery): Device {
    var p := record.bundle.peer;
    var row := Revocation(Some(Hex(record.bundle.identity)));
    var saved := SaveIdentity(d, p, record.bundle.identity);
    saved.(db := saved.db.(sessions := saved.db.sessions - {p}, revocations := saved.db.revocations[p := row]))
  }

  /** A recovery is refused before its snapshot, with the keys untouched, or it ends with a reset. */
  lemma RecoverOutcome(d: Device, record: Recovery, confirmed: bool, verify: Verifier, env: Env)
    ensures var (d', r) := AcceptRecovery(d, record, confirmed, verify, env);
      || (KeysStay(d, d') && !Unsettled(Plain(r)))
      || (var (e, reset) := Reset(Persist(Replaced(d, record), record.bundle.peer), env.faults);
          d' == e && Unsettled(Plain(r)) == Unsettled(Plain(reset)))
  {
    hide Reset, Hex, Persist;
    var (d', r) := AcceptRecovery(d, record, confirmed, verify, env);
    var failed := DeleteSession in env.faults || WriteRevocation in env.faults
      || WriteRecovery in env.faults || PeerCommit in env.faults;
    if failed || !confirmed || !record.confirmation || !verify(record.previous, record)
      || IdentityOf(d, record.bundle.peer) != Some(record.previous) {
      assert KeysStay(d, d') && !Unsettled(Plain(r));
    } else {
      assert d' == Reset(Persist(Replaced(d, record), record.bundle.peer), env.faults).0;
    }
  }

  lemma RecoverSound(d: Device, record: Recovery, confirmed: bool, verify: Verifier, env: Env)
    requires Good(d)
    ensures var (d', r) := AcceptRecovery(d, record, confirmed, verify, env); Sound(d, d', Unsettled(Plain(r)), env.now)
  {
    RecoverOutcome(d, record, confirmed, verify, env);
    var d' := AcceptRecovery(d, record, confirmed, verify, env).0;
    if KeysStay(d, d') { StayIsSound(d, d', env.now); }
    var p := record.bundle.peer;
    var b := Replaced(d, record);
    PersistStays(b, p);
    assert KeysStay(d, Persist(b, p));
    ResetSound(d, Persist(b, p), env.faults, env.now);
    hide Reset, Persist, AcceptRecovery, Replaced, KeysStay, Sound, Good, Unsettled;
  }

  lemma PutStays(d: Device, p: Peer, s: Session)
    ensures KeysStay(d, PutSession(d, p, s))
  {
  }

  lemma SealStays(d: Device, p: Peer, env: Env)
    requires Settled(d)
    ensures KeysStay(d, Seal(d, p, env).0)
    ensures Seal(d, p, env).1.Failure? ==> !Unsettled(Refused(Seal(d, p, env).1.error))
  {
    hide Persist, Advanced, PutSession, Established, SessionTrusted, NextPosition;
    var session := if SessionOf(d, p).None? then Established(ChainFor(d, p, env)) else SessionOf(d, p).value;
    PutStays(d, p, session);
    if Usable(session) {
      PutStays(d, p, Advanced(session));
      PersistStays(PutSession(d, p, Advanced(session)), p);
    }
    hide SessionOf, Usable;
  }

  lemma AuthorizeSound(d: Device, b: PeerBundle, env: Env)
    requires Good(d) && Undisturbed(d, env)
    ensures var (l, r) := Authorize(d, b, env); Sound(d, l, r.Failure? && Unsettled(Refused(r.error)), env.now)
  {
    hide Maintain, LoadPeer, Sound, KeysStay, IsRevoked, IdentityOf, MaxId, Good;
    MaintainSound(d, env);
    var (m, maintained) := Maintain(d, env);
    if maintained.Success? {
      LoadStays(m, b.peer, env);
      StaySound(d, m, LoadPeer(m, b.peer, env).0, env.now);
      LoadRefusals(m, b.peer, env);
    }
  }

  lemma LoadRefusals(d: Device, p: Peer, env: Env)
    ensures LoadPeer(d, p, env).1.Failure? ==> LoadPeer(d, p, env).1.error in {Failed(ReadSession), Failed(ReadTrusted)}
  {
  }

  lemma EncryptSound(d: Device, b: PeerBundle, env: Env)
    requires Good(d) && Undisturbed(d, env)
    ensures var (d', r) := EncryptFor(d, b, env); Sound(d, d', r.Failure? && Unsettled(Refused(r.error)), env.now)
  {
    StayIsSound(d, d, env.now);
    AuthorizeSound(d, b, env);
    var (l, allowed) := Authorize(d, b, env);
    if d.configured && allowed.Success? {
      SealStays(l, b.peer, env);
      StaySound(d, l, Seal(l, b.peer, env).0, env.now);
    }
    hide Authorize, Seal, Sound, KeysStay, MaxId, Good;
  }

  lemma AdmitStays(d: Device, p: Peer, env: Env)
    ensures var (l, r) := Admit(d, p, env); KeysStay(d, l) && (r.Failure? ==> !Unsettled(Refused(r.error)))
  {
    LoadStays(d, p, env);
    LoadRefusals(d, p, env);
    hide LoadPeer, KeysStay;
  }

  lemma UnsealStays(d: Device, p: Peer, env: Env)
    ensures KeysStay(d, Unsealed(d, p, env))
  {
    hide Received;
  }

  lemma SoundFrom(d: Device, u: Device, m: Device, unsettled: bool, now: nat)
    requires KeysStay(d, u) && Sound(u, m, unsettled, now)
    ensures Sound(d, m, unsettled, now)
  {
  }

  lemma DecryptSound(d: Device, p: Peer, env: Env)
    requires Good(d) && Undisturbed(d, env)
    ensures var (d', r) := DecryptFrom(d, p, env); Sound(d, d', r.Failure? && Unsettled(Refused(r.error)), env.now)
  {
    hide Admit, Unsealed, Maintain, Persist, MaxId;
    AdmitStays(d, p, env);
    var (l, admitted) := Admit(d, p, env);
    StayIsSound(d, l, env.now);
    if admitted.Success? {
      var u := Unsealed(l, p, env);
      UnsealStays(l, p, env);
      assert Good(u) && Undisturbed(u, env);
      MaintainSound(u, env);
      var (m, maintained) := Maintain(u, env);
      SoundFrom(d, u, m, maintained.Failure? && Unsettled(Refused(maintained.error)), env.now);
      if maintained.Success? {
        PersistStays(m, p);
        StaySound(d, m, Persist(m, p), env.now);
      }
    }
    hide Sound, KeysStay, Good;
  }

  lemma CallSound(d: Device, call: Call, verify: Verifier, env: Env)
    requires Good(d) && (Maintains(call) ==> Undisturbed(d, env)) && !call.ReplaceCall?
    ensures var (d', reply) := Apply(d, call, verify, env); Sound(d, d', Unsettled(reply), env.now)
  {
    hide TrustPeer, Revoke, AcceptRecovery, EncryptFor, DecryptFrom;
    hide Maintain, LoadPeer, Persist, LoadRecords, KeysStay, MaxId;
    match call
    case TrustCall(p, identity) =>
      TrustSound(d, p, identity, env);
      StayIsSound(d, TrustPeer(d, p, identity, env).0, env.now);
      TrustRefusals(d, p, identity, env);
    case RevokeCall(p) => RevokeSound(d, p, env);
    case RecoverCall(record, confirmed) => RecoverSound(d, record, confirmed, verify, env);
    case EncryptCall(b) => EncryptSound(d, b, env);
    case DecryptCall(p) => DecryptSound(d, p, env);
    case ExportCall => MaintainSound(d, env);
    case MaintainCall => MaintainSound(d, env);
    case LoadCall(p) =>
      LoadStays(d, p, env);
      StayIsSound(d, LoadPeer(d, p, env).0, env.now);
    case PersistCall(p) =>
      PersistStays(d, p);
      StayIsSound(d, Persist(d, p), env.now);
    case ReopenCall =>
      ReloadSettles(d, d.db.identity, d.db.registration, {});
    case _ =>
  }

  lemma TrustRefusals(d: Device, p: Peer, identity: Identity, env: Env)
    ensures !Unsettled(Plain(TrustPeer(d, p, identity, env).1))
  {
  }

  // ---------------------------------------------------------------- runs

  ghost predicate Run(w: World, steps: seq<Step>, verify: Verifier, w': World)
    decreases |steps|
  {
    if steps == [] then w' == w
    else Enabled(w, steps[0]) && Run(Next(w, steps[0], verify), steps[1..], verify, w')
  }

  /** A device just opened, from which no bundle has been exported. */
  ghost predicate Initial(w: World) {
    Good(w.device) && w.exports == []
  }

  ghost predicate Reachable(w: World, verify: Verifier) {
    exists start, steps :: Initial(start) && Run(start, steps, verify, w)
  }

  /** A published bundle names the newest signed prekey. */
  lemma PublishedIsNewest(d: Device, call: Call, verify: Verifier, env: Env)
    requires !call.ReplaceCall?
    ensures var (d', reply) := Apply(d, call, verify, env);
      reply.Published? ==> reply.bundle.signed in d'.store.signed && reply.bundle.signed == MaxId(d'.store.signed.Keys)
  {
    if call.ExportCall? {
      hide Maintain, MaxId;
      var s := Maintain(d, env).0.store;
      if s.prekeys != map[] && s.signed != map[] && s.kyber != map[] { BundleNames(s, env.pick); }
    } else {
      hide TrustPeer, Revoke, AcceptRecovery, EncryptFor, DecryptFrom;
      hide Maintain, LoadPeer, Persist, LoadRecords, Export, MaxId;
    }
  }

  lemma ReopenSound(d: Device, verify: Verifier, env: Env)
    requires Orderly(d.db.signed, d.db.kyber)
    ensures var (d', reply) := Apply(d, ReopenCall, verify, env);
      Sound(d, d', false, env.now) && Good(d') && !Unsettled(reply) && !reply.Published?
  {
    ReloadSettles(d, d.db.identity, d.db.registration, {});
    hide LoadRecords, MaxId;
  }

  lemma NextInv(w: World, s: Step, verify: Verifier)
    requires Inv(w) && Enabled(w, s)
    ensures Inv(Next(w, s, verify))
  {
    var (d, reply) := Apply(w.device, s.call, verify, s.env);
    if Settled(w.device) {
      CallSound(w.device, s.call, verify, s.env);
    } else {
      ReopenSound(w.device, verify, s.env);
    }
    PublishedIsNewest(w.device, s.call, verify, s.env);
    MoveKeeps(w.exports, w.device.db, w.clock, d.db, s.env.now);
    hide Apply, SignedMove, MaxId, Orderly;
    assert Sound(w.device, d, Unsettled(reply), s.env.now);
  }

  lemma {:induction false} RunKeepsInv(w: World, steps: seq<Step>, verify: Verifier, w': World)
    requires Inv(w) && Run(w, steps, verify, w')
    ensures Inv(w')
    decreases |steps|
  {
    if steps != [] {
      NextInv(w, steps[0], verify);
      RunKeepsInv(Next(w, steps[0], verify), steps[1..], verify, w');
    }
  }

  /** Less than 30 days after a bundle was exported, the signed prekey it names is on disk, and in memory whenever the
      two agree; only a key with the last id there is may be gone, and only after a rotation. */
  lemma ExportedKeyStays(w: World, verify: Verifier, i: nat)
    requires Reachable(w, verify) && i < |w.exports|
    requires w.clock < w.exports[i].at + ROTATION_SECS
    requires w.exports[i].id < U32_MAX || w.device.db.rotatedAt < w.exports[i].at
    ensures var e := w.exports[i];
      && e.id in w.device.db.signed && w.device.db.signed[e.id] == e.key
      && (Settled(w.device) ==> e.id in w.device.store.signed && w.device.store.signed[e.id] == e.key)
  {
    hide Run, Orderly, MaxId;
    var start, steps :| Initial(start) && Run(start, steps, verify, w);
    assert Inv(start);
    RunKeepsInv(start, steps, verify, w);
  }

  // ---------------------------------------------------------------- why the conditions are needed

  lemma ConcludeFates(e: Device, now: nat, env: Env)
    ensures var m := Conclude(e, true, Some(now), env).0;
      && m.store == e.store
      && m.db.signed == (if MaintenanceCommit in env.faults then e.db.signed else e.store.signed)
      && (MaintenanceCommit in env.faults || RotationStamp in env.faults ==> m.db.rotatedAt == e.db.rotatedAt)
  {
  }

  /** One rotation, as far as it gets when its snapshot or its time stamp fails. */
  lemma FailedRotation(d: Device, env: Env)
    requires d.store.signed != map[] && d.store.kyber != map[] && MaxId(d.store.signed.Keys) < U32_MAX
    requires Elapsed(env.now, d.db.rotatedAt) >= ROTATION_SECS && ReadRotation !in env.faults
    ensures var m := Maintain(d, env).0; var max := MaxId(d.store.signed.Keys);
      && m.store.signed.Keys == {max, max + 1} && MaxId(m.store.signed.Keys) == max + 1 && m.store.kyber == d.store.kyber
      && m.db.signed == (if MaintenanceCommit in env.faults then d.db.signed else m.store.signed)
      && (MaintenanceCommit in env.faults || RotationStamp in env.faults ==> m.db.rotatedAt == d.db.rotatedAt)
  {
    hide EnsureInventory, NewestTwo, MaxId, Overlap, Conclude, CreateBundle;
    EnsureSigned(d, env);
    EnsureFails(d, env);
    assert Stocked(d.store, env) == d.store;
    hide Stocked;
    RotationKeepsNewest(d.store.signed, env.signed(Successor(MaxId(d.store.signed.Keys))));
    ConcludeFates(Trimmed(EnsureInventory(d, env).0), env.now, env);
  }

  /** If a rotation's snapshot or its time stamp fails and maintenance runs again without a reopen, the newest key is
      gone at once, from memory and from disk, whether or not the two agreed before. */
  lemma RetriedRotationDropsTheExportedKey(d: Device, first: Env, second: Env)
    requires d.store.signed != map[] && d.store.kyber != map[] && MaxId(d.store.signed.Keys) + 1 < U32_MAX
    requires Elapsed(first.now, d.db.rotatedAt) >= ROTATION_SECS && first.now <= second.now
    requires ReadRotation !in first.faults && (MaintenanceCommit in first.faults || RotationStamp in first.faults)
    requires second.faults == {}
    ensures var m := Maintain(Maintain(d, first).0, second).0;
      MaxId(d.store.signed.Keys) !in m.db.signed.Keys && MaxId(d.store.signed.Keys) !in m.store.signed.Keys
  {
    hide Maintain, MaxId;
    var m := Maintain(d, first).0;
    FailedRotation(d, first);
    assert MaxId(d.store.signed.Keys) in m.store.signed.Keys;
    FailedRotation(m, second);
  }

  /** The signed prekeys of a device. */
  datatype SignedKeys = SignedKeys(memory: map<nat, Key>, disk: map<nat, Key>, rotatedAt: nat)

  function KeysOf(d: Device): SignedKeys {
    SignedKeys(d.store.signed, d.db.signed, d.db.rotatedAt)
  }

  /** One or two signed prekeys in memory, Kyber prekeys settled, and an id left. */
  predicate Ready(d: Device) {
    && 0 < |d.store.signed| <= SIGNED_PREKEY_OVERLAP && d.store.kyber != map[] && d.db.kyber == d.store.kyber
    && MaxId(d.store.signed.Keys) < U32_MAX
  }

  predicate Rotates(k: SignedKeys, env: Env) {
    Elapsed(env.now, k.rotatedAt) >= ROTATION_SECS && ReadRotation !in env.faults
  }

  /** A pair of ids, the first carried over from `before`. */
  predicate Paired(signed: map<nat, Key>, before: map<nat, Key>, max: nat) {
    && signed.Keys == {max, max + 1} && MaxId(signed.Keys) == max + 1
    && max in signed && max in before && signed[max] == before[max]
  }

  /** What one maintenance, with whatever fails, does to the signed prekeys. */
  predicate Round(k: SignedKeys, env: Env, k': SignedKeys) {
    var rotates, committed := Rotates(k, env), MaintenanceCommit !in env.faults;
    && (if rotates
        then Paired(k'.memory, k.memory, MaxId(k.memory.Keys)) && k'.disk == (if committed then k'.memory else k.disk)
        else k'.memory == k.memory && k'.disk in {k.disk, k.memory})
    && k'.rotatedAt == (if rotates && committed && RotationStamp !in env.faults then env.now else k.rotatedAt)
  }

  lemma ConcludeSigned(e: Device, changed: bool, rotated: Option<nat>, env: Env)
    requires e.db.kyber == e.store.kyber && (rotated.Some? ==> changed)
    ensures var m := Conclude(e, changed, rotated, env).0;
      && m.store == e.store && m.db.kyber == e.db.kyber
      && m.db.signed == (if changed && MaintenanceCommit !in env.faults then e.store.signed else e.db.signed)
      && m.db.rotatedAt == (if rotated.Some? && MaintenanceCommit !in env.faults && RotationStamp !in env.faults
                            then rotated.value else e.db.rotatedAt)
  {
    assert e.db.kyber + e.store.kyber == e.db.kyber;
  }

  /** The signed prekeys in memory when maintenance is about to commit. */
  lemma TrimmedSigned(d: Device, env: Env)
    requires Ready(d)
    ensures var (e, r) := EnsureInventory(d, env); var signed := Overlap(e.store.signed);
      && (r.Failure? <==> ReadRotation in env.faults) && e.db == d.db && e.store.kyber == d.store.kyber
      && (r.Failure? ==> e.store.signed == d.store.signed)
      && (r.Success? ==>
          if Due(d, env)
          then r.value == (true, Some(env.now)) && Paired(signed, d.store.signed, MaxId(d.store.signed.Keys))
          else r.value.1.None? && signed == d.store.signed)
  {
    EnsureSigned(d, env);
    EnsureFails(d, env);
    assert d.store.signed != map[] && Stocked(d.store, env) == d.store;
    RefusedKeepsSigned(d, env);
    hide EnsureInventory, Stocked, MaxId, NewestTwo;
    if Due(d, env) {
      var s := d.store.signed;
      RotationKeepsNewest(s, env.signed(Successor(MaxId(s.Keys))));
      assert s.Keys != {} && MaxId(s.Keys) in s.Keys;
      hide Overlap;
    }
  }

  lemma RefusedKeepsSigned(d: Device, env: Env)
    ensures var (e, r) := EnsureInventory(d, env); r.Failure? ==> e.store.signed == Stocked(d.store, env).signed
  {
    hide Replenished, Stocked, Rotated;
  }

  lemma MaintainIsRound(d: Device, env: Env)
    requires Ready(d)
    ensures var m := Maintain(d, env).0;
      m.store.kyber == d.store.kyber && m.db.kyber == d.db.kyber && Round(KeysOf(d), env, KeysOf(m))
  {
    TrimmedSigned(d, env);
    hide EnsureInventory, Overlap, MaxId, Conclude, Paired;
    var (e, r) := EnsureInventory(d, env);
    if r.Success? {
      ConcludeSigned(Trimmed(e), r.value.0 || |e.store.signed| > SIGNED_PREKEY_OVERLAP, r.value.1, env);
    }
  }

  /** A reopen, or none. */
  function Between(d: Device, reopened: bool): Device {
    if reopened then Open(d) else d
  }

  lemma BetweenKeys(d: Device, reopened: bool)
    ensures var o := Between(d, reopened);
      && o.db == d.db && o.store.kyber == (if reopened then d.db.kyber else d.store.kyber)
      && KeysOf(o) == (if reopened then KeysOf(d).(memory := KeysOf(d).disk) else KeysOf(d))
  {
    ReloadSettles(d, d.db.identity, d.db.registration, {});
    hide LoadRecords;
  }

  /** Two rounds from settled keys, on the keys alone. */
  lemma TwoRounds(k: SignedKeys, first: Env, a: SignedKeys, reopened: bool, second: Env, b: SignedKeys)
    requires k.memory == k.disk != map[] && Round(k, first, a) && first.now <= second.now && second.faults == {}
    requires Round(if reopened then a.(memory := a.disk) else a, second, b)
    ensures var max := MaxId(k.disk.Keys);
      && (max in b.disk.Keys <==>
          !(Rotates(k, first) && if MaintenanceCommit in first.faults then !reopened
            else RotationStamp in first.faults || Elapsed(second.now, first.now) >= ROTATION_SECS))
      && (max in b.disk.Keys ==> max in k.disk && b.disk[max] == k.disk[max])
  {
    assert k.disk.Keys != {} && MaxId(k.disk.Keys) in k.disk.Keys;
    hide MaxId;
  }

  lemma StaysReady(k: SignedKeys, env: Env, a: SignedKeys, reopened: bool)
    requires k.memory == k.disk != map[] && |k.disk| <= SIGNED_PREKEY_OVERLAP && Round(k, env, a)
    ensures var m := (if reopened then a.disk else a.memory);
      0 < |m| <= SIGNED_PREKEY_OVERLAP && MaxId(m.Keys) <= MaxId(k.disk.Keys) + 1
  {
    var max := MaxId(k.disk.Keys);
    hide MaxId;
    if Rotates(k, env) {
      assert |a.memory| == |a.memory.Keys| && |{max, max + 1}| == 2;
    }
  }

  /** The newest signed prekey, which a bundle exported the moment before names, is still on disk after two rounds of
      maintenance, the second without failures, with or without a reopen between them, unless the first rotates and
      the second rotates again. That is the case exactly if the time stamp of the first failed, reopen or not; if
      its snapshot failed and the device was not reopened; or, in good order, after another 30 days. */
  lemma NewestKeySurvivesIff(d: Device, first: Env, reopened: bool, second: Env)
    requires Good(d) && d.db.signed != map[] && MaxId(d.db.signed.Keys) + 1 < U32_MAX
    requires first.now <= second.now && second.faults == {}
    ensures var m := Maintain(Between(Maintain(d, first).0, reopened), second).0; var max := MaxId(d.db.signed.Keys);
      && (max in m.db.signed.Keys <==>
          !(Due(d, first) && ReadRotation !in first.faults && if MaintenanceCommit in first.faults then !reopened
            else RotationStamp in first.faults || Elapsed(second.now, first.now) >= ROTATION_SECS))
      && (max in m.db.signed.Keys ==> max in d.db.signed && m.db.signed[max] == d.db.signed[max])
  {
    assert |d.db.signed| > 0;
    hide Maintain, Between, MaxId, Round;
    var n := Maintain(d, first).0;
    MaintainIsRound(d, first);
    BetweenKeys(n, reopened);
    StaysReady(KeysOf(d), first, KeysOf(n), reopened);
    var o := Between(n, reopened);
    MaintainIsRound(o, second);
    TwoRounds(KeysOf(d), first, KeysOf(n), reopened, second, KeysOf(Maintain(o, second).0));
  }

  /** Once the ids have run out, a rotation does not add a key: it overwrites the newest one. */
  lemma ExhaustedIdsReplaceTheNewestKey(s: Store, env: Env)
    requires s.signed != map[] && U32Ids(s.signed.Keys)
    ensures Rotated(s, env).signed.Keys == s.signed.Keys <==> MaxId(s.signed.Keys) == U32_MAX
    ensures MaxId(s.signed.Keys) == U32_MAX ==> Rotated(s, env).signed[U32_MAX] == env.signed(U32_MAX)
  {
    assert s.signed.Keys != {};
    var id := Successor(MaxId(s.signed.Keys));
    assert Rotated(s, env).signed.Keys == s.signed.Keys + {id};
  }
}
