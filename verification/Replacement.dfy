/** Replacing the device's own identity: what is left of the old one, what the new bundle names, and that a peer that
    trusted the old identity follows the announcement to the new one. */
module Replacement {
  import opened Wrappers
  import opened Bytes
  import opened SignalDevice
  import opened SignalCalls
  import opened SignalInventory
  import opened SignalAnswers

  /** The device after the transaction that replaces its identity. */
  function Emptied(d: Device, identity: Identity, registration: nat): Device {
    Device(d.local, d.configured,
           Database(identity, registration, map[], map[], map[], map[], map[], 0, d.db.revocations),
           Store(identity, registration, map[], map[], map[], map[], map[]))
  }

  lemma ReplaceExports(d: Device, identity: Identity, registration: nat, env: Env)
    ensures var (d', r) := ReplaceIdentity(d, identity, registration, env);
      var (e, exported) := Export(Emptied(d, identity, registration), env);
      if ReplaceCommit in env.faults then d' == d && r == Failure(Failed(ReplaceCommit))
      else
        && d' == e
        && (r.Success? <==> exported.Success? && WriteRecovery !in env.faults)
        && (r.Success? ==> r.value.0 == exported.value)
  {
    var db := Database(identity, registration, map[], map[], map[], map[], map[], 0, d.db.revocations);
    assert d.(db := db, store := BlankStore(identity, registration)) == Emptied(d, identity, registration);
    hide Export, Announcement, Emptied;
  }

  /** Maintenance of a device keeps its identity, on disk too if that was the same before. */
  lemma MaintainKeepsIdentity(d: Device, env: Env)
    requires d.db.identity == d.store.identity && d.db.registration == d.store.registration
    ensures var m := Maintain(d, env).0;
      && m.db.identity == m.store.identity == d.store.identity
      && m.db.registration == m.store.registration == d.store.registration
  {
    hide EnsureInventory, Overlap;
    EnsureFrame(d, env);
    var (e, r) := EnsureInventory(d, env);
    if r.Success? {
      var t := Trimmed(e);
      assert t.store.identity == d.store.identity && t.store.registration == d.store.registration;
      SnapshotWrites(t, t.local);
      hide Trimmed, Persist;
    }
  }

  /** Once its transaction is committed, a replacement stands whatever fails after it: memory and disk hold the new
      identity, no session, and no identity of any peer; revocations are kept; and a restart finds the new identity. A
      transaction that fails changes nothing. */
  lemma ReplacementStands(d: Device, identity: Identity, registration: nat, env: Env)
    ensures var (d', r) := ReplaceIdentity(d, identity, registration, env);
      if ReplaceCommit in env.faults then d' == d && r == Failure(Failed(ReplaceCommit))
      else
        && d'.local == d.local && d'.configured == d.configured
        && d'.store.identity == d'.db.identity == identity
        && d'.store.registration == d'.db.registration == registration
        && d'.store.sessions == map[] && d'.db.sessions == map[]
        && d'.store.trusted == map[] && d'.db.trusted == map[]
        && d'.db.revocations == d.db.revocations
        && Open(d').store.identity == Open(d').db.identity == identity
  {
    var blank := Emptied(d, identity, registration);
    ReplaceExports(d, identity, registration, env);
    MaintainKeepsIdentity(blank, env);
    MaintainFrame(blank, env);
    RestartReads(Maintain(blank, env).0);
    hide Maintain, ReplaceIdentity, Open;
  }

  /** Every key was generated by this call. */
  ghost predicate AllNew(keys: map<nat, Key>, generate: nat -> Key) {
    forall id :: id in keys ==> keys[id] == generate(id)
  }

  lemma NothingIsOld(keys: map<nat, Key>, generate: nat -> Key)
    requires OldOrNew(map[], keys, generate)
    ensures AllNew(keys, generate)
  {
  }

  /** A replacement that succeeds returns a bundle with the new identity that names keys generated by this call, all of
      them on disk, and an announcement under the old identity that names the new one. */
  lemma ReplacementExports(d: Device, identity: Identity, registration: nat, env: Env)
    requires ReplaceIdentity(d, identity, registration, env).1.Success?
    ensures var (d', r) := ReplaceIdentity(d, identity, registration, env); var (bundle, record) := r.value;
      && bundle.identity == identity
      && bundle.prekey in d'.db.prekeys && d'.db.prekeys[bundle.prekey] == env.prekey(bundle.prekey)
      && bundle.signed in d'.db.signed && d'.db.signed[bundle.signed] == env.signed(bundle.signed)
      && bundle.kyber in d'.db.kyber && d'.db.kyber[bundle.kyber] == env.kyber(bundle.kyber)
      && d'.db.prekeys == d'.store.prekeys && d'.db.signed == d'.store.signed && d'.db.kyber == d'.store.kyber
      && AllNew(d'.db.prekeys, env.prekey) && AllNew(d'.db.signed, env.signed) && AllNew(d'.db.kyber, env.kyber)
      && record.previous == d.store.identity && record.bundle == PeerBundle(d.local, identity)
      && record.confirmation && record.effectiveAt == env.now
      && record.signature == env.sign(d.store.identity, record.(signature := []))
  {
    var blank := Emptied(d, identity, registration);
    ReplaceExports(d, identity, registration, env);
    ReplacementStands(d, identity, registration, env);
    ExportIff(blank, env);
    MaintenanceGenerates(blank, env);
    BlankRestocks(blank, env);
    var m := Maintain(blank, env).0;
    assert m == ReplaceIdentity(d, identity, registration, env).0;
    assert Generated(blank.store, m.store, env);
    NothingIsOld(m.store.prekeys, env.prekey);
    NothingIsOld(m.store.signed, env.signed);
    NothingIsOld(m.store.kyber, env.kyber);
    Announced(d, identity, registration, env);
    hide Maintain, ReplaceIdentity, Export, OldOrNew, Generated, Open;
  }

  lemma Announced(d: Device, identity: Identity, registration: nat, env: Env)
    requires ReplaceIdentity(d, identity, registration, env).1.Success?
    ensures var (bundle, record) := ReplaceIdentity(d, identity, registration, env).1.value;
      && record.previous == d.store.identity && record.bundle == PeerBundle(d.local, bundle.identity)
      && record.confirmation && record.effectiveAt == env.now
      && record.signature == env.sign(d.store.identity, record.(signature := []))
  {
    hide Export;
  }

  /** A device without keys has some of each kind after maintenance, and agrees with its disk. */
  lemma BlankRestocks(d: Device, env: Env)
    requires Maintain(d, env).1.Success?
    requires d.store.prekeys == d.db.prekeys == map[] && d.store.signed == d.db.signed == map[]
    requires d.store.kyber == d.db.kyber == map[]
    ensures var m := Maintain(d, env).0;
      Synced(m) && m.store.prekeys != map[] && m.store.signed != map[] && m.store.kyber != map[]
  {
    var stocked := Stocked(d.store, env);
    assert stocked.prekeys == map[1 := env.prekey(1)];
    assert stocked.prekeys.Keys == {1} && |stocked.prekeys| == |stocked.prekeys.Keys|;
    assert MaxId(stocked.prekeys.Keys) == 1;
    assert U32Ids(d.store.prekeys.Keys);
    hide Maintain, MaxId, Stocked;
    MaintenanceRestoresInventory(d, env);
    assert |Maintain(d, env).0.store.prekeys| > 0 && |Maintain(d, env).0.store.signed| > 0;
  }

  /** A replacement succeeds exactly if its transaction, the rotation time's read, the commit of the new keys, the reset
      of the failure counter and the last write do not fail, nor, 30 days after the epoch, the new rotation time. */
  lemma ReplaceSucceedsIff(d: Device, identity: Identity, registration: nat, env: Env)
    ensures ReplaceIdentity(d, identity, registration, env).1.Success?
       <==> && env.faults !! {ReplaceCommit, ReadRotation, MaintenanceCommit, StatusRow, WriteRecovery}
            && (env.now >= 2592000 ==> RotationStamp !in env.faults)
  {
    var blank := Emptied(d, identity, registration);
    ReplaceExports(d, identity, registration, env);
    MaintainSucceedsIff(blank, env);
    ExportIff(blank, env);
    assert Changes(blank, env) && blank.db.rotatedAt == 0;
    hide Maintain, ReplaceIdentity, Export, Changes, Synced;
    if Maintain(blank, env).1.Success? { BlankRestocks(blank, env); }
    hide Emptied;
  }

  /** A peer that held the old identity follows: if signatures of a key verify under it, the announcement is accepted
      when it is confirmed and nothing fails, and the peer then trusts the new identity for this device, in memory after
      a load and on disk. */
  lemma ReplacementIsFollowed(
    d: Device, identity: Identity, registration: nat, env: Env, peer: Device, verify: Verifier, accepting: Env)
    requires ReplaceIdentity(d, identity, registration, env).1.Success?
    requires d.local in peer.store.trusted && peer.store.trusted[d.local] == d.store.identity
    requires forall u: Recovery :: verify(d.store.identity, u.(signature := env.sign(d.store.identity, u)))
    requires accepting.faults == {}
    ensures var record := ReplaceIdentity(d, identity, registration, env).1.value.1;
      var (p', r) := AcceptRecovery(peer, record, true, verify, accepting);
      && r == Success(PeerBundle(d.local, identity))
      && IdentityFor(p', d.local) == Some(identity) && Admits(p', d.local, Some(identity))
      && !Admits(p', d.local, Some(d.store.identity)) == (identity != d.store.identity)
  {
    ReplacementExports(d, identity, registration, env);
    var record := ReplaceIdentity(d, identity, registration, env).1.value.1;
    assert record == record.(signature := []).(signature := env.sign(d.store.identity, record.(signature := [])));
    AcceptRecoveryIff(peer, record, true, verify, accepting);
    HexIff(identity, d.store.identity);
    hide ReplaceIdentity, AcceptRecovery, Hex;
  }

  lemma HexIff(a: Identity, b: Identity)
    ensures Hex(a) == Hex(b) <==> a == b
  {
    if Hex(a) == Hex(b) { HexInjective(a, b); }
  }
}
