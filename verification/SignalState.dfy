/** The device object: its methods update the runtime store and the database in place, in the order the adapter
    does, and each is proved equal to the operation of the same name on values. */
module SignalState {
  import opened Wrappers
  import opened Bytes
  import opened SignalDevice
  import opened SignalCalls
  import opened SignalInventory

  /** The restocking loop will end. */
  ghost predicate CanRestock(s: Store, env: Env) {
    U32Ids(s.prekeys.Keys) && Headroom(Stocked(s, env).prekeys)
  }

  /** Writes each of the records over the rows. */
  method InsertAll(rows: map<nat, Key>, records: map<nat, Key>) returns (all: map<nat, Key>)
    ensures all == rows + records
  {
    all := rows;
    var pending := records.Keys;
    while pending != {}
      invariant pending <= records.Keys
      invariant all.Keys == rows.Keys + (records.Keys - pending)
      invariant forall id :: id in all.Keys ==> all[id] == (if id in records.Keys - pending then records[id] else rows[id])
      decreases |pending|
    {
      var id :| id in pending;
      all := all[id := records[id]];
      pending := pending - {id};
    }
  }

  class SqliteSignalState {
    const local: Peer
    const configured: bool
    var db: Database
    var store: Store

    function State(): Device
      reads this
    {
      Device(local, configured, db, store)
    }

    /** `open` on an initialized database. */
    constructor (local: Peer, configured: bool, db: Database)
      ensures this.local == local && this.configured == configured
      ensures forall s: Store :: State() == Open(Device(local, configured, db, s))
    {
      this.local := local;
      this.configured := configured;
      this.db := db;
      this.store := BlankStore(db.identity, db.registration);
      new;
      var loaded := LoadRecords({});
    }

    method LoadRecords(faults: set<Fault>) returns (r: Result<(), Refusal>)
      modifies this`store
      ensures (State(), r) == SignalDevice.LoadRecords(old(State()), faults)
    {
      if ReadPrekeys in faults { return Failure(Failed(ReadPrekeys)); }
      var prekeys := InsertAll(store.prekeys, db.prekeys);
      store := store.(prekeys := prekeys);
      if ReadSigned in faults { return Failure(Failed(ReadSigned)); }
      var signed := InsertAll(store.signed, db.signed);
      store := store.(signed := signed);
      if ReadKyber in faults { return Failure(Failed(ReadKyber)); }
      var kyber := InsertAll(store.kyber, db.kyber);
      store := store.(kyber := kyber);
      r := Success(());
    }

    method ResetRuntimeStore(faults: set<Fault>) returns (r: Result<(), Refusal>)
      modifies this`store
      ensures (State(), r) == Reset(old(State()), faults)
    {
      store := BlankStore(store.identity, store.registration);
      r := LoadRecords(faults);
    }

    method LoadPeer(p: Peer, env: Env) returns (r: Result<(), Refusal>)
      modifies this`store
      ensures (State(), r) == SignalDevice.LoadPeer(old(State()), p, env)
    {
      if ReadSession in env.faults { return Failure(Failed(ReadSession)); }
      if p in db.sessions {
        store := store.(sessions := store.sessions[p := db.sessions[p]]);
      }
      if ReadTrusted in env.faults { return Failure(Failed(ReadTrusted)); }
      if p in db.trusted {
        store := store.(trusted := store.trusted[p := db.trusted[p]]);
      }
      r := Success(());
    }

    /** One transaction, given up if its commit fails. */
    method PersistPeer(p: Peer, commit: Fault, faults: set<Fault>) returns (r: Result<(), Refusal>)
      modifies this`db
      ensures commit in faults ==> State() == old(State()) && r == Failure(Failed(commit))
      ensures commit !in faults ==> State() == Persist(old(State()), p) && r == Success(())
    {
      var tx := db.(identity := store.identity, registration := store.registration);
      if p in store.sessions {
        tx := tx.(sessions := tx.sessions[p := store.sessions[p]]);
      }
      if p in store.trusted {
        tx := tx.(trusted := tx.trusted[p := store.trusted[p]]);
      }
      var prekeys := InsertAll(map[], store.prekeys);
      var signed := InsertAll(map[], store.signed);
      var kyber := InsertAll(tx.kyber, store.kyber);
      tx := tx.(prekeys := prekeys, signed := signed, kyber := kyber);
      if commit in faults { return Failure(Failed(commit)); }
      assert prekeys == store.prekeys && signed == store.signed;
      assert tx == Snapshot(db, store, p);
      hide Snapshot;
      db := tx;
      r := Success(());
    }

    /** Copies the newest signed prekeys into a fresh store, newest first. */
    method RetainSignedPrekeyOverlap()
      modifies this`store
      ensures State() == Trimmed(old(State()))
    {
      if |store.signed| <= SIGNED_PREKEY_OVERLAP { return; }
      ghost var newest := MaxId(store.signed.Keys);
      ghost var others := store.signed.Keys - {newest};
      assert |others| == |store.signed.Keys| - 1 && |store.signed| == |store.signed.Keys|;
      var ids := store.signed.Keys;
      var retained: map<nat, Key> := map[];
      for turn := 0 to SIGNED_PREKEY_OVERLAP
        invariant forall id :: id in retained ==> id in store.signed && retained[id] == store.signed[id]
        invariant turn == 0 ==> ids == store.signed.Keys && retained == map[]
        invariant turn == 1 ==> ids == others && retained.Keys == {newest}
        invariant turn == 2 ==> retained.Keys == {newest, MaxId(others)}
      {
        var id := MaxId(ids);
        retained := retained[id := store.signed[id]];
        ids := ids - {id};
      }
      assert retained == Overlap(store.signed);
      store := store.(signed := retained);
    }

    /** Generates one-time prekeys under consecutive ids until there are enough. */
    method RestockPrekeys(env: Env) returns (changed: bool)
      requires U32Ids(store.prekeys.Keys) && Headroom(store.prekeys)
      modifies this`store
      ensures store == old(store).(prekeys := Replenished(old(store).prekeys, env))
      ensures changed == (|old(store).prekeys| < PREKEY_LOW_WATERMARK)
    {
      hide Headroom, U32Ids, MaxId, AfterTurns, IdOfTurn, Successor;
      ghost var was := store.prekeys;
      changed := false;
      if |store.prekeys| < PREKEY_LOW_WATERMARK {
        var nextId := Successor(MaxId(store.prekeys.Keys));
        ghost var n := 0;
        FirstTurn(was, env);
        while |store.prekeys| < PREKEY_TARGET
          invariant n <= PREKEY_TARGET - |was|
          invariant nextId == IdOfTurn(was, n)
          invariant store == old(store).(prekeys := AfterTurns(was, n, env))
          invariant |store.prekeys| == |was| + n
          invariant changed == (n > 0)
          decreases PREKEY_TARGET - |store.prekeys|
        {
          RoomForTurn(was, n, env);
          store := store.(prekeys := store.prekeys[nextId := env.prekey(nextId)]);
          changed := true;
          nextId := Successor(nextId);
          n := n + 1;
        }
      }
    }

    method EnsureKeyInventory(env: Env) returns (r: Result<(bool, Option<nat>), Refusal>)
      requires CanRestock(store, env)
      modifies this`store
      ensures (State(), r) == EnsureInventory(old(State()), env)
    {
      hide Replenished, Headroom, MaxId, CreateBundle;
      StockedKeys(State(), env);
      var changed := false;
      if LacksBundle(store) {
        store := CreateBundle(store, env);
        changed := true;
      }
      var restocked := RestockPrekeys(env);
      changed := changed || restocked;
      if ReadRotation in env.faults { return Failure(Failed(ReadRotation)); }
      if Elapsed(env.now, db.rotatedAt) < ROTATION_SECS { return Success((changed, None)); }
      var id := Successor(MaxId(store.signed.Keys));
      store := store.(signed := store.signed[id := env.signed(id)]);
      r := Success((true, Some(env.now)));
    }

    method MaintainKeyInventory(env: Env) returns (r: Result<(), Refusal>)
      requires CanRestock(store, env)
      modifies this
      ensures (State(), r) == Maintain(old(State()), env)
    {
      hide EnsureInventory, Overlap, Persist, CanRestock;
      var ensured := EnsureKeyInventory(env);
      if ensured.Failure? { return Failure(ensured.error); }
      var (changed, rotated) := ensured.value;
      ghost var unchecked := State();
      if |store.signed| > SIGNED_PREKEY_OVERLAP {
        RetainSignedPrekeyOverlap();
        changed := true;
      }
      assert State() == Trimmed(unchecked) by { OverlapIsSmall(unchecked); }
      if changed {
        var kept := PersistPeer(local, MaintenanceCommit, env.faults);
        if kept.Failure? { return kept; }
        if rotated.Some? {
          if RotationStamp in env.faults { return Failure(Failed(RotationStamp)); }
          db := db.(rotatedAt := rotated.value);
        }
      }
      r := Finish(env);
    }

    method ExportBundle(env: Env) returns (r: Result<OwnBundle, Refusal>)
      requires CanRestock(store, env)
      modifies this
      ensures (State(), r) == Export(old(State()), env)
    {
      hide Maintain, CanRestock, BundleOf;
      var maintained := MaintainKeyInventory(env);
      if maintained.Failure? { return Failure(maintained.error); }
      r := BundleOf(store, env.pick);
    }

    method TrustPeer(p: Peer, identity: Identity, env: Env) returns (r: Result<(), Refusal>)
      modifies this
      ensures (State(), r) == SignalDevice.TrustPeer(old(State()), p, identity, env)
    {
      hide Persist;
      if p in store.trusted && store.trusted[p] != identity { return Failure(IdentityChanged); }
      store := store.(trusted := store.trusted[p := identity]);
      if DeleteRevocation in env.faults { return Failure(Failed(DeleteRevocation)); }
      db := db.(revocations := db.revocations - {p});
      r := PersistPeer(p, PeerCommit, env.faults);
    }

    method RevokeDevice(p: Peer, env: Env) returns (r: Result<(), Refusal>)
      modifies this
      ensures (State(), r) == Revoke(old(State()), p, env)
    {
      hide Reset;
      if DeleteSession in env.faults { return Failure(Failed(DeleteSession)); }
      db := db.(sessions := db.sessions - {p});
      if DeleteTrusted in env.faults { return Failure(Failed(DeleteTrusted)); }
      db := db.(trusted := db.trusted - {p});
      if WriteRevocation in env.faults { return Failure(Failed(WriteRevocation)); }
      db := db.(revocations := db.revocations[p := Revocation(None)]);
      r := ResetRuntimeStore(env.faults);
    }

    method AcceptRecovery(record: Recovery, confirmed: bool, verify: (Identity, Recovery) -> bool, env: Env)
      returns (r: Result<PeerBundle, Refusal>)
      modifies this
      ensures (State(), r) == SignalDevice.AcceptRecovery(old(State()), record, confirmed, verify, env)
    {
      hide Reset, Persist, Hex;
      var p := record.bundle.peer;
      if !confirmed || !record.confirmation { return Failure(NotConfirmed); }
      if !verify(record.previous, record) { return Failure(BadSignature); }
      if p !in store.trusted || store.trusted[p] != record.previous { return Failure(WrongSigner); }
      store := store.(trusted := store.trusted[p := record.bundle.identity]);
      if DeleteSession in env.faults { return Failure(Failed(DeleteSession)); }
      db := db.(sessions := db.sessions - {p});
      if WriteRevocation in env.faults { return Failure(Failed(WriteRevocation)); }
      db := db.(revocations := db.revocations[p := Revocation(Some(Hex(record.bundle.identity)))]);
      if WriteRecovery in env.faults { return Failure(Failed(WriteRecovery)); }
      var kept := PersistPeer(p, PeerCommit, env.faults);
      if kept.Failure? { return Failure(kept.error); }
      var reset := ResetRuntimeStore(env.faults);
      if reset.Failure? { return Failure(reset.error); }
      r := Success(record.bundle);
    }

    method ReplaceIdentity(identity: Identity, registration: nat, env: Env)
      returns (r: Result<(OwnBundle, Recovery), Refusal>)
      modifies this
      ensures (State(), r) == SignalDevice.ReplaceIdentity(old(State()), identity, registration, env)
    {
      hide Export;
      var oldIdentity := store.identity;
      if ReplaceCommit in env.faults { return Failure(Failed(ReplaceCommit)); }
      db := Database(identity, registration, map[], map[], map[], map[], map[], 0, db.revocations);
      store := BlankStore(identity, registration);
      BlankCanRestock(identity, registration, env);
      var bundle := ExportBundle(env);
      if bundle.Failure? { return Failure(bundle.error); }
      var record := Recovery(oldIdentity, PeerBundle(local, bundle.value.identity), env.now, true, []);
      record := record.(signature := env.sign(oldIdentity, record));
      if WriteRecovery in env.faults { return Failure(Failed(WriteRecovery)); }
      r := Success((bundle.value, record));
    }

    method EncryptFor(b: PeerBundle, env: Env) returns (r: Result<Position, Refusal>)
      requires CanRestock(store, env)
      modifies this
      ensures (State(), r) == SignalDevice.EncryptFor(old(State()), b, env)
    {
      hide Maintain, SignalDevice.LoadPeer, Persist, CanRestock;
      if !configured { return Failure(NotConfigured); }
      var maintained := MaintainKeyInventory(env);
      if maintained.Failure? { return Failure(maintained.error); }
      var loaded := LoadPeer(b.peer, env);
      if loaded.Failure? { return Failure(loaded.error); }
      if ReadRevocation in env.faults { return Failure(Failed(ReadRevocation)); }
      if IsRevoked(State(), b.peer) { return Failure(Revoked); }
      if b.peer !in store.trusted || store.trusted[b.peer] != b.identity { return Failure(NotTrusted); }
      assert Authorize(old(State()), b, env) == (State(), Success(()));
      hide Authorize, IsRevoked;
      r := Encrypted(b.peer, env);
    }

    method Encrypted(p: Peer, env: Env) returns (r: Result<Position, Refusal>)
      modifies this
      ensures (State(), r) == Seal(old(State()), p, env)
    {
      hide Persist;
      ghost var was := store.sessions;
      if p !in store.sessions {
        if ProcessBundle in env.faults { return Failure(Failed(ProcessBundle)); }
        store := store.(sessions := store.sessions[p := Established(ChainFor(State(), p, env))]);
      }
      var session := store.sessions[p];
      assert store.sessions[p := session] == store.sessions;
      if Encrypt in env.faults || !Usable(session) { return Failure(Failed(Encrypt)); }
      if !SessionTrusted(State(), p, session) { return Failure(NoTrustedSession); }
      store := store.(sessions := store.sessions[p := Advanced(session)]);
      assert store.sessions == was[p := Advanced(session)];
      if Encode in env.faults { return Failure(Failed(Encode)); }
      var kept := PersistPeer(p, PeerCommit, env.faults);
      if kept.Failure? { return Failure(kept.error); }
      r := Success(NextPosition(p, session));
    }

    method DecryptFrom(sender: Peer, env: Env) returns (r: Result<Identity, Refusal>)
      requires var (l, admitted) := Admit(State(), sender, env);
        admitted.Success? ==> CanRestock(Unsealed(l, sender, env).store, env)
      modifies this
      ensures (State(), r) == SignalDevice.DecryptFrom(old(State()), sender, env)
    {
      hide Maintain, SignalDevice.LoadPeer, Persist, CanRestock, Received;
      var loaded := LoadPeer(sender, env);
      if loaded.Failure? { return Failure(loaded.error); }
      if ReadRevocation in env.faults { return Failure(Failed(ReadRevocation)); }
      if IsRevoked(State(), sender) { return Failure(Revoked); }
      if sender !in store.trusted { return Failure(NotTrusted); }
      if Decode in env.faults { return Failure(Failed(Decode)); }
      if Decrypt in env.faults { return Failure(Failed(Decrypt)); }
      var identity := store.trusted[sender];
      if !Opens(SessionOf(State(), sender), identity, env) { return Failure(NoTrustedSession); }
      assert Admit(old(State()), sender, env) == (State(), Success(identity));
      hide Admit, IsRevoked;
      store := Unsealed(State(), sender, env).store;
      var maintained := MaintainKeyInventory(env);
      if maintained.Failure? { return Failure(maintained.error); }
      var kept := PersistPeer(sender, PeerCommit, env.faults);
      if kept.Failure? { return Failure(kept.error); }
      r := Success(identity);
    }
  }

  lemma FirstTurn(prekeys: map<nat, Key>, env: Env)
    ensures IdOfTurn(prekeys, 0) == Successor(MaxId(prekeys.Keys)) && AfterTurns(prekeys, 0, env) == prekeys
  {
  }

  lemma RoomForTurn(prekeys: map<nat, Key>, n: nat, env: Env)
    requires U32Ids(prekeys.Keys) && Headroom(prekeys) && |prekeys| < PREKEY_LOW_WATERMARK
    requires n < PREKEY_TARGET - |prekeys|
    ensures |AfterTurns(prekeys, n + 1, env)| == |prekeys| + n + 1
    ensures var id := IdOfTurn(prekeys, n);
      AfterTurns(prekeys, n + 1, env) == AfterTurns(prekeys, n, env)[id := env.prekey(id)]
    ensures IdOfTurn(prekeys, n + 1) == Successor(IdOfTurn(prekeys, n))
  {
    TurnCount(prekeys, n + 1, env);
    hide MaxId;
  }

  lemma OverlapIsSmall(d: Device)
    ensures |d.store.signed| <= SIGNED_PREKEY_OVERLAP ==> Trimmed(d) == d
  {
  }

  /** A new identity starts with ids to spare. */
  lemma BlankCanRestock(identity: Identity, registration: nat, env: Env)
    ensures CanRestock(BlankStore(identity, registration), env)
  {
    var s := Stocked(BlankStore(identity, registration), env);
    assert s.prekeys.Keys == {1};
  }
}
