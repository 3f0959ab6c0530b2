/** Key maintenance: what a successful run of it leaves, and exactly when its restocking loop ends. */
module SignalInventory {
  import opened Wrappers
  import opened Bytes
  import opened SignalDevice
  import opened SignalCalls

  // ---------------------------------------------------------------- the restocking loop

  ghost predicate U32Ids(ids: set<nat>) {
    forall id :: id in ids ==> id <= U32_MAX
  }

  function Least(a: int, b: int): int {
    if a < b then a else b
  }

  lemma {:induction false} TurnId(prekeys: map<nat, Key>, n: nat)
    requires U32Ids(prekeys.Keys)
    ensures IdOfTurn(prekeys, n) == Least(MaxId(prekeys.Keys) + 1 + n, U32_MAX)
  {
    hide MaxId;
    if n > 0 { TurnId(prekeys, n - 1); }
  }

  /** Each turn adds a prekey under the next id until the ids run out; after that it only replaces the last one. */
  lemma {:induction false} TurnKeys(prekeys: map<nat, Key>, n: nat, env: Env, id: nat)
    requires U32Ids(prekeys.Keys)
    ensures id in AfterTurns(prekeys, n, env)
       <==> id in prekeys || MaxId(prekeys.Keys) < id <= Least(MaxId(prekeys.Keys) + n, U32_MAX)
  {
    if n > 0 {
      TurnKeys(prekeys, n - 1, env, id);
      TurnId(prekeys, n - 1);
    }
  }

  lemma AddKey(before: map<nat, Key>, id: nat, key: Key)
    ensures |before[id := key]| == |before| + (if id in before then 0 else 1)
  {
    var after := before[id := key];
    assert after.Keys == before.Keys + {id};
    assert |after| == |after.Keys| && |before| == |before.Keys|;
  }

  /** The id of a turn is new as long as there are ids left. */
  lemma TurnIsNew(prekeys: map<nat, Key>, n: nat, env: Env)
    requires U32Ids(prekeys.Keys)
    ensures MaxId(prekeys.Keys) <= U32_MAX
    ensures IdOfTurn(prekeys, n) in AfterTurns(prekeys, n, env) <==> MaxId(prekeys.Keys) + n >= U32_MAX
  {
    TurnKeys(prekeys, n, env, IdOfTurn(prekeys, n));
    TurnId(prekeys, n);
    assert MaxId(prekeys.Keys) == 0 || MaxId(prekeys.Keys) in prekeys.Keys;
    hide MaxId, IdOfTurn, AfterTurns;
  }

  lemma {:induction false} TurnCount(prekeys: map<nat, Key>, n: nat, env: Env)
    requires U32Ids(prekeys.Keys)
    ensures |AfterTurns(prekeys, n, env)| == |prekeys| + Least(n, U32_MAX - MaxId(prekeys.Keys))
  {
    if n == 0 {
      assert MaxId(prekeys.Keys) <= U32_MAX;
    } else {
      hide MaxId, IdOfTurn;
      TurnCount(prekeys, n - 1, env);
      TurnIsNew(prekeys, n - 1, env);
      var id := IdOfTurn(prekeys, n - 1);
      var before := AfterTurns(prekeys, n - 1, env);
      assert AfterTurns(prekeys, n, env) == before[id := env.prekey(id)];
      hide AfterTurns, U32Ids;
      AddKey(before, id, env.prekey(id));
    }
  }

  /** A prekey that is not the last possible one is never replaced. */
  lemma {:induction false} TurnKeeps(prekeys: map<nat, Key>, n: nat, env: Env, id: nat)
    requires U32Ids(prekeys.Keys) && id in prekeys && id < U32_MAX
    ensures id in AfterTurns(prekeys, n, env) && AfterTurns(prekeys, n, env)[id] == prekeys[id]
  {
    if n > 0 {
      TurnKeeps(prekeys, n - 1, env, id);
      TurnId(prekeys, n - 1);
      assert id <= MaxId(prekeys.Keys);
    }
  }

  /** The loop that restocks one-time prekeys ends exactly when enough ids are left; otherwise `saturating_add`
      keeps producing the same id and the loop runs for ever. */
  lemma RestockEndsIffHeadroom(prekeys: map<nat, Key>, env: Env)
    requires |prekeys| < PREKEY_LOW_WATERMARK && U32Ids(prekeys.Keys)
    ensures (exists n: nat :: |AfterTurns(prekeys, n, env)| >= PREKEY_TARGET) <==> Headroom(prekeys)
  {
    if Headroom(prekeys) {
      TurnCount(prekeys, PREKEY_TARGET - |prekeys|, env);
      assert |AfterTurns(prekeys, PREKEY_TARGET - |prekeys|, env)| >= PREKEY_TARGET;
    } else {
      forall n: nat ensures |AfterTurns(prekeys, n, env)| < PREKEY_TARGET {
        TurnCount(prekeys, n, env);
      }
    }
  }

  lemma ReplenishedCount(prekeys: map<nat, Key>, env: Env)
    requires Headroom(prekeys) && U32Ids(prekeys.Keys)
    ensures |Replenished(prekeys, env)|
         == if |prekeys| < PREKEY_LOW_WATERMARK then PREKEY_TARGET else |prekeys|
  {
    if |prekeys| < PREKEY_LOW_WATERMARK {
      TurnCount(prekeys, PREKEY_TARGET - |prekeys|, env);
    }
  }

  /** Restocking keeps every prekey there is and adds only ids above all of them. */
  lemma RestockKeepsPrekeys(prekeys: map<nat, Key>, env: Env, id: nat)
    requires Headroom(prekeys) && U32Ids(prekeys.Keys)
    ensures id in prekeys ==> id in Replenished(prekeys, env) && Replenished(prekeys, env)[id] == prekeys[id]
    ensures id in Replenished(prekeys, env) && id !in prekeys ==> id > MaxId(prekeys.Keys)
  {
    if |prekeys| < PREKEY_LOW_WATERMARK {
      TurnKeys(prekeys, PREKEY_TARGET - |prekeys|, env, id);
      if id in prekeys {
        assert id <= MaxId(prekeys.Keys) < U32_MAX;
        TurnKeeps(prekeys, PREKEY_TARGET - |prekeys|, env, id);
      }
      hide AfterTurns, MaxId, IdOfTurn;
    }
  }

  // ---------------------------------------------------------------- the overlap

  /** The ids the overlap rule keeps are those with at most one larger id. */
  lemma NewestTwoAreTheLargest(ids: set<nat>, id: nat)
    requires id in ids
    ensures id in NewestTwo(ids) <==> forall a, b :: a in ids && b in ids && a > id && b > id ==> a == b
  {
    var newest := MaxId(ids);
    var others := ids - {newest};
    forall a | a in ids && a != newest ensures a in others { }
    if others != {} {
      var second := MaxId(others);
      if id != newest && id != second {
        assert id in others;
        assert id < second && second < newest;
      }
    }
  }

  lemma OverlapKeepsTwo(signed: map<nat, Key>)
    ensures var kept := Overlap(signed);
      && |kept| == Least(|signed|, SIGNED_PREKEY_OVERLAP)
      && (signed != map[] ==> MaxId(kept.Keys) == MaxId(signed.Keys) && MaxId(signed.Keys) in kept)
      && (forall id :: id in kept ==> id in signed && kept[id] == signed[id])
  {
    if |signed| > SIGNED_PREKEY_OVERLAP {
      var newest := MaxId(signed.Keys);
      var others := signed.Keys - {newest};
      assert |signed| == |signed.Keys| && |others| == |signed| - 1;
      var second := MaxId(others);
      var kept := Overlap(signed);
      assert kept.Keys == {newest, second};
      assert |kept| == |kept.Keys|;
    }
  }

  // ---------------------------------------------------------------- a successful run

  /** Memory holds the keys that SQLite holds. */
  predicate Synced(d: Device) {
    d.store.prekeys == d.db.prekeys && d.store.signed == d.db.signed && d.store.kyber == d.db.kyber
  }

  lemma StockedKeys(d: Device, env: Env)
    requires U32Ids(d.store.prekeys.Keys)
    ensures var s := Stocked(d.store, env);
      && U32Ids(s.prekeys.Keys) && s.signed != map[] && s.kyber != map[] && s.kyber.Keys >= d.store.kyber.Keys
      && (!LacksBundle(d.store) ==> s == d.store)
  {
    if LacksBundle(d.store) {
      var s := CreateBundle(d.store, env);
      assert 1 in s.signed && 1 in s.kyber;
      assert s.prekeys.Keys == d.store.prekeys.Keys + {1};
    }
  }

  /** The inventory is the restocked store, possibly with one signed prekey more. */
  lemma EnsuredStore(d: Device, env: Env)
    ensures var (e, r) := EnsureInventory(d, env); var stocked := Stocked(d.store, env);
      && e.db == d.db && e.local == d.local && e.configured == d.configured
      && e.store.prekeys == Replenished(stocked.prekeys, env) && e.store.kyber == stocked.kyber
      && (e.store.signed == stocked.signed || e.store.signed == Rotated(stocked, env).signed)
      && (r.Success? && !r.value.0 ==>
          e.store.prekeys == stocked.prekeys && e.store.signed == stocked.signed && stocked == d.store
          && r.value.1.None?)
  {
    var stocked := Stocked(d.store, env);
    var s := stocked.(prekeys := Replenished(stocked.prekeys, env));
    RotationAddsOneKey(stocked, s, env);
    UnchangedIsKept(d, env);
    hide Replenished, Stocked, Rotated, LacksBundle;
  }

  /** Maintenance that reports no change has made none. */
  lemma UnchangedIsKept(d: Device, env: Env)
    ensures var (e, r) := EnsureInventory(d, env); var stocked := Stocked(d.store, env);
      r.Success? && !r.value.0 ==>
        e.store.prekeys == stocked.prekeys && e.store.signed == stocked.signed && stocked == d.store && r.value.1.None?
  {
    EnoughIsKept(Stocked(d.store, env).prekeys, env);
    assert !LacksBundle(d.store) ==> Stocked(d.store, env) == d.store;
    hide Replenished, Stocked, Rotated, LacksBundle;
  }

  lemma RotationAddsOneKey(stocked: Store, s: Store, env: Env)
    requires s.signed == stocked.signed
    ensures Rotated(s, env) == s.(signed := Rotated(stocked, env).signed)
  {
    hide MaxId;
  }

  lemma EnoughIsKept(prekeys: map<nat, Key>, env: Env)
    ensures |prekeys| >= PREKEY_LOW_WATERMARK ==> Replenished(prekeys, env) == prekeys
  {
    hide AfterTurns;
  }

  lemma EnsuredKeys(d: Device, env: Env)
    requires Headroom(Stocked(d.store, env).prekeys) && U32Ids(d.store.prekeys.Keys)
    ensures var (e, r) := EnsureInventory(d, env); var had := |Stocked(d.store, env).prekeys|;
      && |e.store.prekeys| == (if had < PREKEY_LOW_WATERMARK then PREKEY_TARGET else had)
      && e.store.signed != map[] && e.store.kyber != map[]
      && e.store.kyber.Keys >= d.store.kyber.Keys
      && e.db == d.db
      && (r.Success? && !r.value.0 ==>
          e.store.prekeys == d.store.prekeys && e.store.signed == d.store.signed && e.store.kyber == d.store.kyber)
  {
    var stocked := Stocked(d.store, env);
    StockedKeys(d, env);
    ReplenishedCount(stocked.prekeys, env);
    EnsuredStore(d, env);
    assert Successor(MaxId(stocked.signed.Keys)) in Rotated(stocked, env).signed;
    hide EnsureInventory, Replenished, Stocked, Headroom, MaxId, Rotated, U32Ids;
  }

  /** What `Conclude` leaves when it succeeds: the store it was given and, if it committed, the same keys on disk. */
  lemma ConcludedKeys(d: Device, changed: bool, rotated: Option<nat>, env: Env)
    requires Conclude(d, changed, rotated, env).1.Success? && d.db.kyber.Keys <= d.store.kyber.Keys
    ensures var d' := Conclude(d, changed, rotated, env).0;
      d'.store == d.store && (if changed then Synced(d') else d' == d)
  {
    assert d.db.kyber + d.store.kyber == d.store.kyber;
  }

  /** From a state in which memory and SQLite hold the same keys, successful maintenance ends in such a state, with
      at least 8 one-time prekeys (exactly 32 if there were fewer than 8) and one or two signed prekeys, the newest
      of which is the newest there was. */
  lemma MaintenanceRestoresInventory(d: Device, env: Env)
    requires Synced(d) && Headroom(Stocked(d.store, env).prekeys) && U32Ids(d.store.prekeys.Keys)
    requires Maintain(d, env).1.Success?
    ensures var d' := Maintain(d, env).0; var had := |Stocked(d.store, env).prekeys|;
      && Synced(d')
      && |d'.store.prekeys| == (if had < PREKEY_LOW_WATERMARK then PREKEY_TARGET else had)
      && 0 < |d'.store.signed| <= SIGNED_PREKEY_OVERLAP
      && d'.store.signed == Overlap(EnsureInventory(d, env).0.store.signed)
      && d'.store.kyber != map[]
  {
    hide EnsureInventory, MaxId, Headroom, Conclude, NewestTwo;
    EnsuredKeys(d, env);
    StockedKeys(d, env);
    var (e, r) := EnsureInventory(d, env);
    OverlapKeepsTwo(e.store.signed);
    var changed := r.value.0 || |e.store.signed| > SIGNED_PREKEY_OVERLAP;
    assert e.store.kyber.Keys >= d.db.kyber.Keys;
    ConcludedKeys(Trimmed(e), changed, r.value.1, env);
  }

  /** A bundle names a one-time prekey and the newest signed and Kyber prekeys of the store. */
  lemma BundleNames(s: Store, pick: nat)
    requires s.prekeys != map[] && s.signed != map[] && s.kyber != map[]
    ensures var r := BundleOf(s, pick);
      && r.Success? && r.value.identity == s.identity
      && r.value.prekey in s.prekeys && r.value.signed in s.signed && r.value.kyber in s.kyber
      && (forall id :: id in s.signed ==> id <= r.value.signed)
      && (forall id :: id in s.kyber ==> id <= r.value.kyber)
  {
    assert s.prekeys.Keys != {} && s.signed.Keys != {} && s.kyber.Keys != {};
    assert forall id :: id in s.signed ==> id in s.signed.Keys;
    assert forall id :: id in s.kyber ==> id in s.kyber.Keys;
  }

  /** Every key that an exported bundle names is on disk. */
  lemma ExportNamesDurableKeys(d: Device, env: Env)
    requires Synced(d) && Headroom(Stocked(d.store, env).prekeys) && U32Ids(d.store.prekeys.Keys)
    requires Maintain(d, env).1.Success?
    ensures var (d', r) := Export(d, env);
      && r.Success? && r.value.identity == d'.store.identity
      && r.value.prekey in d'.db.prekeys && r.value.signed in d'.db.signed && r.value.kyber in d'.db.kyber
      && (forall id :: id in d'.db.signed ==> id <= r.value.signed)
      && (forall id :: id in d'.db.kyber ==> id <= r.value.kyber)
  {
    hide Maintain, EnsureInventory, Overlap, Stocked, Headroom, U32Ids, MaxId, BundleOf;
    MaintenanceRestoresInventory(d, env);
    var s := Maintain(d, env).0.store;
    assert s.prekeys != map[] && s.signed != map[] && s.kyber != map[];
    BundleNames(s, env.pick);
  }
}
