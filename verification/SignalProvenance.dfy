/** Where trusted identities come from: each goes back to one that was given to `trust_peer`, through recovery
    records each of which verified under the identity held just before. */
module SignalProvenance {
  import opened Wrappers
  import opened Bytes
  import opened SignalDevice
  import opened SignalCalls
  import opened SignalTrust

  /** How an identity can enter the device. */
  datatype Origin = Given(peer: Peer, identity: Identity) | Recovered(record: Recovery)

  datatype World = World(device: Device, origins: seq<Origin>)

  /** The checks of `accept_recovery`. */
  predicate Accepts(d: Device, record: Recovery, confirmed: bool, verify: Verifier) {
    && confirmed && record.confirmation
    && verify(record.previous, record)
    && IdentityOf(d, record.bundle.peer) == Some(record.previous)
  }

  /** The check of `trust_peer`. */
  predicate Takes(d: Device, p: Peer, identity: Identity) {
    p in d.store.trusted ==> d.store.trusted[p] == identity
  }

  /** A call that saves an identity records where it came from; a refused one records nothing. */
  function OriginOf(d: Device, call: Call, verify: Verifier): seq<Origin> {
    match call
    case TrustCall(p, identity) => if Takes(d, p, identity) then [Given(p, identity)] else []
    case RecoverCall(record, confirmed) => if Accepts(d, record, confirmed, verify) then [Recovered(record)] else []
    case _ => []
  }

  function Next(w: World, s: Step, verify: Verifier): World {
    World(Apply(w.device, s.call, verify, s.env).0, w.origins + OriginOf(w.device, s.call, verify))
  }

  /** The identity was given for this peer, or a record that verified under an identity justified before it names it. */
  ghost predicate Justified(origins: seq<Origin>, verify: Verifier, p: Peer, identity: Identity)
    decreases |origins|
  {
    exists i :: 0 <= i < |origins| &&
      match origins[i]
      case Given(q, given) => q == p && given == identity
      case Recovered(record) =>
        && record.bundle == PeerBundle(p, identity)
        && verify(record.previous, record)
        && Justified(origins[..i], verify, p, record.previous)
  }

  lemma JustifiedGrows(origins: seq<Origin>, more: seq<Origin>, verify: Verifier, p: Peer, identity: Identity)
    requires Justified(origins, verify, p, identity)
    ensures Justified(origins + more, verify, p, identity)
  {
    var i :| 0 <= i < |origins| &&
      match origins[i]
      case Given(q, given) => q == p && given == identity
      case Recovered(record) =>
        && record.bundle == PeerBundle(p, identity)
        && verify(record.previous, record)
        && Justified(origins[..i], verify, p, record.previous);
    assert (origins + more)[i] == origins[i] && (origins + more)[..i] == origins[..i];
  }

  ghost predicate AllJustified(trusted: map<Peer, Identity>, origins: seq<Origin>, verify: Verifier) {
    forall p :: p in trusted ==> Justified(origins, verify, p, trusted[p])
  }

  ghost predicate Inv(w: World, verify: Verifier) {
    && AllJustified(w.device.store.trusted, w.origins, verify)
    && AllJustified(w.device.db.trusted, w.origins, verify)
  }

  lemma AllGrow(trusted: map<Peer, Identity>, origins: seq<Origin>, more: seq<Origin>, verify: Verifier)
    requires AllJustified(trusted, origins, verify)
    ensures AllJustified(trusted, origins + more, verify)
  {
    forall p | p in trusted ensures Justified(origins + more, verify, p, trusted[p]) {
      JustifiedGrows(origins, more, verify, p, trusted[p]);
    }
  }

  /** Identities after a call come from before it, except one that the call itself brings for one peer. */
  ghost predicate TrustFromOr(d: Device, d': Device, p: Peer, identity: Identity) {
    && (forall q :: q in d'.store.trusted ==>
          || (q == p && d'.store.trusted[q] == identity)
          || (q in d.store.trusted && d.store.trusted[q] == d'.store.trusted[q])
          || (q in d.db.trusted && d.db.trusted[q] == d'.store.trusted[q]))
    && (forall q :: q in d'.db.trusted ==>
          || (q == p && d'.db.trusted[q] == identity)
          || (q in d.store.trusted && d.store.trusted[q] == d'.db.trusted[q])
          || (q in d.db.trusted && d.db.trusted[q] == d'.db.trusted[q]))
  }

  lemma TrustBrings(d: Device, p: Peer, identity: Identity, env: Env)
    ensures TrustFromOr(d, TrustPeer(d, p, identity, env).0, p, identity)
  {
    var a := SaveIdentity(d, p, identity);
    var b := a.(db := a.db.(revocations := a.db.revocations - {p}));
    assert TrustFromOr(d, a, p, identity) && TrustFromOr(d, b, p, identity);
    assert TrustFromOr(d, Persist(b, p), p, identity);
    hide TrustFromOr, Persist, SaveIdentity;
  }

  lemma RecoverBrings(d: Device, record: Recovery, confirmed: bool, verify: Verifier, env: Env)
    requires Accepts(d, record, confirmed, verify)
    ensures TrustFromOr(
      d, AcceptRecovery(d, record, confirmed, verify, env).0, record.bundle.peer, record.bundle.identity)
  {
    hide Hex, Reset;
    var p, identity := record.bundle.peer, record.bundle.identity;
    var a := SaveIdentity(d, p, identity);
    var b := a.(db := a.db.(sessions := a.db.sessions - {p}));
    var c := b.(db := b.db.(revocations := b.db.revocations[p := Revocation(Some(Hex(identity)))]));
    ResetFrame(Persist(c, p), env.faults);
    assert TrustFromOr(d, a, p, identity) && TrustFromOr(d, b, p, identity) && TrustFromOr(d, c, p, identity);
    assert TrustFromOr(d, Reset(Persist(c, p), env.faults).0, p, identity);
    hide TrustFromOr, Persist, SaveIdentity;
  }

  lemma RevokeBrings(d: Device, p: Peer, env: Env)
    ensures TrustFrom(d, Revoke(d, p, env).0)
  {
    hide Reset;
    var a := d.(db := d.db.(sessions := d.db.sessions - {p}));
    var b := a.(db := a.db.(trusted := a.db.trusted - {p}));
    var c := b.(db := b.db.(revocations := b.db.revocations[p := Revocation(None)]));
    ResetFrame(c, env.faults);
    assert TrustFrom(d, d) && TrustFrom(d, a) && TrustFrom(d, b) && TrustFrom(d, Reset(c, env.faults).0);
    hide TrustFrom;
  }

  lemma BroughtKeepsInv(w: World, d': Device, verify: Verifier, more: seq<Origin>, p: Peer, identity: Identity)
    requires Inv(w, verify) && TrustFromOr(w.device, d', p, identity)
    requires Justified(w.origins + more, verify, p, identity)
    ensures Inv(World(d', w.origins + more), verify)
  {
    AllGrow(w.device.store.trusted, w.origins, more, verify);
    AllGrow(w.device.db.trusted, w.origins, more, verify);
    hide Justified;
  }

  lemma KeptKeepsInv(w: World, d': Device, verify: Verifier)
    requires Inv(w, verify) && TrustFrom(w.device, d')
    ensures Inv(World(d', w.origins), verify)
  {
    hide Justified;
  }

  lemma RecordIsJustified(w: World, record: Recovery, confirmed: bool, verify: Verifier)
    requires Inv(w, verify) && Accepts(w.device, record, confirmed, verify)
    ensures Justified(w.origins + [Recovered(record)], verify, record.bundle.peer, record.bundle.identity)
  {
    var all := w.origins + [Recovered(record)];
    var n := |w.origins|;
    assert all[n] == Recovered(record) && all[..n] == w.origins;
    assert Justified(all[..n], verify, record.bundle.peer, record.previous);
  }

  lemma GivenIsJustified(origins: seq<Origin>, verify: Verifier, p: Peer, identity: Identity)
    ensures Justified(origins + [Given(p, identity)], verify, p, identity)
  {
    assert (origins + [Given(p, identity)])[|origins|] == Given(p, identity);
  }

  lemma NextInv(w: World, s: Step, verify: Verifier)
    requires Inv(w, verify)
    ensures Inv(Next(w, s, verify), verify)
  {
    hide Inv, Justified, TrustFrom, TrustFromOr, TrustPeer, Revoke, AcceptRecovery;
    hide EncryptFor, DecryptFrom, ReplaceIdentity, LoadPeer, Maintain, Persist, Open, Export;
    var d := w.device;
    var d' := Apply(d, s.call, verify, s.env).0;
    match s.call
    case TrustCall(p, identity) =>
      if Takes(d, p, identity) {
        TrustBrings(d, p, identity, s.env);
        GivenIsJustified(w.origins, verify, p, identity);
        BroughtKeepsInv(w, d', verify, [Given(p, identity)], p, identity);
      } else {
        RefusedTrust(d, p, identity, s.env);
        assert w.origins + [] == w.origins;
      }
    case RecoverCall(record, confirmed) =>
      if Accepts(d, record, confirmed, verify) {
        RecoverBrings(d, record, confirmed, verify, s.env);
        RecordIsJustified(w, record, confirmed, verify);
        BroughtKeepsInv(w, d', verify, [Recovered(record)], record.bundle.peer, record.bundle.identity);
      } else {
        RefusedRecovery(d, record, confirmed, verify, s.env);
        assert w.origins + [] == w.origins;
      }
    case RevokeCall(p) =>
      RevokeBrings(d, p, s.env);
      KeptKeepsInv(w, d', verify);
      assert w.origins + [] == w.origins;
    case _ =>
      OtherCallsAreNeutral(d, s.call, verify, s.env);
      KeptKeepsInv(w, d', verify);
      assert w.origins + [] == w.origins;
  }

  lemma RefusedTrust(d: Device, p: Peer, identity: Identity, env: Env)
    requires !Takes(d, p, identity)
    ensures TrustPeer(d, p, identity, env) == (d, Failure(IdentityChanged))
  {
  }

  /** `accept_recovery` fails one of its checks exactly if the record is not acceptable, and then changes nothing. */
  lemma RefusedRecovery(d: Device, record: Recovery, confirmed: bool, verify: Verifier, env: Env)
    ensures !Accepts(d, record, confirmed, verify) <==>
      var r := AcceptRecovery(d, record, confirmed, verify, env).1;
      r == Failure(NotConfirmed) || r == Failure(BadSignature) || r == Failure(WrongSigner)
    ensures !Accepts(d, record, confirmed, verify) ==> AcceptRecovery(d, record, confirmed, verify, env).0 == d
  {
    hide Reset, Persist, Hex, SaveIdentity;
    var p := record.bundle.peer;
    var saved := SaveIdentity(d, p, record.bundle.identity);
    var a := saved.(db := saved.db.(sessions := saved.db.sessions - {p}));
    var b := a.(db := a.db.(revocations := a.db.revocations[p := Revocation(Some(Hex(record.bundle.identity)))]));
    ResetRefuses(Persist(b, p), env.faults);
  }

  // ---------------------------------------------------------------- runs

  function Final(w: World, steps: seq<Step>, verify: Verifier): World
    decreases |steps|
  {
    if steps == [] then w else Final(Next(w, steps[0], verify), steps[1..], verify)
  }

  lemma {:induction false} RunKeepsInv(w: World, steps: seq<Step>, verify: Verifier)
    requires Inv(w, verify)
    ensures Inv(Final(w, steps, verify), verify)
    decreases |steps|
  {
    hide Next, Inv;
    if steps != [] {
      NextInv(w, steps[0], verify);
      RunKeepsInv(Next(w, steps[0], verify), steps[1..], verify);
    }
  }

  /** Identities and records in which each record verified under the identity before it and names the next. */
  ghost predicate SignedChain(verify: Verifier, p: Peer, identities: seq<Identity>, records: seq<Recovery>) {
    && |identities| == |records| + 1
    && forall i :: 0 <= i < |records| ==>
      && records[i].previous == identities[i]
      && verify(identities[i], records[i])
      && records[i].bundle == PeerBundle(p, identities[i + 1])
  }

  /** The chain occurs in the run in its own order: `at` gives rising places, that of the identity given by hand first
      and then those of the records. */
  ghost predicate Occurs(origins: seq<Origin>, p: Peer, given: Identity, records: seq<Recovery>, at: seq<nat>) {
    && |at| == |records| + 1
    && (forall i :: 0 <= i < |at| ==> at[i] < |origins|)
    && (forall i, j :: 0 <= i < j < |at| ==> at[i] < at[j])
    && origins[at[0]] == Given(p, given)
    && (forall i :: 0 <= i < |records| ==> origins[at[i + 1]] == Recovered(records[i]))
  }

  lemma {:induction false} JustifiedHasChain(origins: seq<Origin>, verify: Verifier, p: Peer, identity: Identity)
    returns (identities: seq<Identity>, records: seq<Recovery>, at: seq<nat>)
    requires Justified(origins, verify, p, identity)
    ensures SignedChain(verify, p, identities, records) && identities[|records|] == identity
    ensures Occurs(origins, p, identities[0], records, at)
    decreases |origins|
  {
    var i :| 0 <= i < |origins| &&
      match origins[i]
      case Given(q, given) => q == p && given == identity
      case Recovered(record) =>
        && record.bundle == PeerBundle(p, identity)
        && verify(record.previous, record)
        && Justified(origins[..i], verify, p, record.previous);
    match origins[i] {
      case Given(_, _) =>
        identities, records, at := [identity], [], [i];
      case Recovered(record) =>
        var before, links, places := JustifiedHasChain(origins[..i], verify, p, record.previous);
        identities, records, at := before + [identity], links + [record], places + [i];
        assert forall j :: 0 <= j < |places| ==> origins[..i][places[j]] == origins[places[j]];
    }
  }

  /** In every run from a device that trusts nobody, an identity held for a peer, in memory or in SQLite, ends a
      chain that starts at an identity that `trust_peer` took for that peer and whose every link is a recovery
      record accepted later in the run and signed by the identity before it. */
  lemma TrustHasASignedChain(d: Device, steps: seq<Step>, verify: Verifier, p: Peer, identity: Identity)
    returns (identities: seq<Identity>, records: seq<Recovery>, at: seq<nat>)
    requires d.store.trusted == map[] && d.db.trusted == map[]
    requires
      var w := Final(World(d, []), steps, verify);
      (p in w.device.store.trusted && w.device.store.trusted[p] == identity)
      || (p in w.device.db.trusted && w.device.db.trusted[p] == identity)
    ensures SignedChain(verify, p, identities, records) && identities[|records|] == identity
    ensures Occurs(Final(World(d, []), steps, verify).origins, p, identities[0], records, at)
  {
    hide Final, Justified;
    RunKeepsInv(World(d, []), steps, verify);
    identities, records, at := JustifiedHasChain(Final(World(d, []), steps, verify).origins, verify, p, identity);
  }

  /** The promise that a changed identity needs an explicit recovery holds for a peer whose identity is in memory,
      and only then: `trust_peer` does not look at the database, so right after a reopen it replaces any identity. */
  lemma TrustChecksMemoryOnly(d: Device, p: Peer, identity: Identity, env: Env)
    requires env.faults == {} && p in d.db.trusted && d.db.trusted[p] != identity
    ensures TrustPeer(LoadPeer(Open(d), p, env).0, p, identity, env)
         == (LoadPeer(Open(d), p, env).0, Failure(IdentityChanged))
    ensures TrustPeer(Open(d), p, identity, env).1.Success?
    ensures p in TrustPeer(Open(d), p, identity, env).0.db.trusted
    ensures TrustPeer(Open(d), p, identity, env).0.db.trusted[p] == identity
  {
  }

  /** The exact condition, for a peer whose identity is on disk: another identity is refused just when the one on
      disk is loaded. */
  lemma IdentityChangeIsRefusedIffLoaded(d: Device, p: Peer, identity: Identity, env: Env)
    requires env.faults == {} && p in d.db.trusted && d.db.trusted[p] != identity
    requires p in d.store.trusted ==> d.store.trusted[p] == d.db.trusted[p]
    ensures
      var d' := TrustPeer(d, p, identity, env).0;
      (p in d'.db.trusted && d'.db.trusted[p] == d.db.trusted[p]) <==> p in d.store.trusted
  {
  }
}
