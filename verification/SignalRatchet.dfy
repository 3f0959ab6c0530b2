/** No sending position of the ratchet is released twice, whatever commits fail and whenever the device reopens. */
module SignalRatchet {
  import opened Wrappers
  import opened Bytes
  import opened SignalDevice
  import opened SignalCalls

  /** The device, the positions of every envelope it has returned, and every chain libsignal has drawn. */
  datatype World = World(device: Device, released: seq<Position>, chains: set<Chain>)

  datatype Step = Step(call: Call, env: Env)

  predicate FreshDraw(chains: set<Chain>, number: nat) {
    forall c :: c in chains ==> c.number != number
  }

  /** Chains are drawn at random: a chain libsignal starts is not one drawn before, and a decryption otherwise
      goes on with a chain its session record holds. */
  ghost predicate Enabled(w: World, s: Step) {
    match s.call
    case EncryptCall(b) => FreshDraw(w.chains, s.env.draw)
    case DecryptCall(p) =>
      var l := Admit(w.device, p, s.env).0;
      FreshDraw(w.chains, s.env.draw) || GoesOn(l, p, s.env)
    case _ => true
  }

  /** A decryption goes on with a chain of the session record. */
  predicate GoesOn(d: Device, p: Peer, env: Env) {
    SessionOf(d, p).Some? && ChainFor(d, p, env) in SessionOf(d, p).value.next
  }

  /** The chains a call may have drawn. */
  function DrawnBy(d: Device, call: Call, env: Env): set<Chain> {
    match call
    case EncryptCall(b) => {ChainFor(Authorize(d, b, env).0, b.peer, env)}
    case DecryptCall(p) => {ChainFor(Admit(d, p, env).0, p, env)}
    case _ => {}
  }

  function Next(w: World, s: Step, verify: Verifier): World {
    var (d, reply) := Apply(w.device, s.call, verify, s.env);
    World(d, if reply.Sealed? then w.released + [reply.position] else w.released,
          w.chains + DrawnBy(w.device, s.call, s.env))
  }

  // ---------------------------------------------------------------- the invariant

  predicate PastPosition(sessions: map<Peer, Session>, at: Position) {
    at.peer in sessions && at.chain in sessions[at.peer].next ==> at.counter < sessions[at.peer].next[at.chain]
  }

  /** Every session is usable, holds drawn chains only and is past every released position. */
  ghost predicate Past(sessions: map<Peer, Session>, released: seq<Position>, chains: set<Chain>) {
    && (forall p :: p in sessions ==> Usable(sessions[p]) && sessions[p].next.Keys <= chains)
    && (forall i :: 0 <= i < |released| ==> PastPosition(sessions, released[i]))
  }

  ghost predicate Drawn(released: seq<Position>, chains: set<Chain>) {
    forall i :: 0 <= i < |released| ==> released[i].chain in chains
  }

  ghost predicate Safe(d: Device, released: seq<Position>, chains: set<Chain>) {
    && Past(d.store.sessions, released, chains)
    && Past(d.db.sessions, released, chains)
    && Drawn(released, chains)
  }

  predicate Distinct(released: seq<Position>) {
    forall i, j :: 0 <= i < j < |released| ==> released[i] != released[j]
  }

  ghost predicate Inv(w: World) {
    Safe(w.device, w.released, w.chains) && Distinct(w.released)
  }

  // ---------------------------------------------------------------- what each part of an operation keeps

  lemma CopyKeepsPast(
    from: map<Peer, Session>, to: map<Peer, Session>, p: Peer, released: seq<Position>, chains: set<Chain>)
    requires Past(from, released, chains) && Past(to, released, chains) && p in from
    ensures Past(to[p := from[p]], released, chains)
  {
    forall i | 0 <= i < |released| ensures PastPosition(to[p := from[p]], released[i]) {
      assert PastPosition(from, released[i]) && PastPosition(to, released[i]);
    }
  }

  lemma PersistKeepsSafe(d: Device, p: Peer, released: seq<Position>, chains: set<Chain>)
    requires Safe(d, released, chains)
    ensures Safe(Persist(d, p), released, chains)
  {
    if p in d.store.sessions { CopyKeepsPast(d.store.sessions, d.db.sessions, p, released, chains); }
  }

  lemma LoadKeepsSafe(d: Device, p: Peer, env: Env, released: seq<Position>, chains: set<Chain>)
    requires Safe(d, released, chains)
    ensures Safe(LoadPeer(d, p, env).0, released, chains)
  {
    if p in d.db.sessions { CopyKeepsPast(d.db.sessions, d.store.sessions, p, released, chains); }
  }

  lemma MaintainKeepsSafe(d: Device, env: Env, released: seq<Position>, chains: set<Chain>)
    requires Safe(d, released, chains)
    ensures Safe(Maintain(d, env).0, released, chains)
  {
    MaintainFrame(d, env);
    PersistKeepsSafe(d, d.local, released, chains);
  }

  lemma DropKeepsPast(sessions: map<Peer, Session>, p: Peer, released: seq<Position>, chains: set<Chain>)
    requires Past(sessions, released, chains)
    ensures Past(sessions - {p}, released, chains)
  {
    forall i | 0 <= i < |released| ensures PastPosition(sessions - {p}, released[i]) {
      assert PastPosition(sessions, released[i]);
    }
  }

  lemma MoreChains(sessions: map<Peer, Session>, released: seq<Position>, chains: set<Chain>, more: set<Chain>)
    requires Past(sessions, released, chains) && chains <= more
    ensures Past(sessions, released, more)
  {
  }

  ghost predicate Ahead(s: Session, p: Peer, released: seq<Position>) {
    forall i :: 0 <= i < |released| ==> PastPosition(map[p := s], released[i])
  }

  /** Replacing one session by one that is past every released position of its peer. */
  lemma PutKeepsSafe(d: Device, p: Peer, s: Session, released: seq<Position>, chains: set<Chain>)
    requires Safe(d, released, chains) && Usable(s) && s.next.Keys <= chains && Ahead(s, p, released)
    ensures Safe(PutSession(d, p, s), released, chains)
  {
    forall i | 0 <= i < |released| ensures PastPosition(d.store.sessions[p := s], released[i]) {
      assert PastPosition(d.store.sessions, released[i]) && PastPosition(map[p := s], released[i]);
    }
  }

  lemma HeldIsAhead(d: Device, p: Peer, released: seq<Position>, chains: set<Chain>)
    requires Safe(d, released, chains) && p in d.store.sessions
    ensures Ahead(d.store.sessions[p], p, released) && Ahead(Advanced(d.store.sessions[p]), p, released)
  {
    forall i | 0 <= i < |released|
      ensures PastPosition(map[p := d.store.sessions[p]], released[i])
           && PastPosition(map[p := Advanced(d.store.sessions[p])], released[i])
    {
      assert PastPosition(d.store.sessions, released[i]);
    }
  }

  lemma EstablishedIsAhead(p: Peer, chain: Chain, released: seq<Position>, chains: set<Chain>)
    requires Drawn(released, chains) && chain !in chains
    ensures Ahead(Established(chain), p, released) && Ahead(Advanced(Established(chain)), p, released)
  {
  }

  /** The session an encryption uses is past every released position, and stays so when it moves on. */
  lemma SealSession(d: Device, p: Peer, env: Env, released: seq<Position>, chains: set<Chain>) returns (session: Session)
    requires Safe(d, released, chains) && ChainFor(d, p, env) !in chains
    ensures session == if SessionOf(d, p).None? then Established(ChainFor(d, p, env)) else SessionOf(d, p).value
    ensures Usable(session) && session.next.Keys <= chains + {ChainFor(d, p, env)}
    ensures Ahead(session, p, released) && Ahead(Advanced(session), p, released)
    ensures NextPosition(p, session) !in released
  {
    session := if SessionOf(d, p).None? then Established(ChainFor(d, p, env)) else SessionOf(d, p).value;
    if p in d.store.sessions {
      HeldIsAhead(d, p, released, chains);
    } else {
      EstablishedIsAhead(p, ChainFor(d, p, env), released, chains);
    }
    assert forall i :: 0 <= i < |released| ==> PastPosition(map[p := session], released[i]);
  }

  /** An encryption moves past the position it is about to release, which no earlier envelope had. */
  lemma SealKeepsSafe(d: Device, p: Peer, env: Env, released: seq<Position>, chains: set<Chain>)
    requires Safe(d, released, chains) && ChainFor(d, p, env) !in chains
    ensures var (d', r) := Seal(d, p, env); var all := chains + {ChainFor(d, p, env)};
      && (r.Failure? ==> Safe(d', released, all))
      && (r.Success? ==> Safe(d', released + [r.value], all) && r.value !in released)
  {
    var all := chains + {ChainFor(d, p, env)};
    var session := SealSession(d, p, env, released, chains);
    GrownChains(d, released, chains, all);
    PutKeepsSafe(d, p, session, released, all);
    PutKeepsSafe(d, p, Advanced(session), released, all);
    var e := PutSession(d, p, Advanced(session));
    SealReleases(e, p, session, released, all);
    hide Persist, Safe, PutSession, Advanced, NextPosition, SessionOf;
  }

  lemma SealReleases(e: Device, p: Peer, session: Session, released: seq<Position>, chains: set<Chain>)
    requires Safe(e, released, chains) && Usable(session) && SessionOf(e, p) == Some(Advanced(session))
    ensures Safe(Persist(e, p), released + [NextPosition(p, session)], chains)
  {
    PersistKeepsSafe(e, p, released, chains);
    var d := Persist(e, p);
    var all := released + [NextPosition(p, session)];
    forall i | 0 <= i < |all| ensures PastPosition(d.store.sessions, all[i]) && PastPosition(d.db.sessions, all[i]) {
      if i < |released| {
        assert PastPosition(d.store.sessions, released[i]) && PastPosition(d.db.sessions, released[i]);
      }
    }
  }

  lemma UnsealKeepsSafe(d: Device, p: Peer, env: Env, released: seq<Position>, chains: set<Chain>)
    requires Safe(d, released, chains)
    requires ChainFor(d, p, env) !in chains || GoesOn(d, p, env)
    ensures Safe(Unsealed(d, p, env), released, chains + {ChainFor(d, p, env)})
  {
    var all := chains + {ChainFor(d, p, env)};
    MoreChains(d.store.sessions, released, chains, all);
    MoreChains(d.db.sessions, released, chains, all);
    var s := Received(SessionOf(d, p), ChainFor(d, p, env), env.kept);
    forall i | 0 <= i < |released| ensures PastPosition(map[p := s], released[i]) {
      assert PastPosition(d.store.sessions, released[i]);
    }
    PutKeepsSafe(d, p, s, released, all);
  }

  // ---------------------------------------------------------------- whole calls

  lemma AuthorizeKeepsSafe(d: Device, b: PeerBundle, env: Env, released: seq<Position>, chains: set<Chain>)
    requires Safe(d, released, chains)
    ensures Safe(Authorize(d, b, env).0, released, chains)
  {
    MaintainKeepsSafe(d, env, released, chains);
    LoadKeepsSafe(Maintain(d, env).0, b.peer, env, released, chains);
  }

  lemma EncryptKeepsSafe(d: Device, b: PeerBundle, env: Env, released: seq<Position>, chains: set<Chain>)
    requires Safe(d, released, chains) && FreshDraw(chains, env.draw)
    ensures var (d', r) := EncryptFor(d, b, env); var all := chains + DrawnBy(d, EncryptCall(b), env);
      && (r.Failure? ==> Safe(d', released, all))
      && (r.Success? ==> Safe(d', released + [r.value], all) && r.value !in released)
  {
    hide Authorize, Seal, Safe;
    AuthorizeKeepsSafe(d, b, env, released, chains);
    var l := Authorize(d, b, env).0;
    SealKeepsSafe(l, b.peer, env, released, chains);
    GrownChains(d, released, chains, chains + {ChainFor(l, b.peer, env)});
    GrownChains(l, released, chains, chains + {ChainFor(l, b.peer, env)});
  }

  lemma DistinctExtended(released: seq<Position>, at: Position)
    requires Distinct(released) && at !in released
    ensures Distinct(released + [at])
  {
  }

  lemma EncryptStep(w: World, s: Step, verify: Verifier)
    requires Inv(w) && Enabled(w, s) && s.call.EncryptCall?
    ensures Inv(Next(w, s, verify))
  {
    hide EncryptFor, DrawnBy;
    EncryptKeepsSafe(w.device, s.call.bundle, s.env, w.released, w.chains);
    var r := EncryptFor(w.device, s.call.bundle, s.env).1;
    if r.Success? {
      DistinctExtended(w.released, r.value);
    }
  }

  lemma GrownChains(d: Device, released: seq<Position>, chains: set<Chain>, more: set<Chain>)
    requires Safe(d, released, chains) && chains <= more
    ensures Safe(d, released, more)
  {
  }

  lemma DecryptKeepsSafe(d: Device, p: Peer, env: Env, released: seq<Position>, chains: set<Chain>)
    requires Safe(d, released, chains)
    requires FreshDraw(chains, env.draw) || GoesOn(Admit(d, p, env).0, p, env)
    ensures Safe(DecryptFrom(d, p, env).0, released, chains + DrawnBy(d, DecryptCall(p), env))
  {
    hide Maintain, Unsealed, LoadPeer, Persist, Admit, Safe, GoesOn;
    LoadKeepsSafe(d, p, env, released, chains);
    AdmitLoads(d, p, env);
    var l := Admit(d, p, env).0;
    var all := chains + {ChainFor(l, p, env)};
    GrownChains(l, released, chains, all);
    UnsealKeepsSafe(l, p, env, released, chains);
    var o := Unsealed(l, p, env);
    MaintainKeepsSafe(o, env, released, all);
    PersistKeepsSafe(Maintain(o, env).0, p, released, all);
  }

  lemma DecryptStep(w: World, s: Step, verify: Verifier)
    requires Inv(w) && Enabled(w, s) && s.call.DecryptCall?
    ensures Inv(Next(w, s, verify))
  {
    hide DecryptFrom, Admit, DrawnBy, GoesOn;
    DecryptKeepsSafe(w.device, s.call.peer, s.env, w.released, w.chains);
  }

  lemma TrustStep(d: Device, p: Peer, identity: Identity, env: Env, released: seq<Position>, chains: set<Chain>)
    requires Safe(d, released, chains)
    ensures Safe(TrustPeer(d, p, identity, env).0, released, chains)
  {
    var saved := SaveIdentity(d, p, identity);
    PersistKeepsSafe(saved.(db := saved.db.(revocations := saved.db.revocations - {p})), p, released, chains);
  }

  lemma ResetKeepsSafe(d: Device, faults: set<Fault>, released: seq<Position>, chains: set<Chain>)
    requires Past(d.db.sessions, released, chains) && Drawn(released, chains)
    ensures Safe(Reset(d, faults).0, released, chains)
  {
    ResetFrame(d, faults);
  }

  /** Every statement of a revocation, up to the reset. */
  lemma RevokeStep(d: Device, p: Peer, env: Env, released: seq<Position>, chains: set<Chain>)
    requires Safe(d, released, chains)
    ensures Safe(Revoke(d, p, env).0, released, chains)
  {
    hide Reset, Past;
    DropKeepsPast(d.db.sessions, p, released, chains);
    var a := d.(db := d.db.(sessions := d.db.sessions - {p}));
    var b := a.(db := a.db.(trusted := a.db.trusted - {p}));
    var c := b.(db := b.db.(revocations := b.db.revocations[p := Revocation(None)]));
    assert Safe(a, released, chains) && Safe(b, released, chains);
    ResetKeepsSafe(c, env.faults, released, chains);
    hide Safe;
  }

  lemma RecoverStep(
    d: Device, record: Recovery, confirmed: bool, verify: Verifier, env: Env, released: seq<Position>, chains: set<Chain>)
    requires Safe(d, released, chains)
    ensures Safe(AcceptRecovery(d, record, confirmed, verify, env).0, released, chains)
  {
    var p := record.bundle.peer;
    DropKeepsPast(d.db.sessions, p, released, chains);
    var a := SaveIdentity(d, p, record.bundle.identity);
    var b := a.(db := a.db.(sessions := a.db.sessions - {p}));
    assert Safe(b, released, chains);
    var c := b.(db := b.db.(revocations := b.db.revocations[p := Revocation(Some(Hex(record.bundle.identity)))]));
    assert Safe(c, released, chains);
    PersistKeepsSafe(c, p, released, chains);
    ResetKeepsSafe(Persist(c, p), env.faults, released, chains);
  }

  lemma ReplaceStep(
    d: Device, identity: Identity, registration: nat, env: Env, released: seq<Position>, chains: set<Chain>)
    requires Safe(d, released, chains)
    ensures Safe(ReplaceIdentity(d, identity, registration, env).0, released, chains)
  {
    var db := Database(identity, registration, map[], map[], map[], map[], map[], 0, d.db.revocations);
    MaintainKeepsSafe(d.(db := db, store := BlankStore(identity, registration)), env, released, chains);
  }

  lemma LoadStep(d: Device, p: Peer, env: Env, released: seq<Position>, chains: set<Chain>)
    requires Safe(d, released, chains)
    ensures Safe(Open(d), released, chains) && Safe(Persist(d, p), released, chains)
    ensures Safe(LoadPeer(d, p, env).0, released, chains)
  {
    ResetKeepsSafe(d.(store := BlankStore(d.db.identity, d.db.registration)), {}, released, chains);
    PersistKeepsSafe(d, p, released, chains);
    LoadKeepsSafe(d, p, env, released, chains);
    hide LoadRecords, LoadPeer, Persist, Safe;
  }

  lemma OtherCall(d: Device, call: Call, verify: Verifier, env: Env, released: seq<Position>, chains: set<Chain>)
    requires Safe(d, released, chains) && !call.EncryptCall? && !call.DecryptCall?
    ensures Safe(Apply(d, call, verify, env).0, released, chains) && !Apply(d, call, verify, env).1.Sealed?
  {
    hide TrustPeer, Revoke, AcceptRecovery, ReplaceIdentity, Maintain, LoadPeer, Persist, Open, Safe;
    match call
    case TrustCall(p, identity) => TrustStep(d, p, identity, env, released, chains);
    case RevokeCall(p) => RevokeStep(d, p, env, released, chains);
    case RecoverCall(record, confirmed) => RecoverStep(d, record, confirmed, verify, env, released, chains);
    case ReplaceCall(identity, registration) => ReplaceStep(d, identity, registration, env, released, chains);
    case ExportCall => MaintainKeepsSafe(d, env, released, chains);
    case MaintainCall => MaintainKeepsSafe(d, env, released, chains);
    case LoadCall(p) => LoadStep(d, p, env, released, chains);
    case PersistCall(p) => LoadStep(d, p, env, released, chains);
    case ReopenCall => LoadStep(d, d.local, env, released, chains);
    case _ =>
  }

  lemma OtherStep(w: World, s: Step, verify: Verifier)
    requires Inv(w) && Enabled(w, s) && !s.call.EncryptCall? && !s.call.DecryptCall?
    ensures Inv(Next(w, s, verify))
  {
    hide Apply, Safe;
    OtherCall(w.device, s.call, verify, s.env, w.released, w.chains);
    assert w.chains + {} == w.chains;
  }

  lemma NextInv(w: World, s: Step, verify: Verifier)
    requires Inv(w) && Enabled(w, s)
    ensures Inv(Next(w, s, verify))
  {
    if s.call.EncryptCall? {
      EncryptStep(w, s, verify);
    } else if s.call.DecryptCall? {
      DecryptStep(w, s, verify);
    } else {
      OtherStep(w, s, verify);
    }
  }

  // ---------------------------------------------------------------- runs

  ghost predicate Run(w: World, steps: seq<Step>, verify: Verifier, w': World)
    decreases |steps|
  {
    if steps == [] then w' == w
    else Enabled(w, steps[0]) && Run(Next(w, steps[0], verify), steps[1..], verify, w')
  }

  /** No envelope has left the device and it holds no session. */
  ghost predicate Initial(w: World) {
    w.device.store.sessions == map[] && w.device.db.sessions == map[] && w.released == []
  }

  lemma {:induction false} RunKeepsInv(w: World, steps: seq<Step>, verify: Verifier, w': World)
    requires Inv(w) && Run(w, steps, verify, w')
    ensures Inv(w')
    decreases |steps|
  {
    if steps != [] {
      NextInv(w, steps[0], verify);
      RunKeepsInv(Next(w, steps[0], verify), steps[1..], verify, w');
    }
  }

  ghost predicate Reachable(w: World, verify: Verifier) {
    exists start, steps :: Initial(start) && Run(start, steps, verify, w)
  }

  lemma ReachableInv(w: World, verify: Verifier)
    requires Reachable(w, verify)
    ensures Inv(w)
  {
    var start, steps :| Initial(start) && Run(start, steps, verify, w);
    hide Run;
    assert Inv(start);
    RunKeepsInv(start, steps, verify, w);
  }

  /** Two envelopes returned by `encrypt_for` never share a position, through failed commits with or without a
      reopen, interleaved decryptions, revocations, recoveries and identity replacement; and the session on disk
      is already past every position released. */
  lemma NoPositionIsReleasedTwice(w: World, verify: Verifier, i: nat, j: nat)
    requires Reachable(w, verify) && i < j < |w.released|
    ensures w.released[i] != w.released[j]
    ensures PastPosition(w.device.db.sessions, w.released[i]) && PastPosition(w.device.db.sessions, w.released[j])
  {
    hide Reachable;
    ReachableInv(w, verify);
  }
}
