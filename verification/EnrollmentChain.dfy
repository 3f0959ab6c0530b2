/** Where tokens come from, over whole runs: each goes to a registration signed with a listed key over a challenge that
    the key's client bought with its secret, and each listed key was added by hand or asked for in a signed request that
    was approved in time. */
module EnrollmentChain {
  import opened Wrappers
  import opened Bytes
  import opened RelayEnrollment
  import opened Registration
  import opened EnrollmentRuns

  /** The tables after a run that starts with empty ones. */
  function Final(steps: seq<Step>, crypto: Crypto): World {
    if steps == [] then EMPTY else Next(Final(steps[..|steps| - 1], crypto), steps[|steps| - 1], crypto)
  }

  // ---------------------------------------------------------------- what a run has seen

  /** This step is a proper request for the client, signed with this key, with this hash of a secret. */
  predicate Requested(s: Step, c: ClientId, identity: Identity, secretHash: Text, crypto: Crypto) {
    && s.op.RequestOp? && Proper(s.op.form) && s.op.form.identity == Key(identity)
    && crypto.clientOf(identity) == c && s.op.form.secretHash == secretHash
    && crypto.verify(identity, EnrollmentPayload(s.op.form, crypto), s.op.form.signature.value)
  }

  /** This step adds the client by hand with this key. */
  predicate AddedByHand(s: Step, c: ClientId, identity: Identity, secretHash: Text, crypto: Crypto) {
    s.op.AddOp? && s.op.client == c && s.op.identity == Key(identity) && crypto.hash(s.op.secret) == secretHash
  }

  /** This step approves the client, within 900 seconds of the request. */
  predicate ApprovedInTime(request: Step, s: Step, c: ClientId) {
    s.op.ApproveOp? && s.op.client == c && s.now <= request.now + 900
  }

  /** The key was listed for the client by hand, or on a request it signed at most 900 seconds before. */
  ghost predicate Listed(steps: seq<Step>, c: ClientId, identity: Identity, secretHash: Text, crypto: Crypto) {
    || (exists j :: 0 <= j < |steps| && AddedByHand(steps[j], c, identity, secretHash, crypto))
    || ListedOnRequest(steps, c, identity, secretHash, crypto)
  }

  ghost predicate ListedOnRequest(steps: seq<Step>, c: ClientId, identity: Identity, secretHash: Text, crypto: Crypto) {
    exists i, j :: 0 <= i < j < |steps|
      && Requested(steps[i], c, identity, secretHash, crypto) && ApprovedInTime(steps[i], steps[j], c)
  }

  /** The request was sent and has not been replaced. */
  ghost predicate Asked(steps: seq<Step>, c: ClientId, q: Pending, crypto: Crypto) {
    exists i :: 0 <= i < |steps|
      && Requested(steps[i], c, q.identity, q.secretHash, crypto) && q.expiresAt == steps[i].now + 900
  }

  /** The challenge was bought at step `j`, by one who knew the secret the client was listed with then. */
  ghost predicate Bought(steps: seq<Step>, c: ClientId, h: Challenge, crypto: Crypto, j: nat) {
    && j < |steps|
    && steps[j].op.ChallengeOp? && steps[j].op.client == c && steps[j].op.bytes == h.bytes
    && h.expiresAt == steps[j].now + 300
    && var past := Final(steps[..j], crypto).tables;
      MayRegister(past, c) && past.allowlist[c].secretHash == crypto.hash(steps[j].op.secret)
  }

  ghost predicate Inv(steps: seq<Step>, t: Tables, crypto: Crypto) {
    && (forall c :: c in t.allowlist ==> Listed(steps, c, t.allowlist[c].identity, t.allowlist[c].secretHash, crypto))
    && (forall c :: c in t.requests ==> Asked(steps, c, t.requests[c], crypto))
    && (forall c :: c in t.challenges ==> exists j :: Bought(steps, c, t.challenges[c], crypto, j))
  }

  // ---------------------------------------------------------------- the past stays

  lemma ListedStays(steps: seq<Step>, s: Step, c: ClientId, identity: Identity, secretHash: Text, crypto: Crypto)
    requires Listed(steps, c, identity, secretHash, crypto)
    ensures Listed(steps + [s], c, identity, secretHash, crypto)
  {
    hide Requested, AddedByHand, ApprovedInTime;
    var all := steps + [s];
    assert forall i :: 0 <= i < |steps| ==> all[i] == steps[i];
    if ListedOnRequest(steps, c, identity, secretHash, crypto) {
      var i, j :| 0 <= i < j < |steps|
        && Requested(steps[i], c, identity, secretHash, crypto) && ApprovedInTime(steps[i], steps[j], c);
      assert Requested(all[i], c, identity, secretHash, crypto) && ApprovedInTime(all[i], all[j], c);
    } else {
      var j :| 0 <= j < |steps| && AddedByHand(steps[j], c, identity, secretHash, crypto);
      assert AddedByHand(all[j], c, identity, secretHash, crypto);
    }
  }

  lemma AskedStays(steps: seq<Step>, s: Step, c: ClientId, q: Pending, crypto: Crypto)
    requires Asked(steps, c, q, crypto)
    ensures Asked(steps + [s], c, q, crypto)
  {
    hide Requested;
    var i :| 0 <= i < |steps|
      && Requested(steps[i], c, q.identity, q.secretHash, crypto) && q.expiresAt == steps[i].now + 900;
    assert (steps + [s])[i] == steps[i];
  }

  lemma BoughtStays(steps: seq<Step>, s: Step, c: ClientId, h: Challenge, crypto: Crypto, j: nat)
    requires Bought(steps, c, h, crypto, j)
    ensures Bought(steps + [s], c, h, crypto, j)
  {
    assert (steps + [s])[..j] == steps[..j] && (steps + [s])[j] == steps[j];
    hide Final, MayRegister;
  }

  lemma PastStays(steps: seq<Step>, s: Step, t: Tables, crypto: Crypto)
    requires Inv(steps, t, crypto)
    ensures Inv(steps + [s], t, crypto)
  {
    hide Listed, Asked, Bought;
    forall c | c in t.allowlist
      ensures Listed(steps + [s], c, t.allowlist[c].identity, t.allowlist[c].secretHash, crypto)
    {
      ListedStays(steps, s, c, t.allowlist[c].identity, t.allowlist[c].secretHash, crypto);
    }
    forall c | c in t.requests ensures Asked(steps + [s], c, t.requests[c], crypto) {
      AskedStays(steps, s, c, t.requests[c], crypto);
    }
    forall c | c in t.challenges ensures exists j :: Bought(steps + [s], c, t.challenges[c], crypto, j) {
      var j :| Bought(steps, c, t.challenges[c], crypto, j);
      BoughtStays(steps, s, c, t.challenges[c], crypto, j);
    }
  }

  // ---------------------------------------------------------------- one more step

  lemma NextRequest(steps: seq<Step>, t: Tables, s: Step, crypto: Crypto)
    requires Inv(steps, t, crypto) && s.op.RequestOp?
    ensures Inv(steps + [s], Apply(t, s, crypto).0, crypto)
  {
    hide Listed, Bought, RequestEnrollment, Hexadecimal;
    PastStays(steps, s, t, crypto);
    RequestIsStoredIff(t, s.op.form, crypto, s.now);
    var (t', r) := RequestEnrollment(t, s.op.form, crypto, s.now);
    if r.Success? {
      assert (steps + [s])[|steps|] == s;
      assert Requested(s, r.value, t'.requests[r.value].identity, t'.requests[r.value].secretHash, crypto);
      assert Asked(steps + [s], r.value, t'.requests[r.value], crypto);
      hide Requested, Asked;
    }
  }

  lemma NextChallenge(steps: seq<Step>, t: Tables, s: Step, crypto: Crypto)
    requires Inv(steps, t, crypto) && s.op.ChallengeOp? && t == Final(steps, crypto).tables
    ensures Inv(steps + [s], Apply(t, s, crypto).0, crypto)
  {
    hide Listed, Asked, IssueChallenge, Final;
    PastStays(steps, s, t, crypto);
    var c := s.op.client;
    ChallengeIsIssuedIff(t, c, s.op.secret, s.op.bytes, crypto, s.now);
    var (t', r) := IssueChallenge(t, c, s.op.secret, s.op.bytes, crypto, s.now);
    if r.Success? { BoughtNow(steps, t, s, crypto); }
    hide Bought, MayRegister;
  }

  lemma BoughtNow(steps: seq<Step>, t: Tables, s: Step, crypto: Crypto)
    requires s.op.ChallengeOp? && t == Final(steps, crypto).tables
    requires MayRegister(t, s.op.client) && t.allowlist[s.op.client].secretHash == crypto.hash(s.op.secret)
    ensures Bought(steps + [s], s.op.client, Challenge(s.op.bytes, s.now + 300), crypto, |steps|)
  {
    assert (steps + [s])[|steps|] == s && (steps + [s])[..|steps|] == steps;
    hide Final, MayRegister;
  }

  lemma NextRegister(steps: seq<Step>, t: Tables, s: Step, crypto: Crypto)
    requires Inv(steps, t, crypto) && s.op.RegisterOp?
    ensures Inv(steps + [s], Apply(t, s, crypto).0, crypto)
  {
    hide Listed, Asked, Bought, Register;
    PastStays(steps, s, t, crypto);
    var f := s.op.register;
    RegisterSucceedsIff(t, f, s.op.token, crypto, s.now);
    if Register(t, f, s.op.token, crypto, s.now).1.Success? { RegisterStores(t, f, s.op.token, crypto, s.now); }
  }

  lemma NextApprove(steps: seq<Step>, t: Tables, s: Step, crypto: Crypto)
    requires Inv(steps, t, crypto) && s.op.ApproveOp?
    ensures Inv(steps + [s], Apply(t, s, crypto).0, crypto)
  {
    hide Bought, Approve, Requested, AddedByHand, ListedOnRequest;
    PastStays(steps, s, t, crypto);
    var c := s.op.client;
    ApproveLists(t, c, s.now, s.op.interrupted);
    if c in t.requests && s.now <= t.requests[c].expiresAt {
      ListedNow(steps, s, c, t.requests[c], crypto);
    }
    hide Listed, Asked;
  }

  lemma ListedNow(steps: seq<Step>, s: Step, c: ClientId, q: Pending, crypto: Crypto)
    requires Asked(steps, c, q, crypto) && s.op.ApproveOp? && s.op.client == c && s.now <= q.expiresAt
    ensures Listed(steps + [s], c, q.identity, q.secretHash, crypto)
  {
    hide Requested;
    var all := steps + [s];
    var i :| 0 <= i < |steps|
      && Requested(steps[i], c, q.identity, q.secretHash, crypto) && q.expiresAt == steps[i].now + 900;
    assert all[i] == steps[i] && all[|steps|] == s;
    assert ApprovedInTime(all[i], all[|steps|], c);
  }

  lemma NextAdd(steps: seq<Step>, t: Tables, s: Step, crypto: Crypto)
    requires Inv(steps, t, crypto) && s.op.AddOp?
    ensures Inv(steps + [s], Apply(t, s, crypto).0, crypto)
  {
    hide Asked, Bought, AddAllowed, Requested;
    PastStays(steps, s, t, crypto);
    AddIff(t, s.op.client, s.op.identity, s.op.fingerprint, s.op.secret, s.op.title, crypto, s.now);
    var (t', r) :=
      AddAllowed(t, s.op.client, s.op.identity, s.op.fingerprint, s.op.secret, s.op.title, crypto, s.now);
    if r.Success? {
      assert (steps + [s])[|steps|] == s;
      var row := t'.allowlist[s.op.client];
      assert Listed(steps + [s], s.op.client, row.identity, row.secretHash, crypto);
      hide Listed;
    }
  }

  lemma NextInv(steps: seq<Step>, t: Tables, s: Step, crypto: Crypto)
    requires Inv(steps, t, crypto) && t == Final(steps, crypto).tables
    ensures Inv(steps + [s], Apply(t, s, crypto).0, crypto)
  {
    hide Listed, Asked, Bought, Final;
    match s.op
    case RequestOp(_) => NextRequest(steps, t, s, crypto);
    case ChallengeOp(_, _, _) => NextChallenge(steps, t, s, crypto);
    case RegisterOp(_, _) => NextRegister(steps, t, s, crypto);
    case ApproveOp(_, _) => NextApprove(steps, t, s, crypto);
    case AddOp(_, _, _, _, _) => NextAdd(steps, t, s, crypto);
    case RejectOp(c) =>
      PastStays(steps, s, t, crypto);
      RejectIff(t, c);
      hide Reject;
    case RevokeOp(c, interrupted) =>
      PastStays(steps, s, t, crypto);
      RevokeIff(t, c, interrupted);
      hide Revoke;
  }

  lemma {:induction false} RunInv(steps: seq<Step>, crypto: Crypto)
    ensures Inv(steps, Final(steps, crypto).tables, crypto)
    decreases |steps|
  {
    hide Inv, Apply;
    if steps == [] {
      assert Inv([], EMPTY.tables, crypto) by { NothingYet(crypto); }
    } else {
      var front, last := steps[..|steps| - 1], steps[|steps| - 1];
      RunInv(front, crypto);
      NextInv(front, Final(front, crypto).tables, last, crypto);
      assert front + [last] == steps;
    }
  }

  lemma NothingYet(crypto: Crypto)
    ensures Inv([], EMPTY.tables, crypto)
  {
  }

  lemma {:induction false} LogIsRun(steps: seq<Step>, crypto: Crypto, i: nat)
    requires i < |steps|
    ensures var w := Final(steps, crypto);
      |w.log| == |steps| && w.log[i] == Apply(Final(steps[..i], crypto).tables, steps[i], crypto).1
    decreases |steps|
  {
    hide Apply;
    var front := steps[..|steps| - 1];
    if i < |steps| - 1 {
      LogIsRun(front, crypto, i);
      assert front[..i] == steps[..i];
    } else if front != [] {
      LogIsRun(front, crypto, 0);
    }
  }

  // ---------------------------------------------------------------- the chain

  /** In every run a registration was signed over its form and the challenge by the identity listed for the client when
      it came in; that identity was added by hand, or listed on a request it had signed at most 900 seconds before; and
      the challenge had been bought at most 300 seconds before by one who knew the secret the client was listed with. */
  lemma TokenHasASignedChain(steps: seq<Step>, crypto: Crypto, i: nat) returns (j: nat)
    requires i < |Final(steps, crypto).log| && Final(steps, crypto).log[i].Enrolled?
    ensures i < |steps| && steps[i].op.RegisterOp?
    ensures var e := Final(steps, crypto).log[i]; var f := steps[i].op.register;
      var t := Final(steps[..i], crypto).tables;
      && f.client == e.client && e.tokenHash == crypto.hash(steps[i].op.token)
      && MayRegister(t, e.client) && f.bundle.Some? && f.signature.Some?
      && crypto.verify(t.allowlist[e.client].identity, RegisterPayload(f, e.challenge, crypto), f.signature.value)
      && Listed(steps[..i], e.client, t.allowlist[e.client].identity, t.allowlist[e.client].secretHash, crypto)
    ensures var e := Final(steps, crypto).log[i];
      && j < i && Bought(steps[..i], e.client, Challenge(e.challenge, steps[j].now + 300), crypto, j)
      && steps[i].now <= steps[j].now + 300
  {
    hide Final, Listed, Asked, Bought, Register, RegisterPayload;
    LogHasRunLength(steps, crypto);
    LogIsRun(steps, crypto, i);
    var t := Final(steps[..i], crypto).tables;
    RunInv(steps[..i], crypto);
    var e := Final(steps, crypto).log[i];
    assert steps[i].op.RegisterOp? by { EnrolledByRegister(t, steps[i], crypto); }
    var f := steps[i].op.register;
    RegisterSucceedsIff(t, f, steps[i].op.token, crypto, steps[i].now);
    j :| Bought(steps[..i], f.client, t.challenges[f.client], crypto, j);
    BoughtAt(steps, i, f.client, t.challenges[f.client], crypto, j);
    hide MayRegister;
  }

  lemma BoughtAt(steps: seq<Step>, i: nat, c: ClientId, h: Challenge, crypto: Crypto, j: nat)
    requires i < |steps| && Bought(steps[..i], c, h, crypto, j)
    ensures j < i && h == Challenge(h.bytes, steps[j].now + 300)
  {
    hide Final, MayRegister;
  }

  lemma EnrolledByRegister(t: Tables, s: Step, crypto: Crypto)
    requires Apply(t, s, crypto).1.Enrolled?
    ensures s.op.RegisterOp?
  {
    hide RequestEnrollment, Register, Approve, AddAllowed, IssueChallenge, Revoke, Reject;
  }

  lemma {:induction false} LogHasRunLength(steps: seq<Step>, crypto: Crypto)
    ensures |Final(steps, crypto).log| == |steps|
    decreases |steps|
  {
    hide Apply;
    if steps != [] { LogHasRunLength(steps[..|steps| - 1], crypto); }
  }

  /** `Final` is the end of the run of the other theorems. */
  lemma {:induction false} RunEndsAtFinal(before: seq<Step>, steps: seq<Step>, crypto: Crypto, w: World)
    requires Run(Final(before, crypto), steps, crypto, w)
    ensures w == Final(before + steps, crypto)
    decreases |steps|
  {
    hide Apply, Enabled;
    if steps == [] {
      assert before + steps == before;
    } else {
      var longer := before + [steps[0]];
      assert longer[..|longer| - 1] == before;
      RunEndsAtFinal(longer, steps[1..], crypto, w);
      assert longer + steps[1..] == before + steps;
    }
  }
}
