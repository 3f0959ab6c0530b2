/** `send_text` and `poll` as runs of the protocol's steps, so that everything proved of all runs holds of them. */
module ChatCalls {
  import opened Wrappers
  import opened RelayQueue
  import opened ChatView
  import opened DeliverySteps
  import opened Delivery
  import opened DeliveryRuns

  function PerformAll(v: View, k: Contact, acts: seq<Act>): View
    decreases |acts|
  {
    if acts == [] then v else PerformAll(Perform(v, k, acts[0]), k, acts[1..])
  }

  lemma {:induction false} PerformAllConcat(v: View, k: Contact, a: seq<Act>, b: seq<Act>)
    ensures PerformAll(v, k, a + b) == PerformAll(PerformAll(v, k, a), k, b)
    decreases |a|
  {
    if a == [] {
      assert a + b == b;
    } else {
      assert (a + b)[1..] == a[1..] + b;
      PerformAllConcat(Perform(v, k, a[0]), k, a[1..], b);
    }
  }

  /** Nothing is composed and nothing is forgotten. */
  predicate Receives(acts: seq<Act>) {
    forall i :: 0 <= i < |acts| ==> !acts[i].ComposeAct? && !acts[i].ReloadAct?
  }

  lemma {:induction false} RefreshActs(v: View, k: Contact, i: nat, events: seq<Event>, f: PollFates)
    returns (acts: seq<Act>)
    requires i <= |v.history.entries|
    ensures Receives(acts) && PerformAll(v, k, acts) == RefreshFrom(v, k, i, events, f).0
    decreases |v.history.entries| - i
  {
    if i == |v.history.entries| {
      acts := [];
    } else {
      var v' := RefreshEntry(v, k, i, f.reached(i));
      var rest := RefreshActs(
        v', k, i + 1, if v' != v then events + [ReadEvent(v.history.entries[i].text)] else events, f);
      acts := [RefreshAct(i, f.reached(i))] + rest;
    }
  }

  lemma {:induction false} TakeActs(v: View, k: Contact, i: nat, events: seq<Event>, f: PollFates)
    returns (acts: seq<Act>)
    ensures Receives(acts) && PerformAll(v, k, acts) == TakeFrom(v, k, i, events, f).0
    decreases |v.page|
  {
    if v.page == [] {
      acts := [];
    } else {
      acts := [TakeAct(f.handling(i))];
      var (v', r) := Take(v, k, f.handling(i));
      assert PerformAll(v, k, acts) == v';
      if r.Success? {
        var rest := TakeActs(v', k, i + 1, events + r.value, f);
        PerformAllConcat(v, k, acts, rest);
        acts := acts + rest;
      }
    }
  }

  /** The outbox entries still to be retried are in the history as they were when the list was drawn up. */
  ghost predicate Pending(entries: seq<Entry>, queued: seq<Entry>, i: nat)
    requires i <= |queued|
  {
    && (forall j :: i <= j < |queued| ==> InOutbox(queued[j]) && queued[j] in entries)
    && UniqueIds(queued)
  }

  lemma StillPending(h: History, queued: seq<Entry>, i: nat, index: nat)
    requires i < |queued| && UniqueIds(h.entries) && Pending(h.entries, queued, i)
    requires index < |h.entries| && h.entries[index] == queued[i]
    ensures Pending(MarkSent(h, queued[i].messageId).entries, queued, i + 1)
    ensures UniqueIds(MarkSent(h, queued[i].messageId).entries)
  {
    MarkSentGrows(h, index);
    var entries := MarkSent(h, queued[i].messageId).entries;
    forall j | i + 1 <= j < |queued| ensures queued[j] in entries {
      var at :| 0 <= at < |h.entries| && h.entries[at] == queued[j];
      assert at != index;
      assert entries[at] == queued[j];
    }
  }

  lemma {:induction false} RetryActs(v: View, k: Contact, queued: seq<Entry>, i: nat, f: PollFates)
    returns (acts: seq<Act>)
    requires i <= |queued| && UniqueIds(v.history.entries) && Pending(v.history.entries, queued, i)
    ensures Receives(acts) && PerformAll(v, k, acts) == RetryFrom(v, k, queued, i, f).0
    decreases |queued| - i
  {
    if i == |queued| {
      acts := [];
    } else {
      var e := queued[i];
      var index :| 0 <= index < |v.history.entries| && v.history.entries[index] == e;
      var (v', ok) := Submit(v, k, e.recipient, e.messageId, e.ciphertext, f.resend(i), f.now);
      acts := [SubmitAct(index, f.resend(i), f.now)];
      assert PerformAll(v, k, acts) == v';
      if ok {
        StillPending(v.history, queued, i, index);
        acts := acts + [SaveAct(f.resendSave(i))];
        assert PerformAll(v', k, [SaveAct(f.resendSave(i))]) == Save(v', f.resendSave(i));
        PerformAllConcat(v, k, [SubmitAct(index, f.resend(i), f.now)], [SaveAct(f.resendSave(i))]);
        v' := Save(v', f.resendSave(i));
      }
      if !ok || f.resendSave(i) == Done {
        var rest := RetryActs(v', k, queued, i + 1, f);
        PerformAllConcat(v, k, acts, rest);
        acts := acts + rest;
      }
    }
  }

  lemma {:induction false} OutboxIsPending(entries: seq<Entry>)
    requires UniqueIds(entries)
    ensures Pending(entries, Outbox(entries), 0)
    decreases |entries|
  {
    if entries != [] {
      OutboxIsPending(entries[1..]);
      var rest := Outbox(entries[1..]);
      forall j | 0 <= j < |rest| ensures rest[j].messageId != entries[0].messageId {
        var at :| 0 <= at < |entries[1..]| && entries[1..][at] == rest[j];
        assert entries[at + 1] == rest[j];
      }
    }
  }

  lemma {:induction false} RefreshKeepsIds(v: View, k: Contact, i: nat, events: seq<Event>, f: PollFates)
    requires i <= |v.history.entries| && UniqueIds(v.history.entries)
    ensures UniqueIds(RefreshFrom(v, k, i, events, f).0.history.entries)
    decreases |v.history.entries| - i
  {
    if i < |v.history.entries| {
      var v' := RefreshEntry(v, k, i, f.reached(i));
      RefreshKeepsIds(v', k, i + 1, if v' != v then events + [ReadEvent(v.history.entries[i].text)] else events, f);
    }
  }

  /** Up to and including the retries. */
  function Prepared(v: View, k: Contact, f: PollFates): (View, bool) {
    var (refreshed, read) := RefreshFrom(v, k, 0, [], f);
    var stored := if read != [] then Save(refreshed, f.statusSave) else refreshed;
    if read != [] && f.statusSave != Done then (stored, false)
    else RetryFrom(stored, k, Outbox(stored.history.entries), 0, f)
  }

  lemma PreparedActs(v: View, k: Contact, f: PollFates) returns (acts: seq<Act>)
    requires UniqueIds(v.history.entries)
    ensures Receives(acts) && PerformAll(v, k, acts) == Prepared(v, k, f).0
  {
    var (refreshed, read) := RefreshFrom(v, k, 0, [], f);
    acts := RefreshActs(v, k, 0, [], f);
    RefreshKeepsIds(v, k, 0, [], f);
    var stored := refreshed;
    if read != [] {
      acts := After(v, k, acts, [SaveAct(f.statusSave)]);
      stored := Save(refreshed, f.statusSave);
      if f.statusSave != Done { return; }
    }
    OutboxIsPending(stored.history.entries);
    var retry := RetryActs(stored, k, Outbox(stored.history.entries), 0, f);
    acts := After(v, k, acts, retry);
  }

  /** A poll, however it ends, is a run of receiving steps. */
  lemma PollActs(v: View, k: Contact, f: PollFates) returns (acts: seq<Act>)
    requires UniqueIds(v.history.entries)
    ensures Receives(acts) && PerformAll(v, k, acts) == Poll(v, k, f).0
  {
    acts := PreparedActs(v, k, f);
    var (retried, ok) := Prepared(v, k, f);
    if !ok { return; }
    acts := After(v, k, acts, [FetchAct(f.receive, f.now)]);
    var (fetched, received) := Fetch(retried, k, f.receive, f.now);
    if !received { return; }
    var read := RefreshFrom(v, k, 0, [], f).1;
    var take := TakeActs(fetched, k, 0, read, f);
    acts := After(v, k, acts, take);
    var (taken, r) := TakeFrom(fetched, k, 0, read, f);
    if r.Success? && (read != [] || taken.history.cursor != fetched.history.cursor) {
      acts := After(v, k, acts, [SaveAct(f.lastSave)]);
    }
  }

  lemma After(v: View, k: Contact, acts: seq<Act>, more: seq<Act>) returns (all: seq<Act>)
    requires Receives(acts) && Receives(more)
    ensures Receives(all) && PerformAll(v, k, all) == PerformAll(PerformAll(v, k, acts), k, more)
    ensures |more| == 1 ==> PerformAll(v, k, all) == Perform(PerformAll(v, k, acts), k, more[0])
  {
    all := acts + more;
    PerformAllConcat(v, k, acts, more);
    if |more| == 1 {
      assert more[1..] == [];
    }
  }

  /** A send, however it ends, is a run of steps that begins with composing the message. */
  lemma SendTextActs(v: View, k: Contact, text: string, id: MessageId, c: Envelope, recipient: string, f: SendFates)
    returns (acts: seq<Act>)
    requires !HasId(v.history.entries, id)
    ensures acts != [] && acts[0] == ComposeAct(text, id, c, recipient) && Receives(acts[1..])
    ensures PerformAll(v, k, acts) == SendText(v, k, text, id, c, recipient, f).0
  {
    var composed := Compose(v, text, id, c, recipient);
    var n := |v.history.entries|;
    var more: seq<Act> := [SaveAct(f.before)];
    var stored := Save(composed, f.before);
    assert PerformAll(composed, k, more) == stored;
    if f.before == Done {
      var submit := SubmitAct(n, f.submit, f.now);
      var (sent, ok) := Submit(stored, k, recipient, id, c, f.submit, f.now);
      assert Perform(stored, k, submit) == sent;
      more := After(composed, k, more, [submit]);
      if ok { more := After(composed, k, more, [SaveAct(f.after)]); }
    }
    acts := [ComposeAct(text, id, c, recipient)] + more;
    assert acts[1..] == more;
  }

  // ---------------------------------------------------------------- calls inside a run of the whole system

  /** No other conversation changes. */
  ghost predicate OthersKept(w: World, w': World, k: Contact) {
    && w'.memory.Keys == w.memory.Keys && w'.saved.Keys == w.saved.Keys
    && forall other :: other in w.memory && other in w.saved && other != k ==>
         w'.memory[other] == w.memory[other] && w'.saved[other] == w.saved[other]
  }

  lemma ActRuns(w: World, k: Contact, act: Act) returns (w': World)
    requires Inv(w) && k in w.memory && Fresh(w.minted, k, act)
    ensures Enabled(w, At(k, act)) && w' == Next(w, At(k, act))
    ensures Inv(w') && k in w'.memory && Project(w', k) == Perform(Project(w, k), k, act)
    ensures OthersKept(w, w', k)
  {
    hide Perform, Mint, Contacts, Opened, Homes, Accounted, RowsOk, Valid, OthersKept;
    w' := Next(w, At(k, act));
    NextInv(w, At(k, act));
    ActKeepsOthers(w, k, act);
  }

  lemma ActKeepsOthers(w: World, k: Contact, act: Act)
    requires Shape(w) && Enabled(w, At(k, act))
    ensures OthersKept(w, Next(w, At(k, act)), k)
  {
    Frame(w, At(k, act));
    hide Perform, LostBy, Mint;
  }

  lemma KeptTransitive(a: World, b: World, c: World, k: Contact)
    requires Shape(a) && OthersKept(a, b, k) && OthersKept(b, c, k)
    ensures OthersKept(a, c, k)
  {
  }

  lemma NoActs(w: World, k: Contact)
    requires Shape(w) && k in w.memory
    ensures Run(w, [], w) && OthersKept(w, w, k) && PerformAll(Project(w, k), k, []) == Project(w, k)
  {
  }

  lemma RunCons(w: World, s: Step, w1: World, rest: seq<Step>, w': World)
    requires Shape(w) && Enabled(w, s) && w1 == Next(w, s) && Run(w1, rest, w')
    ensures Run(w, [s] + rest, w')
  {
    assert ([s] + rest)[1..] == rest;
  }

  /** The steps of one conversation, taken in a row by the whole system. */
  lemma {:induction false} ActsRun(w: World, k: Contact, acts: seq<Act>) returns (steps: seq<Step>, w': World)
    requires Inv(w) && k in w.memory
    requires acts != [] ==> Fresh(w.minted, k, acts[0])
    requires forall i :: 1 <= i < |acts| ==> !acts[i].ComposeAct?
    ensures Run(w, steps, w') && Inv(w') && k in w'.memory
    ensures Project(w', k) == PerformAll(Project(w, k), k, acts) && OthersKept(w, w', k)
    ensures |steps| == |acts| && forall i :: 0 <= i < |steps| ==> steps[i] == At(k, acts[i])
    decreases |acts|
  {
    hide Next, Perform, Contacts, Opened, Homes, Accounted, RowsOk, Valid, OthersKept;
    if acts == [] {
      steps, w' := [], w;
      NoActs(w, k);
    } else {
      var w1 := ActRuns(w, k, acts[0]);
      var rest;
      rest, w' := ActsRun(w1, k, acts[1..]);
      steps := [At(k, acts[0])] + rest;
      RunCons(w, At(k, acts[0]), w1, rest, w');
      KeptTransitive(w, w1, w', k);
      hide Run;
    }
  }

  /** A poll of one conversation, with whatever failures, is a run of the whole system. */
  lemma PollRuns(w: World, k: Contact, f: PollFates) returns (steps: seq<Step>, w': World)
    requires Inv(w) && k in w.memory
    ensures Run(w, steps, w') && Inv(w') && k in w'.memory && Project(w', k) == Poll(Project(w, k), k, f).0
    ensures OthersKept(w, w', k)
    ensures forall i :: 0 <= i < |steps| ==> steps[i].At? && steps[i].contact == k && !steps[i].act.ReloadAct?
  {
    assert ContactOk(w, k);
    var acts := PollActs(Project(w, k), k, f);
    steps, w' := ActsRun(w, k, acts);
  }

  lemma UnusedId(w: World, k: Contact, id: MessageId)
    requires Inv(w) && k in w.memory && id !in w.minted
    ensures Shape(w) && !HasId(w.memory[k].entries, id)
  {
    hide RowsOk, Opened, Homes, Accounted;
    assert ContactOk(w, k);
    if HasId(w.memory[k].entries, id) { HeldIsMinted(w, k, id); }
  }

  /** So is a send under an id nobody has used. */
  lemma SendTextRuns(w: World, k: Contact, text: string, id: MessageId, c: Envelope, recipient: string, f: SendFates)
    returns (steps: seq<Step>, w': World)
    requires Inv(w) && k in w.memory && id !in w.minted && c.id == id && c.author == k.owner
    requires c.text.Some? ==> c.text.value == text
    ensures Run(w, steps, w') && Inv(w') && k in w'.memory
    ensures Project(w', k) == SendText(Project(w, k), k, text, id, c, recipient, f).0 && OthersKept(w, w', k)
    ensures forall i :: 0 <= i < |steps| ==> steps[i].At? && steps[i].contact == k
  {
    hide SendText, PerformAll, RowsOk, Opened, Homes, Accounted, Next, Run, OthersKept;
    UnusedId(w, k, id);
    hide Inv;
    var acts := SendTextActs(Project(w, k), k, text, id, c, recipient, f);
    assert forall i :: 1 <= i < |acts| ==> acts[i] == acts[1..][i - 1];
    steps, w' := ActsRun(w, k, acts);
  }
}
