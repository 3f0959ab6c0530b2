/** What the histories show, over whole runs: every entry shows the text that was sealed, and a message is shown as read
    exactly when the relay has it as acknowledged and says so. */
module Shown {
  import opened Wrappers
  import opened RelayQueue
  import opened RelayAnswers
  import opened ChatView
  import opened DeliverySteps
  import opened Delivery
  import opened DeliveryRuns
  import opened ChatCalls
  import opened Sending

  // ---------------------------------------------------------------- texts

  /** A received entry shows the contact's name and the sealed text; an own one shows `you` and, if what was sealed is
      text, that text. */
  predicate EntryShows(k: Contact, e: Entry) {
    && (if e.status == Received then e.sender == k.name && e.ciphertext.text.Some? else e.sender == "you")
    && (e.ciphertext.text.Some? ==> e.text == e.ciphertext.text.value)
  }

  predicate HistoryShows(k: Contact, h: History) {
    forall i :: 0 <= i < |h.entries| ==> EntryShows(k, h.entries[i])
  }

  ghost predicate AllShow(w: World) {
    forall k :: k in w.memory ==> HistoryShows(k, w.memory[k])
  }

  lemma SavedShows(k: Contact, saved: History, h: History)
    requires Grows(saved, h) && HistoryShows(k, h)
    ensures HistoryShows(k, saved)
  {
    forall i | 0 <= i < |saved.entries| ensures EntryShows(k, saved.entries[i]) {
      assert Advances(saved.entries[i], h.entries[i]) && EntryShows(k, h.entries[i]);
    }
  }

  lemma PerformShows(v: View, k: Contact, act: Act, minted: map<MessageId, Envelope>)
    requires UniqueIds(v.history.entries) && Grows(v.saved, v.history) && HistoryShows(k, v.history)
    requires Fresh(minted, k, act)
    ensures HistoryShows(k, Perform(v, k, act).history)
  {
    var h, h' := v.history, Perform(v, k, act).history;
    if act == ReloadAct {
      SavedShows(k, v.saved, h);
    } else {
      PerformGrows(v, k, act);
      PerformEntries(v, k, act);
      hide Perform, UniqueIds;
      forall i | 0 <= i < |h'.entries| ensures EntryShows(k, h'.entries[i]) {
        if i < |h.entries| { assert Advances(h.entries[i], h'.entries[i]) && EntryShows(k, h.entries[i]); }
      }
    }
  }

  lemma NextShows(w: World, s: Step)
    requires Inv(w) && AllShow(w) && Enabled(w, s)
    ensures AllShow(Next(w, s))
  {
    hide Perform, LostBy, Send, Purge, Acknowledge, HistoryShows;
    Frame(w, s);
    forall k | k in Next(w, s).memory ensures HistoryShows(k, Next(w, s).memory[k]) {
      assert ContactOk(w, k);
      if s.At? && s.contact == k { PerformShows(Project(w, k), k, s.act, w.minted); }
    }
  }

  lemma {:induction false} RunShows(w: World, steps: seq<Step>, w': World)
    requires Inv(w) && AllShow(w) && Run(w, steps, w')
    ensures Inv(w') && AllShow(w')
    decreases |steps|
  {
    hide Next, Inv, AllShow, Enabled;
    if steps != [] {
      NextInv(w, steps[0]);
      NextShows(w, steps[0]);
      RunShows(Next(w, steps[0]), steps[1..], w');
    }
  }

  lemma ReachableShows(w: World)
    requires Reachable(w)
    ensures Inv(w) && AllShow(w)
  {
    var start, steps :| Initial(start) && Run(start, steps, w);
    InitialInv(start);
    hide Run, Inv;
    RunShows(start, steps, w);
  }

  /** In every run a received entry, in memory or saved, shows the contact's name and the text that was sealed, and an
      own entry shows `you` and the text that was sealed. */
  lemma HistoriesShowTheText(w: World, k: Contact)
    requires Reachable(w) && k in w.memory && k in w.saved
    ensures HistoryShows(k, w.memory[k]) && HistoryShows(k, w.saved[k])
  {
    ReachableShows(w);
    assert ContactOk(w, k);
    SavedShows(k, w.saved[k], w.memory[k]);
  }

  /** A message reads the same at both ends: two entries with one message id show the same text, whoever's they are. */
  lemma BothEndsShowTheSame(w: World, a: Contact, i: nat, b: Contact, j: nat)
    requires Reachable(w) && a in w.memory && b in w.memory
    requires i < |w.memory[a].entries| && j < |w.memory[b].entries|
    requires w.memory[a].entries[i].messageId == w.memory[b].entries[j].messageId
    requires w.memory[a].entries[i].ciphertext.text.Some?
    ensures w.memory[a].entries[i].text == w.memory[b].entries[j].text
  {
    ReachableShows(w);
    assert ContactOk(w, a) && ContactOk(w, b);
    assert EntryOk(w.minted, a.owner, w.memory[a].entries[i]) && EntryOk(w.minted, b.owner, w.memory[b].entries[j]);
    assert EntryShows(a, w.memory[a].entries[i]) && EntryShows(b, w.memory[b].entries[j]);
  }

  // ---------------------------------------------------------------- receipts

  /** The oldest row of the message is acknowledged. */
  ghost predicate Receipted(q: Queue, owner: ClientId, messageId: MessageId) {
    exists id :: Oldest(q, owner, messageId, id) && q.rows[id].acknowledgedAt.Some?
  }

  /** In every run the status loop of a poll turns an entry `read` exactly if it is an own one that is `sent`, the query
      reaches the relay, and the oldest row of the message is acknowledged. */
  lemma StatusLoopMarksIff(w: World, k: Contact, i: nat, f: PollFates)
    requires Reachable(w) && Shape(w) && k in w.memory && i < |w.memory[k].entries|
    ensures var e := w.memory[k].entries[i]; var h := RefreshFrom(Project(w, k), k, 0, [], f).0.history;
      h.entries[i]
      == if e.sender == "you" && e.status == Sent && e.messageId != "" && f.reached(i)
            && Receipted(w.relay, k.owner, e.messageId)
         then e.(status := Read) else e
  {
    ReachableInv(w);
    StatusIff(w.relay, k.owner, w.memory[k].entries[i].messageId);
    RefreshMarksExactly(Project(w, k), k, 0, [], f, i);
    hide RefreshFrom, Status;
  }

  /** In every run a poll whose status query for a sent message reaches the relay shows it as read if its oldest row is
      acknowledged, however much of the rest of the poll fails. */
  lemma AcknowledgedIsShownAsRead(w: World, k: Contact, i: nat, f: PollFates)
    requires Reachable(w) && Shape(w) && k in w.memory && i < |w.memory[k].entries|
    requires w.memory[k].entries[i].status == Sent && w.memory[k].entries[i].messageId != "" && f.reached(i)
    requires Receipted(w.relay, k.owner, w.memory[k].entries[i].messageId)
    ensures var h := Poll(Project(w, k), k, f).0.history;
      i < |h.entries| && h.entries[i] == w.memory[k].entries[i].(status := Read)
  {
    ReachableInv(w);
    assert ContactOk(w, k);
    assert EntryOk(w.minted, k.owner, w.memory[k].entries[i]);
    StatusIff(w.relay, k.owner, w.memory[k].entries[i].messageId);
    hide Poll, Status, Oldest;
    ReportedReceiptIsShown(Project(w, k), k, f, i);
  }
}
