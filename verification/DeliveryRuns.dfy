/** What holds after every run of the delivery protocol. */
module DeliveryRuns {
  import opened Wrappers
  import opened RelayQueue
  import opened ChatView
  import opened DeliverySteps
  import opened Delivery

  ghost predicate Run(w: World, steps: seq<Step>, w': World)
    decreases |steps|
  {
    if steps == [] then
      w' == w
    else
      Shape(w) && Enabled(w, steps[0]) && Run(Next(w, steps[0]), steps[1..], w')
  }

  /** Registered devices, conversations without history, no mail. */
  ghost predicate Initial(w: World) {
    && Shape(w)
    && w.relay == Empty(w.relay.directory, w.relay.addresses)
    && (forall c :: c in w.spent ==> w.spent[c] == {})
    && (forall k :: k in w.memory ==> w.memory[k] == w.saved[k] == EMPTY_HISTORY && w.pages[k] == [])
    && w.minted == map[] && w.lost == {}
  }

  lemma InitialInv(w: World)
    requires Initial(w)
    ensures Inv(w)
  {
    forall k | k in w.memory ensures ContactOk(w, k) {
      assert w.memory[k] == EMPTY_HISTORY;
    }
  }

  lemma {:induction false} RunKeepsInv(w: World, steps: seq<Step>, w': World)
    requires Inv(w) && Run(w, steps, w')
    ensures Inv(w')
    decreases |steps|
  {
    if steps != [] {
      NextInv(w, steps[0]);
      RunKeepsInv(Next(w, steps[0]), steps[1..], w');
    }
  }

  ghost predicate Reachable(w: World) {
    exists start, steps :: Initial(start) && Run(start, steps, w)
  }

  lemma ReachableInv(w: World)
    requires Reachable(w)
    ensures Inv(w)
  {
    var start, steps :| Initial(start) && Run(start, steps, w);
    InitialInv(start);
    RunKeepsInv(start, steps, w);
  }

  // ---------------------------------------------------------------- the cursor

  /** However polls interleave, fail half way or restart from an older saved copy, mail from a conversation's peer
      at or below its cursor, in memory or on disk, has been acknowledged: the cursor never skips mail. */
  lemma CursorNeverSkipsMail(w: World, k: Contact, id: nat)
    requires Reachable(w) && k in w.memory && Mine(w.relay, k, id) && !Acknowledged(w.relay.rows[id])
    ensures k in w.saved && w.memory[k].cursor < id && w.saved[k].cursor < id
  {
    ReachableInv(w);
    assert ContactOk(w, k);
  }

  // ---------------------------------------------------------------- at most once

  /** A history never holds two entries with one id. */
  lemma HistoriesHaveNoDuplicates(w: World, k: Contact)
    requires Reachable(w) && k in w.memory
    ensures k in w.saved && UniqueIds(w.memory[k].entries) && UniqueIds(w.saved[k].entries)
  {
    ReachableInv(w);
    assert ContactOk(w, k);
    EntriesShrink(w.minted, k.owner, w.saved[k], w.memory[k]);
  }

  /** The relay never holds two rows for one (sender, recipient, id), and every row and history entry of one
      message id of a chat client carries the same envelope: retries resubmit the original bytes. */
  lemma RelayStoresOnce(w: World, a: nat, b: nat)
    requires Reachable(w) && a in w.relay.rows && b in w.relay.rows
    ensures KeyOf(w.relay.rows[a]) == KeyOf(w.relay.rows[b]) ==> a == b
    ensures
      var x, y := w.relay.rows[a], w.relay.rows[b];
      x.sender in w.spent && y.sender == x.sender && y.messageId == x.messageId ==> x.ciphertext == y.ciphertext
  {
    ReachableInv(w);
    assert RowOk(w.minted, w.spent.Keys, w.relay.rows[a]) && RowOk(w.minted, w.spent.Keys, w.relay.rows[b]);
  }

  lemma OutboxMatchesRow(w: World, k: Contact, i: nat, row: nat)
    requires Reachable(w) && k in w.memory && i < |w.memory[k].entries| && w.memory[k].entries[i].status != Received
    requires SentAs(w.relay, k.owner, w.memory[k].entries[i].messageId, row)
    ensures w.relay.rows[row].ciphertext == w.memory[k].entries[i].ciphertext
  {
    ReachableInv(w);
    assert ContactOk(w, k);
    assert EntryOk(w.minted, k.owner, w.memory[k].entries[i]);
    assert RowOk(w.minted, w.spent.Keys, w.relay.rows[row]);
  }

  /** Along any run server ids only rise and are never reused, a row keeps its sender, recipient, id and first
      ciphertext, an acknowledgement stands, and no saved history loses an entry, moves a delivery status back or
      lowers its cursor. */
  lemma {:induction false} RunsOnlyAdvance(w: World, steps: seq<Step>, w': World)
    requires Inv(w) && Run(w, steps, w')
    ensures Evolves(w.relay, w'.relay)
    ensures forall k :: k in w.saved ==> k in w'.saved && Grows(w.saved[k], w'.saved[k])
    decreases |steps|
  {
    if steps != [] {
      var mid := Next(w, steps[0]);
      NextInv(w, steps[0]);
      NextRelay(w, steps[0]);
      RunsOnlyAdvance(mid, steps[1..], w');
      EvolvesTransitive(w.relay, mid.relay, w'.relay);
      forall k | k in w.saved ensures k in w'.saved && Grows(w.saved[k], w'.saved[k]) {
        SavedAdvances(w, steps[0], k);
        GrowsTransitive(w.saved[k], mid.saved[k], w'.saved[k]);
      }
    }
  }

  lemma SavedAdvances(w: World, s: Step, k: Contact)
    requires Shape(w) && Contacts(w) && Enabled(w, s) && k in w.saved
    ensures k in Next(w, s).saved && Grows(w.saved[k], Next(w, s).saved[k])
  {
    if s.At? && s.contact == k {
      assert ContactOk(w, k);
      PerformGrows(Project(w, k), k, s.act);
    }
  }

  // ---------------------------------------------------------------- read means delivered

  /** An entry marked `read` has an acknowledged row. */
  lemma ReadMeansAcknowledged(w: World, k: Contact, i: nat)
    requires Reachable(w) && k in w.memory && i < |w.memory[k].entries| && w.memory[k].entries[i].status == Read
    ensures Receipt(w.relay, k.owner, w.memory[k].entries[i].messageId)
  {
    ReachableInv(w);
    assert ContactOk(w, k);
  }

  /** In every run an acknowledged message from another client is in a history of its recipient exactly when it is
      not among the messages that were lost; a message is lost only by a reload that forgets an unsaved entry, by
      a payload that is not text, or by a decryption that uses it up and fails. */
  lemma AcknowledgedIsShownOrLost(w: World, id: nat)
    requires Reachable(w) && id in w.relay.rows && Acknowledged(w.relay.rows[id])
    requires w.relay.rows[id].recipient in w.spent && w.relay.rows[id].sender != w.relay.rows[id].recipient
    ensures
      var row := w.relay.rows[id];
      Shown(w, row.recipient, row.ciphertext.id) <==> (row.recipient, row.ciphertext) !in w.lost
  {
    ReachableInv(w);
    var row := w.relay.rows[id];
    assert RowOk(w.minted, w.spent.Keys, row);
    assert AckedSpent(w.relay, row.recipient, w.spent[row.recipient]);
  }

  /** Nothing fails from the opening of a message until it is saved, and every payload is text. */
  predicate Careful(s: Step) {
    match s
    case At(_, TakeAct(h)) => h.opens != LostAfter && h.save != LostBefore
    case At(_, ComposeAct(_, _, c, _)) => c.text.Some?
    case Foreign(_, _, _, c, _, _) => c.text.Some?
    case _ => true
  }

  predicate AllCareful(steps: seq<Step>) {
    forall i :: 0 <= i < |steps| ==> Careful(steps[i])
  }

  /** Mail from another client is saved as soon as it is in memory. */
  ghost predicate Secured(k: Contact, h: History, saved: History) {
    forall i :: 0 <= i < |h.entries| && h.entries[i].ciphertext.author != k.owner
      ==> HasId(saved.entries, h.entries[i].messageId)
  }

  ghost predicate CarefulInv(w: World) {
    && Shape(w)
    && w.lost == {}
    && (forall id :: id in w.minted ==> w.minted[id].text.Some?)
    && (forall k :: k in w.memory ==> Secured(k, w.memory[k], w.saved[k]))
  }

  lemma PerformSecured(v: View, k: Contact, act: Act)
    requires UniqueIds(v.history.entries) && Grows(v.saved, v.history) && Secured(k, v.history, v.saved)
    requires act.TakeAct? ==> act.handling.save != LostBefore
    requires act.ComposeAct? ==> act.ciphertext.author == k.owner
    ensures Secured(k, Perform(v, k, act).history, Perform(v, k, act).saved)
  {
    var v' := Perform(v, k, act);
    PerformGrows(v, k, act);
    if act != ReloadAct {
      PerformEntries(v, k, act);
      var n := |v.history.entries|;
      forall i | 0 <= i < |v'.history.entries| && v'.history.entries[i].ciphertext.author != k.owner
        ensures HasId(v'.saved.entries, v'.history.entries[i].messageId)
      {
        if i < n {
          assert Advances(v.history.entries[i], v'.history.entries[i]);
          GrowsKeepsIds(v.saved, v'.saved, v.history.entries[i].messageId);
        } else {
          assert v'.saved.entries == v'.history.entries;
        }
      }
    }
  }

  lemma NothingLost(v: View, k: Contact, act: Act, minted: map<MessageId, Envelope>)
    requires Secured(k, v.history, v.saved) && PageMinted(minted, v.page)
    requires forall id :: id in minted ==> minted[id].text.Some?
    requires act.TakeAct? ==> act.handling.opens != LostAfter
    ensures LostBy(v, k, act) == {}
  {
    if act.TakeAct? && v.page != [] {
      assert Minted(minted, v.page[0].ciphertext);
    }
  }

  lemma CarefulLosesNothing(w: World, s: Step)
    requires Shape(w) && Contacts(w) && CarefulInv(w) && Enabled(w, s) && Careful(s)
    ensures Next(w, s).lost == {}
  {
    hide Perform, LostBy, Send, Purge, Acknowledge, Fresh;
    if s.At? {
      assert ContactOk(w, s.contact);
      NothingLost(Project(w, s.contact), s.contact, s.act, w.minted);
    }
  }

  lemma CarefulMintsText(w: World, s: Step)
    requires Shape(w) && CarefulInv(w) && Enabled(w, s) && Careful(s)
    ensures forall id :: id in Next(w, s).minted ==> Next(w, s).minted[id].text.Some?
  {
    hide Perform, LostBy, Send, Purge, Acknowledge;
  }

  lemma CarefulSecures(w: World, s: Step, k: Contact)
    requires Shape(w) && Contacts(w) && CarefulInv(w) && Enabled(w, s) && Careful(s) && k in w.memory
    ensures k in Next(w, s).memory && k in Next(w, s).saved && Secured(k, Next(w, s).memory[k], Next(w, s).saved[k])
  {
    hide Perform, LostBy, Send, Purge, Acknowledge, Secured;
    if s.At? && s.contact == k {
      assert ContactOk(w, k);
      PerformSecured(Project(w, k), k, s.act);
    }
  }

  lemma NextCareful(w: World, s: Step)
    requires Inv(w) && CarefulInv(w) && Enabled(w, s) && Careful(s)
    ensures CarefulInv(Next(w, s))
  {
    Frame(w, s);
    CarefulLosesNothing(w, s);
    CarefulMintsText(w, s);
    forall k | k in Next(w, s).memory ensures Secured(k, Next(w, s).memory[k], Next(w, s).saved[k]) {
      CarefulSecures(w, s, k);
    }
    hide Next, Secured, Careful;
  }

  lemma {:induction false} RunCareful(w: World, steps: seq<Step>, w': World)
    requires Inv(w) && CarefulInv(w) && Run(w, steps, w') && AllCareful(steps)
    ensures Inv(w') && CarefulInv(w')
    decreases |steps|
  {
    if steps != [] {
      assert Careful(steps[0]);
      NextInv(w, steps[0]);
      NextCareful(w, steps[0]);
      assert AllCareful(steps[1..]) by {
        forall i | 0 <= i < |steps| - 1 ensures Careful(steps[1..][i]) { assert Careful(steps[i + 1]); }
      }
      RunCareful(Next(w, steps[0]), steps[1..], w');
    }
  }

  ghost predicate SavedBy(w: World, c: ClientId, id: MessageId) {
    exists k: Contact :: k.owner == c && k in w.saved && HasId(w.saved[k].entries, id)
  }

  // ---------------------------------------------------------------- what has been sent is saved

  /** The step submits no entry that is in memory only, because its save failed. */
  predicate SavedSubmission(w: World, s: Step) {
    s.At? && s.act.SubmitAct? && s.contact in w.memory && s.contact in w.saved
      && s.act.index < |w.memory[s.contact].entries| && InOutbox(w.memory[s.contact].entries[s.act.index])
    ==> HasId(w.saved[s.contact].entries, w.memory[s.contact].entries[s.act.index].messageId)
  }

  ghost predicate SubmitsSaved(w: World, steps: seq<Step>)
    decreases |steps|
  {
    steps == []
    || (Shape(w) && Enabled(w, steps[0]) && SavedSubmission(w, steps[0]) && SubmitsSaved(Next(w, steps[0]), steps[1..]))
  }

  /** Every row of a client of the chat service is in a saved history of its sender. */
  ghost predicate SentSaved(w: World) {
    forall id :: id in w.relay.rows && w.relay.rows[id].sender in w.spent ==>
      SavedBy(w, w.relay.rows[id].sender, w.relay.rows[id].messageId)
  }

  /** A new row is a submission of an entry. */
  lemma SubmitAddsRow(v: View, k: Contact, act: Act, id: nat)
    requires Valid(v.relay) && id in Perform(v, k, act).relay.rows && id !in v.relay.rows
    ensures act.SubmitAct? && act.index < |v.history.entries| && InOutbox(v.history.entries[act.index])
    ensures var row := Perform(v, k, act).relay.rows[id];
      row.sender == k.owner && row.messageId == v.history.entries[act.index].messageId
  {
    hide Valid, Page, MarkSent;
    match act
    case SubmitAct(i, fate, now) =>
      if i < |v.history.entries| && InOutbox(v.history.entries[i]) {
        var e := v.history.entries[i];
        SendKeeps(v.relay, k.owner, e.recipient, e.messageId, e.ciphertext, None, now);
        hide Send;
      }
    case TakeAct(h) =>
      if v.page != [] {
        TakeShape(v, k, h);
        AcknowledgeKeeps(v.relay, k.owner, v.page[0].serverId, h.now);
        hide Take;
      }
    case _ =>
  }

  lemma SavedByStays(w: World, s: Step, c: ClientId, id: MessageId)
    requires Shape(w) && Contacts(w) && Enabled(w, s) && SavedBy(w, c, id)
    ensures SavedBy(Next(w, s), c, id)
  {
    hide Perform, LostBy, Send, Purge, Acknowledge;
    Frame(w, s);
    var k: Contact :| k.owner == c && k in w.saved && HasId(w.saved[k].entries, id);
    assert ContactOk(w, k) && k in Next(w, s).saved;
    if s.At? && s.contact == k {
      PerformGrows(Project(w, k), k, s.act);
      GrowsKeepsIds(w.saved[k], Next(w, s).saved[k], id);
    }
  }

  lemma AddedRowIsSaved(w: World, s: Step, id: nat)
    requires Shape(w) && Valid(w.relay) && Contacts(w) && Enabled(w, s) && SavedSubmission(w, s)
    requires id in Next(w, s).relay.rows && id !in w.relay.rows && Next(w, s).relay.rows[id].sender in w.spent
    ensures SavedBy(w, Next(w, s).relay.rows[id].sender, Next(w, s).relay.rows[id].messageId)
  {
    hide Perform, LostBy, Valid, Page, Contacts, HasId;
    match s
    case At(k, act) => SubmitAddsRow(Project(w, k), k, act, id);
    case Foreign(sender, name, m, c, expiresAt, now) =>
      SendKeeps(w.relay, sender, name, m, c, expiresAt, now);
      hide Send;
    case _ =>
  }

  lemma NextSentSaved(w: World, s: Step)
    requires Inv(w) && Enabled(w, s) && SavedSubmission(w, s) && SentSaved(w)
    ensures SentSaved(Next(w, s))
  {
    NextRelay(w, s);
    var w' := Next(w, s);
    hide Next, Valid, SavedBy, Contacts, Homes, Opened, RowsOk, Accounted, SavedSubmission;
    forall id | id in w'.relay.rows && w'.relay.rows[id].sender in w'.spent
      ensures SavedBy(w', w'.relay.rows[id].sender, w'.relay.rows[id].messageId)
    {
      if id !in w.relay.rows { AddedRowIsSaved(w, s, id); } else { RowFieldsStay(w, w', id); }
      SavedByStays(w, s, w'.relay.rows[id].sender, w'.relay.rows[id].messageId);
    }
  }

  lemma RowFieldsStay(w: World, w': World, id: nat)
    requires Valid(w.relay) && Evolves(w.relay, w'.relay) && id in w.relay.rows && id in w'.relay.rows
    ensures w'.relay.rows[id].sender == w.relay.rows[id].sender
    ensures w'.relay.rows[id].messageId == w.relay.rows[id].messageId
  {
  }

  lemma {:induction false} RunSentSaved(w: World, steps: seq<Step>, w': World)
    requires Inv(w) && SentSaved(w) && Run(w, steps, w') && SubmitsSaved(w, steps)
    ensures SentSaved(w')
    decreases |steps|
  {
    hide Inv, Next, Enabled, SavedSubmission, SentSaved;
    if steps != [] {
      NextInv(w, steps[0]);
      NextSentSaved(w, steps[0]);
      RunSentSaved(Next(w, steps[0]), steps[1..], w');
    }
  }

  /** In a run that submits no unsaved entry, every row of a client of the chat service is in a saved history of its
      sender. */
  lemma SentIsSaved(start: World, steps: seq<Step>, w: World, id: nat)
    requires Initial(start) && Run(start, steps, w) && SubmitsSaved(start, steps)
    requires id in w.relay.rows && w.relay.rows[id].sender in w.spent
    ensures SavedBy(w, w.relay.rows[id].sender, w.relay.rows[id].messageId)
  {
    InitialInv(start);
    assert SentSaved(start);
    hide Inv, Run, SubmitsSaved;
    RunSentSaved(start, steps, w);
  }

  /** In a run in which nothing fails from decryption until save, however often sends and acknowledgements are
      lost or repeated, acknowledged mail is in its recipient's saved history. For mail a client sends to itself, which
      is in the history before it is received, that takes a run that submits no unsaved entry. */
  lemma AcknowledgedIsSaved(start: World, steps: seq<Step>, w: World, id: nat)
    requires Initial(start) && Run(start, steps, w) && AllCareful(steps)
    requires id in w.relay.rows && Acknowledged(w.relay.rows[id])
    requires w.relay.rows[id].recipient in w.spent
    requires w.relay.rows[id].sender == w.relay.rows[id].recipient ==> SubmitsSaved(start, steps)
    ensures SavedBy(w, w.relay.rows[id].recipient, w.relay.rows[id].ciphertext.id)
  {
    if w.relay.rows[id].sender == w.relay.rows[id].recipient {
      SentIsSaved(start, steps, w, id);
      OwnRow(w, id);
    } else {
      MailFromOthersIsSaved(start, steps, w, id);
    }
  }

  lemma OwnRow(w: World, id: nat)
    requires Reachable(w) && id in w.relay.rows && w.relay.rows[id].sender in w.spent
    ensures w.relay.rows[id].messageId == w.relay.rows[id].ciphertext.id
  {
    ReachableInv(w);
    assert RowOk(w.minted, w.spent.Keys, w.relay.rows[id]);
  }

  lemma MailFromOthersIsSaved(start: World, steps: seq<Step>, w: World, id: nat)
    requires Initial(start) && Run(start, steps, w) && AllCareful(steps)
    requires id in w.relay.rows && Acknowledged(w.relay.rows[id])
    requires w.relay.rows[id].recipient in w.spent && w.relay.rows[id].sender != w.relay.rows[id].recipient
    ensures SavedBy(w, w.relay.rows[id].recipient, w.relay.rows[id].ciphertext.id)
  {
    InitialInv(start);
    RunCareful(start, steps, w);
    var row := w.relay.rows[id];
    AcknowledgedIsShownOrLost(w, id);
    var k: Contact :| k.owner == row.recipient && Holds(w, k, row.ciphertext.id);
    assert ContactOk(w, k) && RowOk(w.minted, w.spent.Keys, row);
    var i :| 0 <= i < |w.memory[k].entries| && w.memory[k].entries[i].messageId == row.ciphertext.id;
    assert EntryOk(w.minted, k.owner, w.memory[k].entries[i]);
    assert Secured(k, w.memory[k], w.saved[k]);
  }

  /** An acknowledged row whose message its recipient, when that is a client of the chat service, has saved. */
  ghost predicate Delivered(w: World, id: nat)
    requires id in w.relay.rows
  {
    var row := w.relay.rows[id];
    && Acknowledged(row)
    && (row.recipient in w.spent ==> SavedBy(w, row.recipient, row.messageId))
  }

  /** Read means delivered: an entry its sender shows as `read` belongs to a row whose recipient, if it is a client
      of the chat service, has the message in a saved history; for mail to oneself, if no unsaved entry is submitted. */
  lemma ReadMeansDelivered(start: World, steps: seq<Step>, w: World, k: Contact, i: nat)
    requires Initial(start) && Run(start, steps, w) && AllCareful(steps)
    requires k in w.memory && i < |w.memory[k].entries| && w.memory[k].entries[i].status == Read
    requires SentAsTo(w.relay, k.owner, w.memory[k].entries[i].messageId, k.owner) ==> SubmitsSaved(start, steps)
    ensures exists id :: SentAs(w.relay, k.owner, w.memory[k].entries[i].messageId, id) && Delivered(w, id)
  {
    ReadMeansAcknowledged(w, k, i);
    var id :| SentAs(w.relay, k.owner, w.memory[k].entries[i].messageId, id) && Acknowledged(w.relay.rows[id]);
    ReachableInv(w);
    assert RowOk(w.minted, w.spent.Keys, w.relay.rows[id]);
    if w.relay.rows[id].recipient in w.spent {
      hide Run, SubmitsSaved, Initial, SavedBy, AllCareful;
      AcknowledgedIsSaved(start, steps, w, id);
    }
  }

  /** A client has sent a message under this id to the recipient. */
  ghost predicate SentAsTo(q: Queue, sender: ClientId, messageId: MessageId, recipient: ClientId) {
    exists id :: SentAs(q, sender, messageId, id) && q.rows[id].recipient == recipient
  }
}
