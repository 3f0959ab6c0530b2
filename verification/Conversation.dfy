/** A message from end to end, as a run from the beginning: one client sends a text, the other polls and shows it, the
    first polls and shows that it was read. */
module Conversation {
  import opened Wrappers
  import opened RelayQueue
  import opened RelayAnswers
  import opened ChatView
  import opened DeliverySteps
  import opened Delivery
  import opened DeliveryRuns
  import opened ChatCalls
  import opened Drain
  import opened PollOutcome
  import opened LostMail

  // ---------------------------------------------------------------- three calls on a blank system

  /** The first message on the relay, from this client to that, unread or acknowledged. */
  ghost predicate OnlyRow(q: Queue, sender: ClientId, recipient: ClientId, c: Envelope, read: bool) {
    && Valid(q) && q.last == 1 && q.rows.Keys == {1} && q.rows[1].ciphertext == c && q.rows[1].expiresAt.None?
    && q.rows[1].sender == sender && q.rows[1].recipient == recipient && q.rows[1].messageId == c.id
    && (q.rows[1].acknowledgedAt.Some? <==> read)
  }

  lemma FirstSend(v: View, k: Contact, text: string, c: Envelope, recipient: string, f: SendFates)
    requires Blank(v) && v.relay == Empty(v.relay.directory, v.relay.addresses) && recipient in v.relay.directory
    requires f.before == f.submit == f.after == Done
    ensures var (v', r) := SendText(v, k, text, c.id, c, recipient, f);
      && r == Success(SentEvent(text))
      && v'.history == v'.saved == History([Entry("you", text, c.id, c, Sent, recipient)], 0)
      && OnlyRow(v'.relay, k.owner, v.relay.directory[recipient], c, false)
      && v'.relay.directory == v.relay.directory && v'.relay.addresses == v.relay.addresses
      && v'.spent == v.spent
  {
    var sent := SendText(v, k, text, c.id, c, recipient, f).0;
    assert v.history.entries + [Entry(SELF, text, c.id, c, Queued, recipient)]
        == [Entry(SELF, text, c.id, c, Queued, recipient)];
  }

  /** Everything succeeds. */
  predicate Clean(f: PollFates) {
    && f.statusSave == f.receive == f.lastSave == Done && f.reached(0)
    && f.handling(0).opens == f.handling(0).save == f.handling(0).acknowledge == Done
  }

  lemma SinglePage(v: View, k: Contact, n: nat, events: seq<Event>, f: PollFates)
    requires |v.page| == 1
    ensures var (v', r) := Take(v, k, f.handling(n));
      TakeFrom(v, k, n, events, f)
      == if r.Failure? then (v', r) else TakeFrom(v', k, n + 1, events + r.value, f)
  {
  }

  lemma FirstPage(v: View, k: Contact, sender: ClientId, c: Envelope, now: nat)
    requires Blank(v) && OnlyRow(v.relay, sender, k.owner, c, false) && Matches(v.relay, k, sender)
    ensures var fetched := Fetch(v, k, Done, now).0;
      && fetched == v.(page := fetched.page) && |fetched.page| == 1 && Theirs(k, fetched.page[0])
      && fetched.page[0].serverId == 1 && fetched.page[0].ciphertext == c
  {
    var p := Purge(v.relay, now);
    assert p.rows == v.relay.rows && p.index == v.relay.index;
    assert Page(p, k.owner, 0, 2, 99) == [];
    assert Waiting(p, k.owner, 0, 1);
    assert Page(p, k.owner, 0, 1, PAGE_LIMIT) == [1] + Page(p, k.owner, 0, 2, 99);
  }

  /** The reader's poll shows the text, saves it and acknowledges the message. */
  lemma FirstReading(v: View, k: Contact, sender: ClientId, c: Envelope, f: PollFates)
    requires Blank(v) && v.spent == {} && OnlyRow(v.relay, sender, k.owner, c, false) && Matches(v.relay, k, sender)
    requires c.text.Some? && Clean(f)
    ensures var (v', r) := Poll(v, k, f);
      && r == Success([ReceivedEvent(k.name, c.text.value)])
      && v'.history == v'.saved == History([Entry(k.name, c.text.value, c.id, c, Received, "")], 1)
      && OnlyRow(v'.relay, sender, k.owner, c, true)
  {
    FirstPage(v, k, sender, c, f.now);
    var fetched := Fetch(v, k, Done, f.now).0;
    var h := f.handling(0);
    var (taken, r) := Take(fetched, k, h);
    TakeSucceedsIff(fetched, k, h);
    TakeShows(fetched, k, h);
    TakeAcknowledges(fetched, k, h);
    SinglePage(fetched, k, 0, [], f);
    assert RefreshFrom(v, k, 0, [], f) == (v, []);
    assert Outbox(v.history.entries) == [] && RetryFrom(v, k, [], 0, f) == (v, true);
    assert r == Success([ReceivedEvent(k.name, c.text.value)]) && [] + r.value == r.value;
    hide Take, Fetch, FromContact, EventsOf, Settles;
    assert taken.page == [] && TakeFrom(taken, k, 1, [] + r.value, f) == (taken, Success([] + r.value));
    hide TakeFrom, RefreshFrom, RetryFrom, Outbox;
    assert Poll(v, k, f).0 == Save(taken, Done);
  }

  lemma TakeAcknowledges(v: View, k: Contact, h: Handling)
    requires v.page != [] && Take(v, k, h).1.Success? && Theirs(k, v.page[0])
    ensures Take(v, k, h).0.relay == Acknowledge(v.relay, k.owner, v.page[0].serverId, h.now).0
  {
  }

  /** The sender's next poll shows that. */
  lemma FirstReceipt(v: View, k: Contact, text: string, c: Envelope, recipient: string, other: ClientId, f: PollFates)
    requires v.history == v.saved == History([Entry("you", text, c.id, c, Sent, recipient)], 0) && c.id != ""
    requires OnlyRow(v.relay, k.owner, other, c, true) && Clean(f)
    ensures var (v', r) := Poll(v, k, f);
      && r == Success([ReadEvent(text)])
      && v'.history == v'.saved == History([Entry("you", text, c.id, c, Read, recipient)], 0)
  {
    assert Oldest(v.relay, k.owner, c.id, 1);
    StatusIff(v.relay, k.owner, c.id);
    var e := v.history.entries[0];
    var start := RefreshEntry(v, k, 0, true);
    assert start.history == History([e.(status := Read)], 0) && start != v;
    SingleEntry(v, k, f);
    var stored := Save(start, Done);
    assert Outbox(stored.history.entries[1..]) == [] && Outbox(stored.history.entries) == [];
    NoMail(stored, k, other, c, f.now);
    hide RefreshFrom, Status, RefreshEntry, Outbox, Receive, OnlyRow;
    assert RetryFrom(stored, k, [], 0, f) == (stored, true);
  }

  lemma SingleEntry(v: View, k: Contact, f: PollFates)
    requires |v.history.entries| == 1 && RefreshEntry(v, k, 0, f.reached(0)) != v
    ensures var start := RefreshEntry(v, k, 0, f.reached(0));
      RefreshFrom(v, k, 0, [], f) == (start, [ReadEvent(v.history.entries[0].text)])
  {
    var start := RefreshEntry(v, k, 0, f.reached(0));
    assert [] + [ReadEvent(v.history.entries[0].text)] == [ReadEvent(v.history.entries[0].text)];
    hide Reported;
    assert RefreshFrom(start, k, 1, [ReadEvent(v.history.entries[0].text)], f)
        == (start, [ReadEvent(v.history.entries[0].text)]);
  }

  lemma NoMail(v: View, k: Contact, other: ClientId, c: Envelope, now: nat)
    requires OnlyRow(v.relay, k.owner, other, c, true)
    ensures Receive(v.relay, k.owner, v.history.cursor, now).1 == []
  {
    var p := Purge(v.relay, now);
    assert Page(p, k.owner, v.history.cursor, 2, PAGE_LIMIT) == [];
    assert Page(p, k.owner, v.history.cursor, 1, PAGE_LIMIT) == [];
  }

  // ---------------------------------------------------------------- the run

  /** Everything of a send succeeds. */
  predicate Sure(f: SendFates) {
    f.before == f.submit == f.after == Done
  }

  lemma StartsBlank(w: World, k: Contact)
    requires Initial(w) && Shape(w) && k in w.memory
    ensures Blank(Project(w, k)) && Project(w, k).spent == {} && w.minted == map[] && Inv(w)
    ensures w.relay == Empty(w.relay.directory, w.relay.addresses)
  {
    InitialInv(w);
  }

  /** What one client's call leaves of another's conversation: all but the relay. */
  lemma OthersView(w: World, w': World, k: Contact, other: Contact)
    requires Shape(w) && Shape(w') && OthersKept(w, w', k) && k != other && other in w.memory
    ensures other in w'.memory
    ensures Project(w', other).history == Project(w, other).history && Project(w', other).saved == Project(w, other).saved
  {
  }

  lemma OthersSpent(w: World, w': World, k: Contact, other: Contact, steps: seq<Step>)
    requires Run(w, steps, w') && Shape(w) && Shape(w') && k.owner != other.owner && other.owner in w.spent
    requires forall i :: 0 <= i < |steps| ==> steps[i].At? && steps[i].contact == k
    ensures other.owner in w'.spent && w'.spent[other.owner] == w.spent[other.owner]
    decreases |steps|
  {
    hide Perform, LostBy, Enabled;
    if steps != [] { OthersSpent(Next(w, steps[0]), w', k, other, steps[1..]); }
  }

  lemma SendOne(w: World, a: Contact, b: Contact, text: string, c: Envelope, recipient: string, f: SendFates)
    returns (steps: seq<Step>, w1: World)
    requires Initial(w) && a in w.memory && b in w.memory && a.owner != b.owner
    requires recipient in w.relay.directory && w.relay.directory[recipient] == b.owner && Matches(w.relay, b, a.owner)
    requires c.author == a.owner && c.text == Some(text) && Sure(f)
    ensures Shape(w) && SendText(Project(w, a), a, text, c.id, c, recipient, f).1 == Success(SentEvent(text))
    ensures Run(w, steps, w1) && Inv(w1) && Shape(w1) && a in w1.memory && b in w1.memory
    ensures Project(w1, a).history == Project(w1, a).saved
         == History([Entry("you", text, c.id, c, Sent, recipient)], 0)
    ensures var v := Project(w1, b);
      Blank(v) && v.spent == {} && OnlyRow(v.relay, a.owner, b.owner, c, false) && Matches(v.relay, b, a.owner)
  {
    hide Run, SendText, OnlyRow, Next, Inv, OthersKept;
    StartsBlank(w, a);
    StartsBlank(w, b);
    FirstSend(Project(w, a), a, text, c, recipient, f);
    steps, w1 := SendTextRuns(w, a, text, c.id, c, recipient, f);
    InvShape(w1);
    OthersView(w, w1, a, b);
    OthersSpent(w, w1, a, b, steps);
  }

  /** In every system that is just set up, a text that one client sends to another is shown and announced by the
      other's next poll, under its contact's name, and the sender's next poll shows and announces that it was read; all
      of it is saved. */
  lemma MessageArrives(
    w: World, a: Contact, b: Contact, text: string, c: Envelope, recipient: string, send: SendFates,
    reading: PollFates, receipt: PollFates)
    returns (steps: seq<Step>, w1: World, w2: World, w3: World)
    requires Initial(w) && a in w.memory && b in w.memory && a.owner != b.owner
    requires recipient in w.relay.directory && w.relay.directory[recipient] == b.owner && Matches(w.relay, b, a.owner)
    requires c.author == a.owner && c.text == Some(text) && c.id != "" && Sure(send) && Clean(reading) && Clean(receipt)
    ensures Run(w, steps, w3) && Shape(w) && Shape(w1) && Shape(w2) && a in w2.memory && b in w1.memory
    ensures SendText(Project(w, a), a, text, c.id, c, recipient, send).1 == Success(SentEvent(text))
    ensures Poll(Project(w1, b), b, reading).1 == Success([ReceivedEvent(b.name, text)])
    ensures Poll(Project(w2, a), a, receipt).1 == Success([ReadEvent(text)])
    ensures a in w3.memory && a in w3.saved && b in w3.memory && b in w3.saved
    ensures w3.memory[a] == w3.saved[a] == History([Entry("you", text, c.id, c, Read, recipient)], 0)
    ensures w3.memory[b] == w3.saved[b] == History([Entry(b.name, text, c.id, c, Received, "")], 1)
  {
    hide Run, SendText, Poll, OnlyRow, Next, Inv, OthersKept, Initial, Clean, Matches;
    var first, second, third;
    first, w1 := SendOne(w, a, b, text, c, recipient, send);
    FirstReading(Project(w1, b), b, a.owner, c, reading);
    second, w2 := PollRuns(w1, b, reading);
    InvShape(w2);
    OthersView(w1, w2, b, a);
    FirstReceipt(Project(w2, a), a, text, c, recipient, b.owner, receipt);
    third, w3 := PollRuns(w2, a, receipt);
    InvShape(w3);
    OthersView(w2, w3, a, b);
    RunAppend(w1, second, w2, third, w3);
    RunAppend(w, first, w1, second + third, w3);
    steps := first + (second + third);
  }
}
