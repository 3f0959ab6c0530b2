/** The two ways a text is lost, each as a run from the beginning: a poll whose save fails after the message was opened,
    a restart, and a poll in which nothing fails; and a poll whose decryption uses the message up and fails, followed by
    a poll in which nothing fails. */
module LostMail {
  import opened Wrappers
  import opened RelayQueue
  import opened ChatView
  import opened DeliverySteps
  import opened Delivery
  import opened DeliveryRuns
  import opened ChatCalls

  /** A queue whose one row, with id 1, waits for the contact and was sent by its peer. */
  predicate OneWaiting(q: Queue, k: Contact, c: Envelope) {
    && q.last == 1 && q.rows.Keys == {1} && q.rows[1].recipient == k.owner && q.rows[1].ciphertext == c
    && q.rows[1].expiresAt.None? && !Acknowledged(q.rows[1]) && Matches(q, k, q.rows[1].sender)
  }

  /** A poll with a fresh history fetches just that row. */
  lemma OnePage(q: Queue, k: Contact, c: Envelope, now: nat)
    requires OneWaiting(q, k, c)
    ensures var (q', page) := Receive(q, k.owner, 0, now);
      OneWaiting(q', k, c) && |page| == 1 && page[0].serverId == 1 && page[0].ciphertext == c && FromContact(k, page[0])
  {
    var p := Purge(q, now);
    assert 1 in p.rows && p.rows.Keys == {1};
    assert Waiting(p, k.owner, 0, 1);
    assert Page(p, k.owner, 0, 2, 99) == [];
    assert Page(p, k.owner, 0, 1, PAGE_LIMIT) == [1] + Page(p, k.owner, 0, 2, 99);
  }

  /** The conversation as it starts: nothing in memory, nothing saved. */
  predicate Blank(v: View) {
    v.history == EMPTY_HISTORY && v.saved == EMPTY_HISTORY
  }

  /** With a blank history a poll is its page loop. */
  lemma BlankPoll(v: View, k: Contact, c: Envelope, f: PollFates)
    requires Blank(v) && OneWaiting(v.relay, k, c) && f.receive == Done
    ensures var fetched := Fetch(v, k, Done, f.now).0; var r := Take(fetched, k, f.handling(0)).1;
      && OneWaiting(fetched.relay, k, c) && |fetched.page| == 1 && fetched.page[0].serverId == 1
      && fetched.page[0].ciphertext == c && FromContact(k, fetched.page[0])
      && fetched == v.(relay := fetched.relay, page := fetched.page)
      && (r.Failure? ==> Poll(v, k, f).0 == Take(fetched, k, f.handling(0)).0)
      && (r.Success? ==> Poll(v, k, f).0.history == Take(fetched, k, f.handling(0)).0.history)
      && (r.Success? ==> Poll(v, k, f).0.relay == Take(fetched, k, f.handling(0)).0.relay)
  {
    OnePage(v.relay, k, c, f.now);
    hide Receive, OneWaiting, Settle, FromContact;
    assert RefreshFrom(v, k, 0, [], f) == (v, []);
    assert Outbox(v.history.entries) == [] && RetryFrom(v, k, [], 0, f) == (v, true);
    var fetched := Fetch(v, k, Done, f.now).0;
    TakeOne(fetched, k, f);
    hide RefreshFrom, RetryFrom, Outbox, TakeFrom, Take;
  }

  lemma TakeOne(v: View, k: Contact, f: PollFates)
    requires |v.page| == 1
    ensures var (v', r) := Take(v, k, f.handling(0)); var (after, all) := TakeFrom(v, k, 0, [], f);
      && after == v' && (r.Failure? <==> all.Failure?)
  {
    hide Acknowledge, FromContact;
    var (v', r) := Take(v, k, f.handling(0));
    if r.Success? {
      assert v'.page == [];
    }
  }

  /** The first poll opens the message and fails, at the latest when it saves. */
  lemma FirstPoll(v: View, k: Contact, c: Envelope, f: PollFates)
    requires Blank(v) && v.spent == {} && OneWaiting(v.relay, k, c) && c.text.Some?
    requires f.receive == Done
    requires f.handling(0).opens == LostAfter || (f.handling(0).opens == Done && f.handling(0).save == LostBefore)
    ensures var v' := Poll(v, k, f).0;
      && v'.saved == EMPTY_HISTORY && v'.spent == {c} && OneWaiting(v'.relay, k, c)
      && (f.handling(0).opens == LostAfter ==> v'.history == EMPTY_HISTORY)
  {
    BlankPoll(v, k, c, f);
    hide OneWaiting, Fetch, Poll, Settle, FromContact;
  }

  /** The second meets it as stale and acknowledges it. */
  lemma SecondPoll(v: View, k: Contact, c: Envelope, f: PollFates)
    requires Blank(v) && c in v.spent && OneWaiting(v.relay, k, c)
    requires f.receive == f.handling(0).opens == f.handling(0).acknowledge == Done
    ensures var v' := Poll(v, k, f).0;
      && v'.history.entries == []
      && 1 in v'.relay.rows && v'.relay.rows[1].recipient == k.owner && v'.relay.rows[1].ciphertext == c
      && Acknowledged(v'.relay.rows[1])
  {
    BlankPoll(v, k, c, f);
    hide Fetch, Poll, FromContact;
  }

  /** The sender's message is the first row of an empty relay. */
  lemma FirstRow(q: Queue, sender: ClientId, name: string, k: Contact, c: Envelope, now: nat)
    requires q == Empty(q.directory, q.addresses) && name in q.directory && q.directory[name] == k.owner
    requires Matches(q, k, sender)
    ensures OneWaiting(Send(q, sender, name, c.id, c, None, now).0, k, c)
  {
  }

  /** A message is lost: for every system that is just set up, every conversation in it and every text its peer
      sends, there is a run in which the first poll fails to save the opened message, the process restarts and
      polls again without any failure; then the message is acknowledged, and no history of its recipient, in memory
      or saved, holds it. */
  lemma CrashLosesMail(
    w: World, k: Contact, sender: ClientId, name: string, c: Envelope, sent: nat, first: PollFates, second: PollFates)
    returns (steps: seq<Step>, w': World)
    requires Initial(w) && k in w.memory && sender !in w.spent && c.author == sender && c.text.Some?
    requires name in w.relay.directory && w.relay.directory[name] == k.owner && Matches(w.relay, k, sender)
    requires first.receive == first.handling(0).opens == Done && first.handling(0).save == LostBefore
    requires second.receive == second.handling(0).opens == second.handling(0).acknowledge == Done
    ensures Run(w, steps, w')
    ensures 1 in w'.relay.rows && w'.relay.rows[1].recipient == k.owner && w'.relay.rows[1].ciphertext == c
         && Acknowledged(w'.relay.rows[1])
    ensures forall other :: other in w'.memory && other in w'.saved && other.owner == k.owner ==>
      !HasId(w'.memory[other].entries, c.id) && !HasId(w'.saved[other].entries, c.id)
  {
    hide Run, Poll, OneWaiting, Matches, Next, Enabled, Inv, Initial, OthersKept;
    var send := Foreign(sender, name, c.id, c, None, sent);
    var w1 := MailSent(w, k, send);
    InvShape(w1);
    FirstPoll(Project(w1, k), k, c, first);
    var a, w2 := PollRuns(w1, k, first);
    InvShape(w2);
    var w3 := Restarted(w2, k);
    InvShape(w3);
    SecondPoll(Project(w3, k), k, c, second);
    var b;
    b, w' := PollRuns(w3, k, second);
    InvShape(w');
    steps := [send] + (a + ([At(k, ReloadAct)] + b));
    Joined(w, send, w1, a, w2, w3, b, w', k);
    OthersStayBlank(w, w1, w2, w3, w', k);
    SavedIsEmpty(w', k);
  }

  /** A message is lost without a restart: if the first poll's decryption uses the message up and fails, as when the new
      session is not committed, the next poll acknowledges it as stale. */
  lemma FailedDecryptionLosesMail(
    w: World, k: Contact, sender: ClientId, name: string, c: Envelope, sent: nat, first: PollFates, second: PollFates)
    returns (steps: seq<Step>, w': World)
    requires Initial(w) && k in w.memory && sender !in w.spent && c.author == sender && c.text.Some?
    requires name in w.relay.directory && w.relay.directory[name] == k.owner && Matches(w.relay, k, sender)
    requires first.receive == Done && first.handling(0).opens == LostAfter
    requires second.receive == second.handling(0).opens == second.handling(0).acknowledge == Done
    ensures Run(w, steps, w') && NeverReloads(steps)
    ensures 1 in w'.relay.rows && w'.relay.rows[1].recipient == k.owner && w'.relay.rows[1].ciphertext == c
         && Acknowledged(w'.relay.rows[1])
    ensures forall other :: other in w'.memory && other in w'.saved && other.owner == k.owner ==>
      !HasId(w'.memory[other].entries, c.id) && !HasId(w'.saved[other].entries, c.id)
  {
    hide Run, Poll, OneWaiting, Matches, Next, Enabled, Inv, Initial, OthersKept;
    var send := Foreign(sender, name, c.id, c, None, sent);
    var w1 := MailSent(w, k, send);
    InvShape(w1);
    FirstPoll(Project(w1, k), k, c, first);
    var a, w2 := PollRuns(w1, k, first);
    InvShape(w2);
    SecondPoll(Project(w2, k), k, c, second);
    var b;
    b, w' := PollRuns(w2, k, second);
    InvShape(w');
    steps := PolledTwice(w, send, w1, a, w2, b, w');
    OthersStayBlank(w, w1, w1, w2, w', k);
    SavedIsEmpty(w', k);
  }

  predicate NeverReloads(steps: seq<Step>) {
    forall i :: 0 <= i < |steps| ==> !(steps[i].At? && steps[i].act.ReloadAct?)
  }

  lemma PolledTwice(w: World, send: Step, w1: World, a: seq<Step>, w2: World, b: seq<Step>, w': World)
    returns (steps: seq<Step>)
    requires Shape(w) && Enabled(w, send) && w1 == Next(w, send) && Run(w1, a, w2) && Run(w2, b, w')
    requires send.Foreign? && NeverReloads(a) && NeverReloads(b)
    ensures Run(w, steps, w') && NeverReloads(steps)
  {
    hide Next, Enabled, Run, Shape;
    RunAppend(w1, a, w2, b, w');
    RunCons(w, send, w1, a + b, w');
    steps := [send] + (a + b);
  }

  /** The message is on the relay and nothing else has happened. */
  lemma MailSent(w: World, k: Contact, send: Step) returns (w1: World)
    requires Initial(w) && k in w.memory && send.Foreign? && send.sender !in w.spent && send.id == send.ciphertext.id
    requires send.ciphertext.author == send.sender && send.expiresAt.None?
    requires send.name in w.relay.directory && w.relay.directory[send.name] == k.owner
    requires Matches(w.relay, k, send.sender)
    ensures Shape(w) && Enabled(w, send) && w1 == Next(w, send) && Inv(w1) && k in w1.memory
    ensures w1.memory == w.memory && w1.saved == w.saved
    ensures var v := Project(w1, k); Blank(v) && v.spent == {} && OneWaiting(v.relay, k, send.ciphertext)
  {
    InitialInv(w);
    assert Enabled(w, send);
    w1 := Next(w, send);
    NextInv(w, send);
    FirstRow(w.relay, send.sender, send.name, k, send.ciphertext, send.now);
    hide Inv, OneWaiting, Send, Matches;
  }

  /** A restart forgets what was not saved. */
  lemma Restarted(w: World, k: Contact) returns (w': World)
    requires Inv(w) && k in w.memory
    ensures Enabled(w, At(k, ReloadAct)) && w' == Next(w, At(k, ReloadAct)) && Inv(w') && k in w'.memory
    ensures var v := Project(w, k); Project(w', k) == v.(history := v.saved, page := [])
    ensures OthersKept(w, w', k)
  {
    hide Inv, Next, Run, OthersKept, Enabled;
    w' := ActRuns(w, k, ReloadAct);
    InvShape(w);
    InvShape(w');
  }

  lemma InvShape(w: World)
    requires Inv(w)
    ensures Shape(w)
  {
    hide Contacts, RowsOk, Opened, Homes, Accounted, Valid;
  }

  lemma Joined(
    w: World, send: Step, w1: World, a: seq<Step>, w2: World, w3: World, b: seq<Step>, w': World, k: Contact)
    requires Shape(w) && Enabled(w, send) && w1 == Next(w, send) && Run(w1, a, w2)
    requires Shape(w2) && Enabled(w2, At(k, ReloadAct)) && w3 == Next(w2, At(k, ReloadAct)) && Run(w3, b, w')
    ensures Run(w, [send] + (a + ([At(k, ReloadAct)] + b)), w')
  {
    hide Next, Enabled, Run, Shape;
    RunCons(w2, At(k, ReloadAct), w3, b, w');
    RunAppend(w1, a, w2, [At(k, ReloadAct)] + b, w');
    RunCons(w, send, w1, a + ([At(k, ReloadAct)] + b), w');
  }

  lemma {:induction false} RunAppend(w: World, a: seq<Step>, w1: World, b: seq<Step>, w2: World)
    requires Run(w, a, w1) && Run(w1, b, w2)
    ensures Run(w, a + b, w2)
    decreases |a|
  {
    hide Next, Enabled;
    if a == [] {
      assert a + b == b;
    } else {
      RunAppend(Next(w, a[0]), a[1..], w1, b, w2);
      assert (a + b)[1..] == a[1..] + b;
    }
  }

  lemma OthersStayBlank(w: World, w1: World, w2: World, w3: World, w': World, k: Contact)
    requires Initial(w) && w1.memory == w.memory && w1.saved == w.saved
    requires Shape(w1) && Shape(w2) && Shape(w3)
    requires OthersKept(w1, w2, k) && OthersKept(w2, w3, k) && OthersKept(w3, w', k)
    ensures forall other :: other in w'.memory && other in w'.saved && other != k ==>
      w'.memory[other].entries == [] && w'.saved[other].entries == []
  {
  }

  /** What is saved is never ahead of memory. */
  lemma SavedIsEmpty(w: World, k: Contact)
    requires Inv(w) && k in w.memory && w.memory[k].entries == []
    ensures w.saved[k].entries == []
  {
    assert ContactOk(w, k);
  }
}
