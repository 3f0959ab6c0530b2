/** Why polling empties a mailbox: with nothing failing and nothing new arriving, each round of polls over a
    client's conversations deals with its oldest unread message, whichever conversation that belongs to. */
module Drain {
  import opened Wrappers
  import opened RelayQueue
  import opened ChatView
  import opened DeliverySteps
  import opened Delivery
  import opened DeliveryRuns
  import opened ChatCalls

  /** One client's mailbox and all its conversations, between polls. */
  datatype Mailbox = Mailbox(
    owner: ClientId, relay: Queue, spent: set<Envelope>, memory: map<Contact, History>, saved: map<Contact, History>)

  predicate Unread(q: Queue, owner: ClientId, id: nat) {
    id in q.rows && q.rows[id].recipient == owner && !Acknowledged(q.rows[id])
  }

  ghost function UnreadIds(q: Queue, owner: ClientId): set<nat> {
    set id | id in q.rows && Unread(q, owner, id)
  }

  predicate Quiet(h: History) {
    forall i :: 0 <= i < |h.entries| ==> !InOutbox(h.entries[i])
  }

  ghost predicate ContactReady(q: Queue, k: Contact, h: History) {
    CursorOk(q, k, h.cursor) && Quiet(h)
  }

  ghost predicate Ready(b: Mailbox) {
    && Valid(b.relay)
    && b.saved.Keys == b.memory.Keys
    && (forall k :: k in b.memory ==> k.owner == b.owner && ContactReady(b.relay, k, b.memory[k]))
  }

  /** Every unread message is text. */
  ghost predicate Readable(q: Queue, owner: ClientId) {
    forall id :: Unread(q, owner, id) ==> q.rows[id].ciphertext.text.Some?
  }

  /** No call fails; status replies may still be missing. */
  ghost predicate Faultless(f: PollFates) {
    && f.statusSave == f.receive == f.lastSave == Done
    && forall i :: f.handling(i).opens == f.handling(i).save == f.handling(i).acknowledge == Done
  }

  function PollOne(b: Mailbox, k: Contact, f: PollFates): Mailbox
    requires k in b.memory && k in b.saved
  {
    var v := Poll(View(b.relay, b.spent, b.memory[k], b.saved[k], []), k, f).0;
    b.(relay := v.relay, spent := v.spent, memory := b.memory[k := v.history], saved := b.saved[k := v.saved])
  }

  // ---------------------------------------------------------------- one page

  /** Every message on a page is in the table, addressed to the owner, and text. */
  ghost predicate Present(v: View, k: Contact) {
    forall i :: 0 <= i < |v.page| ==>
      && v.page[i].serverId in v.relay.rows
      && v.relay.rows[v.page[i].serverId].recipient == k.owner
      && v.page[i].ciphertext.text.Some?
  }

  /** Without faults one turn of the page loop settles its message and disturbs nothing else. */
  lemma CleanTake(v: View, k: Contact, now: nat)
    requires v.page != [] && Present(v, k)
    ensures var (v', r) := Take(v, k, Handling(Done, Done, Done, now)); var m := v.page[0];
      && r.Success? && v'.page == v.page[1..]
      && v'.relay.last == v.relay.last && v'.relay.rows.Keys == v.relay.rows.Keys
      && (FromContact(k, m) ==> !Unread(v'.relay, k.owner, m.serverId))
      && (forall id :: id in v.relay.rows ==> v'.relay.rows[id].recipient == v.relay.rows[id].recipient)
      && (forall id :: Unread(v'.relay, k.owner, id) ==>
            Unread(v.relay, k.owner, id) && v'.relay.rows[id] == v.relay.rows[id])
  {
  }

  /** Without faults the page loop settles every message of the contact on its page. */
  lemma {:induction false} CleanTakeFrom(v: View, k: Contact, i: nat, events: seq<Event>, f: PollFates)
    requires Faultless(f) && Present(v, k)
    ensures var (v', r) := TakeFrom(v, k, i, events, f);
      && r.Success? && v'.page == []
      && (forall j :: 0 <= j < |v.page| && FromContact(k, v.page[j]) ==> !Unread(v'.relay, k.owner, v.page[j].serverId))
      && (forall id :: Unread(v'.relay, k.owner, id) ==>
            Unread(v.relay, k.owner, id) && v'.relay.rows[id] == v.relay.rows[id])
    decreases |v.page|
  {
    if v.page != [] {
      CleanTake(v, k, f.handling(i).now);
      var v1 := Take(v, k, f.handling(i)).0;
      assert Present(v1, k) by {
        forall j | 0 <= j < |v1.page|
          ensures v1.page[j].serverId in v1.relay.rows && v1.relay.rows[v1.page[j].serverId].recipient == k.owner
        {
          assert v1.page[j] == v.page[j + 1];
        }
      }
      CleanTakeFrom(v1, k, i + 1, events + Take(v, k, f.handling(i)).1.value, f);
      var v' := TakeFrom(v, k, i, events, f).0;
      forall j | 0 <= j < |v.page| && FromContact(k, v.page[j])
        ensures !Unread(v'.relay, k.owner, v.page[j].serverId)
      {
        if j > 0 { assert v1.page[j - 1] == v.page[j]; }
      }
    }
  }

  // ---------------------------------------------------------------- one poll

  lemma {:induction false} RefreshIsQuiet(v: View, k: Contact, i: nat, events: seq<Event>, f: PollFates)
    requires i <= |v.history.entries| && Quiet(v.history)
    ensures Quiet(RefreshFrom(v, k, i, events, f).0.history)
    ensures RefreshFrom(v, k, i, events, f).0.history.cursor == v.history.cursor
    decreases |v.history.entries| - i
  {
    if i < |v.history.entries| {
      var v' := RefreshEntry(v, k, i, f.reached(i));
      RefreshIsQuiet(v', k, i + 1, if v' != v then events + [ReadEvent(v.history.entries[i].text)] else events, f);
    }
  }

  lemma {:induction false} QuietOutbox(entries: seq<Entry>)
    requires forall i :: 0 <= i < |entries| ==> !InOutbox(entries[i])
    ensures Outbox(entries) == []
    decreases |entries|
  {
    if entries != [] { QuietOutbox(entries[1..]); }
  }

  lemma NothingToRetry(v: View, k: Contact, f: PollFates)
    requires Quiet(v.history)
    ensures RetryFrom(v, k, Outbox(v.history.entries), 0, f) == (v, true)
  {
    QuietOutbox(v.history.entries);
    hide Outbox;
  }

  /** With an empty outbox and no faults, a poll is a page fetched at the cursor and handled to its end. */
  lemma CleanPoll(v: View, k: Contact, f: PollFates)
    requires Faultless(f) && Quiet(v.history)
    ensures var (start, read) := RefreshFrom(v, k, 0, [], f);
      && start.relay == v.relay && start.history.cursor == v.history.cursor && Quiet(start.history)
      && var fetched := Fetch(start.(saved := Prepared(v, k, f).0.saved), k, Done, f.now).0;
        var (v', r) := TakeFrom(fetched, k, 0, read, f);
        r.Success? ==> Poll(v, k, f).0.relay == v'.relay && Poll(v, k, f).0.history == v'.history
  {
    RefreshIsQuiet(v, k, 0, [], f);
    hide RefreshFrom, RetryFrom, TakeFrom, Outbox, Quiet, Receive;
    var (start, read) := RefreshFrom(v, k, 0, [], f);
    var stored := if read != [] then Save(start, Done) else start;
    assert Quiet(stored.history);
    NothingToRetry(stored, k, f);
  }

  lemma FetchedIsPresent(v: View, k: Contact, now: nat)
    requires Valid(v.relay) && Readable(v.relay, k.owner)
    ensures Present(Fetch(v, k, Done, now).0, k)
  {
    PurgeKeeps(v.relay, now);
    var q := Purge(v.relay, now);
    var ids := Page(q, k.owner, v.history.cursor, 1, PAGE_LIMIT);
    forall i | 0 <= i < |ids|
      ensures Render(q, ids[i]).ciphertext.text.Some? && q.rows[ids[i]].recipient == k.owner
    {
      assert Waiting(q, k.owner, v.history.cursor, ids[i]);
      assert Unread(v.relay, k.owner, ids[i]);
    }
  }

  /** The oldest unread message of the mailbox is on the page its own conversation fetches. */
  lemma OldestIsFetched(v: View, k: Contact, now: nat, oldest: nat)
    requires Valid(v.relay) && CursorOk(v.relay, k, v.history.cursor)
    requires Mine(Purge(v.relay, now), k, oldest) && Unread(Purge(v.relay, now), k.owner, oldest)
    requires forall id :: Unread(v.relay, k.owner, id) ==> oldest <= id
    ensures var page := Fetch(v, k, Done, now).0.page;
      exists j :: 0 <= j < |page| && page[j].serverId == oldest && FromContact(k, page[j])
  {
    var q := Purge(v.relay, now);
    PurgeKeeps(v.relay, now);
    CursorStable(v.relay, q, k, v.history.cursor);
    assert Waiting(q, k.owner, v.history.cursor, oldest);
    PageCovers(q, k.owner, v.history.cursor, 1, PAGE_LIMIT, oldest);
    var ids := Page(q, k.owner, v.history.cursor, 1, PAGE_LIMIT);
    if oldest !in ids {
      assert ids[0] in ids && Waiting(q, k.owner, v.history.cursor, ids[0]);
      assert Unread(v.relay, k.owner, ids[0]);
    }
    var j :| 0 <= j < |ids| && ids[j] == oldest;
    assert Fetch(v, k, Done, now).0.page[j] == Render(q, oldest);
  }

  lemma {:induction false} TakeFromKeeps(v: View, k: Contact, i: nat, events: seq<Event>, f: PollFates)
    requires Valid(v.relay) && CursorOk(v.relay, k, v.history.cursor) && PageOk(v.relay, k, v.page) && Quiet(v.history)
    ensures var v' := TakeFrom(v, k, i, events, f).0;
      && Valid(v'.relay) && Evolves(v.relay, v'.relay)
      && CursorOk(v'.relay, k, v'.history.cursor) && Quiet(v'.history)
    decreases |v.page|
  {
    if v.page != [] {
      var act := TakeAct(f.handling(i));
      var v1 := Take(v, k, f.handling(i)).0;
      assert v1 == Perform(v, k, act);
      PerformRelay(v, k, act);
      TakeCursor(v, k, f.handling(i));
      TakeRead(v, k, f.handling(i));
      if Take(v, k, f.handling(i)).1.Success? {
        TakeFromKeeps(v1, k, i + 1, events + Take(v, k, f.handling(i)).1.value, f);
        EvolvesTransitive(v.relay, v1.relay, TakeFrom(v, k, i, events, f).0.relay);
      }
    }
  }

  /** No message becomes unread, and those that stay unread stay as they were. */
  ghost predicate NoneAdded(q: Queue, q': Queue, owner: ClientId) {
    forall id :: Unread(q', owner, id) ==> Unread(q, owner, id) && q'.rows[id] == q.rows[id]
  }

  lemma CleanPage(v: View, k: Contact, events: seq<Event>, f: PollFates)
    requires Valid(v.relay) && CursorOk(v.relay, k, v.history.cursor) && Quiet(v.history)
    requires Readable(v.relay, k.owner) && Faultless(f)
    ensures var (v', r) := TakeFrom(Fetch(v, k, Done, f.now).0, k, 0, events, f);
      && r.Success? && Valid(v'.relay) && Evolves(v.relay, v'.relay)
      && CursorOk(v'.relay, k, v'.history.cursor) && Quiet(v'.history)
      && NoneAdded(v.relay, v'.relay, k.owner)
  {
    var fetched := Fetch(v, k, Done, f.now).0;
    PurgeKeeps(v.relay, f.now);
    FetchPage(v.relay, k, v.history.cursor, f.now);
    CursorStable(v.relay, fetched.relay, k, v.history.cursor);
    FetchedIsPresent(v, k, f.now);
    CleanTakeFrom(fetched, k, 0, events, f);
    TakeFromKeeps(fetched, k, 0, events, f);
    EvolvesTransitive(v.relay, fetched.relay, TakeFrom(fetched, k, 0, events, f).0.relay);
  }

  lemma CleanPageSettlesOldest(v: View, k: Contact, events: seq<Event>, f: PollFates, oldest: nat)
    requires Valid(v.relay) && CursorOk(v.relay, k, v.history.cursor) && Readable(v.relay, k.owner) && Faultless(f)
    requires forall id :: Unread(v.relay, k.owner, id) ==> oldest <= id
    requires Mine(v.relay, k, oldest)
    ensures !Unread(TakeFrom(Fetch(v, k, Done, f.now).0, k, 0, events, f).0.relay, k.owner, oldest)
  {
    var fetched := Fetch(v, k, Done, f.now).0;
    FetchedIsPresent(v, k, f.now);
    CleanTakeFrom(fetched, k, 0, events, f);
    if Unread(fetched.relay, k.owner, oldest) {
      OldestIsFetched(v, k, f.now, oldest);
    }
  }

  /** A poll without faults makes no message unread and leaves its conversation ready. */
  lemma PollKeeps(b: Mailbox, k: Contact, f: PollFates)
    requires Ready(b) && Readable(b.relay, b.owner) && Faultless(f) && k in b.memory
    ensures var q := PollOne(b, k, f).relay;
      && Valid(q) && Evolves(b.relay, q) && NoneAdded(b.relay, q, b.owner)
      && ContactReady(q, k, PollOne(b, k, f).memory[k])
  {
    assert ContactReady(b.relay, k, b.memory[k]);
    var v := View(b.relay, b.spent, b.memory[k], b.saved[k], []);
    CleanPoll(v, k, f);
    var (refreshed, read) := RefreshFrom(v, k, 0, [], f);
    CleanPage(refreshed.(saved := Prepared(v, k, f).0.saved), k, read, f);
  }

  /** A poll without faults settles the oldest unread message of the whole mailbox if that is from its contact. */
  lemma PollSettlesOldest(b: Mailbox, k: Contact, f: PollFates, oldest: nat)
    requires Ready(b) && Readable(b.relay, b.owner) && Faultless(f) && k in b.memory
    requires forall id :: Unread(b.relay, b.owner, id) ==> oldest <= id
    requires Mine(b.relay, k, oldest)
    ensures !Unread(PollOne(b, k, f).relay, b.owner, oldest)
  {
    assert ContactReady(b.relay, k, b.memory[k]);
    var v := View(b.relay, b.spent, b.memory[k], b.saved[k], []);
    var (refreshed, read) := RefreshFrom(v, k, 0, [], f);
    var start := refreshed.(saved := Prepared(v, k, f).0.saved);
    CleanPoll(v, k, f);
    CleanPage(start, k, read, f);
    CleanPageSettlesOldest(start, k, read, f, oldest);
  }

  lemma PollKeepsReady(b: Mailbox, k: Contact, f: PollFates)
    requires Ready(b) && Readable(b.relay, b.owner) && Faultless(f) && k in b.memory
    ensures Ready(PollOne(b, k, f)) && Readable(PollOne(b, k, f).relay, b.owner)
  {
    PollKeeps(b, k, f);
    var b' := PollOne(b, k, f);
    forall k2 | k2 in b'.memory ensures k2.owner == b'.owner && ContactReady(b'.relay, k2, b'.memory[k2]) {
      if k2 != k {
        assert ContactReady(b.relay, k2, b.memory[k2]);
        CursorStable(b.relay, b'.relay, k2, b.memory[k2].cursor);
      }
    }
  }

  // ---------------------------------------------------------------- rounds

  /** One poll: which conversation, and what the surroundings do during it. */
  datatype Turn = Turn(contact: Contact, fates: PollFates)

  ghost predicate Polls(b: Mailbox, turns: seq<Turn>) {
    forall i :: 0 <= i < |turns| ==> turns[i].contact in b.memory && Faultless(turns[i].fates)
  }

  /** One poll of each listed conversation, in order. */
  function Round(b: Mailbox, turns: seq<Turn>): (after: Mailbox)
    requires b.saved.Keys == b.memory.Keys
    requires forall i :: 0 <= i < |turns| ==> turns[i].contact in b.memory
    ensures after.owner == b.owner && after.memory.Keys == after.saved.Keys == b.memory.Keys
    decreases |turns|
  {
    if turns == [] then b else Round(PollOne(b, turns[0].contact, turns[0].fates), turns[1..])
  }

  /** Every unread message comes from the peer of a listed conversation. */
  ghost predicate Covered(b: Mailbox, turns: seq<Turn>) {
    forall id :: Unread(b.relay, b.owner, id) ==>
      exists i :: 0 <= i < |turns| && Mine(b.relay, turns[i].contact, id)
  }

  lemma {:induction false} RoundKeeps(b: Mailbox, turns: seq<Turn>)
    requires Ready(b) && Readable(b.relay, b.owner) && Polls(b, turns)
    ensures var after := Round(b, turns);
      && Ready(after) && Readable(after.relay, b.owner)
      && after.relay.addresses == b.relay.addresses
      && NoneAdded(b.relay, after.relay, b.owner)
    decreases |turns|
  {
    hide PollOne, Faultless, Readable;
    if turns != [] {
      var k, f := turns[0].contact, turns[0].fates;
      assert k in b.memory && Faultless(f);
      PollKeeps(b, k, f);
      PollKeepsReady(b, k, f);
      PollKeepsContacts(b, k, f);
      RoundKeeps(PollOne(b, k, f), turns[1..]);
    }
  }

  lemma RoundKeepsSettled(b: Mailbox, turns: seq<Turn>, id: nat)
    requires Ready(b) && Readable(b.relay, b.owner) && Polls(b, turns) && !Unread(b.relay, b.owner, id)
    ensures !Unread(Round(b, turns).relay, b.owner, id)
  {
    RoundKeeps(b, turns);
    hide Round;
  }

  /** The oldest unread message keeps its place while others' turns pass, unless they settle it. */
  lemma OldestWaits(b: Mailbox, k: Contact, other: Contact, f: PollFates, oldest: nat)
    requires Ready(b) && Readable(b.relay, b.owner) && Faultless(f) && k in b.memory
    requires forall id :: Unread(b.relay, b.owner, id) ==> oldest <= id
    requires Mine(b.relay, other, oldest) && Unread(PollOne(b, k, f).relay, b.owner, oldest)
    ensures Mine(PollOne(b, k, f).relay, other, oldest)
    ensures forall id :: Unread(PollOne(b, k, f).relay, b.owner, id) ==> oldest <= id
  {
    hide PollOne, Readable, Faultless, Ready;
    PollKeeps(b, k, f);
  }

  lemma PollKeepsContacts(b: Mailbox, k: Contact, f: PollFates)
    requires k in b.memory && k in b.saved
    ensures PollOne(b, k, f).owner == b.owner
    ensures PollOne(b, k, f).memory.Keys == b.memory.Keys && PollOne(b, k, f).saved.Keys == b.saved.Keys
  {
    hide Poll;
  }

  lemma {:induction false} RoundSettlesOldest(b: Mailbox, turns: seq<Turn>, oldest: nat, turn: nat)
    requires Ready(b) && Readable(b.relay, b.owner) && Polls(b, turns)
    requires forall id :: Unread(b.relay, b.owner, id) ==> oldest <= id
    requires turn < |turns| && Mine(b.relay, turns[turn].contact, oldest)
    ensures !Unread(Round(b, turns).relay, b.owner, oldest)
    decreases |turns|
  {
    hide PollOne, Readable, Unread, Mine, Faultless;
    var k, f := turns[0].contact, turns[0].fates;
    assert k in b.memory && Faultless(f);
    var b1 := PollOne(b, k, f);
    PollKeepsReady(b, k, f);
    PollKeepsContacts(b, k, f);
    if turn == 0 { PollSettlesOldest(b, k, f, oldest); }
    if Unread(b1.relay, b.owner, oldest) {
      OldestWaits(b, k, turns[turn].contact, f, oldest);
      RoundSettlesOldest(b1, turns[1..], oldest, turn - 1);
    } else {
      RoundKeepsSettled(b1, turns[1..], oldest);
    }
  }

  lemma SmallestExists(ids: set<nat>) returns (least: nat)
    requires ids != {}
    ensures least in ids && forall id :: id in ids ==> least <= id
  {
    var some :| some in ids;
    if ids == {some} {
      least := some;
    } else {
      var rest := SmallestExists(ids - {some});
      least := if rest < some then rest else some;
      assert forall id :: id in ids ==> id == some || id in ids - {some};
    }
  }

  lemma StaysCovered(b: Mailbox, after: Mailbox, turns: seq<Turn>)
    requires Covered(b, turns) && after.owner == b.owner && NoneAdded(b.relay, after.relay, b.owner)
    requires after.relay.addresses == b.relay.addresses
    ensures Covered(after, turns)
  {
    forall id | Unread(after.relay, after.owner, id)
      ensures exists i :: 0 <= i < |turns| && Mine(after.relay, turns[i].contact, id)
    {
      var i :| 0 <= i < |turns| && Mine(b.relay, turns[i].contact, id);
      assert Mine(after.relay, turns[i].contact, id);
    }
  }

  /** What polling needs: conversations between polls, every unread message text. */
  ghost predicate Pollable(b: Mailbox) {
    Ready(b) && Readable(b.relay, b.owner)
  }

  /** A round without faults that polls the conversation of every unread message. */
  ghost predicate Complete(b: Mailbox, turns: seq<Turn>) {
    Polls(b, turns) && Covered(b, turns)
  }

  ghost function Backlog(b: Mailbox): nat {
    |UnreadIds(b.relay, b.owner)|
  }

  lemma ProperSubsetIsSmaller(a: set<nat>, b: set<nat>)
    requires a < b
    ensures |a| < |b|
  {
    assert |b - a| + |a * b| == |b|;
    assert a * b == a;
  }

  /** A round of polls leaves strictly fewer unread messages, in spite of the page limit. */
  lemma RoundMakesProgress(b: Mailbox, turns: seq<Turn>)
    requires Pollable(b) && Complete(b, turns) && Backlog(b) > 0
    ensures Backlog(Round(b, turns)) < Backlog(b)
  {
    hide Round, Readable, ContactReady, Faultless;
    var before := UnreadIds(b.relay, b.owner);
    var oldest := SmallestExists(before);
    assert forall id :: Unread(b.relay, b.owner, id) ==> id in before;
    var turn :| 0 <= turn < |turns| && Mine(b.relay, turns[turn].contact, oldest);
    RoundKeeps(b, turns);
    RoundSettlesOldest(b, turns, oldest, turn);
    assert oldest !in UnreadIds(Round(b, turns).relay, b.owner);
    ProperSubsetIsSmaller(UnreadIds(Round(b, turns).relay, b.owner), before);
  }

  lemma RoundStaysEmpty(b: Mailbox, turns: seq<Turn>)
    requires Pollable(b) && Complete(b, turns) && Backlog(b) == 0
    ensures Backlog(Round(b, turns)) == 0
  {
    hide Round, Readable, ContactReady, Faultless;
    assert UnreadIds(b.relay, b.owner) == {};
    assert forall id :: Unread(b.relay, b.owner, id) ==> id in UnreadIds(b.relay, b.owner);
    RoundKeeps(b, turns);
    assert UnreadIds(Round(b, turns).relay, b.owner) == {};
  }

  ghost predicate AllComplete(b: Mailbox, rounds: seq<seq<Turn>>) {
    forall i :: 0 <= i < |rounds| ==> Complete(b, rounds[i])
  }

  /** A round leaves the mailbox fit for the rounds after it, and its backlog smaller if there was one. */
  lemma OneRound(b: Mailbox, rounds: seq<seq<Turn>>)
    requires Pollable(b) && rounds != [] && AllComplete(b, rounds)
    ensures var after := Round(b, rounds[0]);
      Pollable(after) && AllComplete(after, rounds[1..])
      && (if Backlog(b) > 0 then Backlog(after) < Backlog(b) else Backlog(after) == 0)
  {
    hide Round, Backlog, Covered, Readable, ContactReady, Faultless;
    var turns := rounds[0];
    assert Complete(b, turns);
    RoundKeeps(b, turns);
    if Backlog(b) > 0 { RoundMakesProgress(b, turns); } else { RoundStaysEmpty(b, turns); }
    var after := Round(b, turns);
    forall i | 0 <= i < |rounds| - 1 ensures Complete(after, rounds[1..][i]) {
      assert rounds[1..][i] == rounds[i + 1] && Complete(b, rounds[i + 1]);
      StaysCovered(b, after, rounds[i + 1]);
    }
  }

  /** Rounds of polls, each with its own order, repetitions and surroundings. */
  function Rounds(b: Mailbox, rounds: seq<seq<Turn>>): (after: Mailbox)
    requires b.saved.Keys == b.memory.Keys
    requires forall i, j :: 0 <= i < |rounds| && 0 <= j < |rounds[i]| ==> rounds[i][j].contact in b.memory
    ensures after.owner == b.owner
    decreases |rounds|
  {
    if rounds == [] then b else Rounds(Round(b, rounds[0]), rounds[1..])
  }

  lemma CompletePolls(b: Mailbox, rounds: seq<seq<Turn>>)
    requires AllComplete(b, rounds)
    ensures forall i, j :: 0 <= i < |rounds| && 0 <= j < |rounds[i]| ==> rounds[i][j].contact in b.memory
  {
    forall i, j | 0 <= i < |rounds| && 0 <= j < |rounds[i]| ensures rounds[i][j].contact in b.memory {
      assert Complete(b, rounds[i]);
    }
  }

  /** The mailbox drains: as many rounds as there are unread messages leave none. */
  lemma {:induction false} MailboxDrains(b: Mailbox, rounds: seq<seq<Turn>>)
    requires Pollable(b) && AllComplete(b, rounds) && |rounds| >= Backlog(b)
    requires forall i, j :: 0 <= i < |rounds| && 0 <= j < |rounds[i]| ==> rounds[i][j].contact in b.memory
    ensures Backlog(Rounds(b, rounds)) == 0
    decreases |rounds|
  {
    hide Round, Backlog, Complete, Readable;
    if rounds != [] {
      OneRound(b, rounds);
      var after := Round(b, rounds[0]);
      CompletePolls(after, rounds[1..]);
      MailboxDrains(after, rounds[1..]);
    }
  }

  // ---------------------------------------------------------------- the mailboxes of a run

  ghost function MailboxOf(w: World, c: ClientId): Mailbox
    requires Shape(w) && c in w.spent
  {
    Mailbox(c, w.relay, w.spent[c],
            map k | k in w.memory && k.owner == c :: w.memory[k], map k | k in w.saved && k.owner == c :: w.saved[k])
  }

  /** After any run, however many calls failed in it, a mailbox whose outboxes are empty is ready to be drained. */
  lemma ReachableMailboxIsReady(w: World, c: ClientId)
    requires Reachable(w) && Shape(w) && c in w.spent
    requires forall k: Contact :: k in w.memory && k.owner == c ==> Quiet(w.memory[k])
    ensures Ready(MailboxOf(w, c))
  {
    ReachableInv(w);
    forall k: Contact | k in w.memory && k.owner == c ensures ContactReady(w.relay, k, w.memory[k]) {
      assert ContactOk(w, k);
    }
  }
}
