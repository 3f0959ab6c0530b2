/** When polling gets nowhere. The relay answers with as many as 100 rows and fails as a whole if they do not fit one
    body; a poll passes over mail from others and stops at the first message of its contact that does not open. */
module Stall {
  import opened Wrappers
  import opened RelayQueue
  import opened ChatView
  import opened DeliverySteps
  import opened ChatCalls
  import opened Drain

  /** Which pages the relay can encode, and which envelopes can be opened at all. */
  datatype Limits = Limits(fits: seq<Message> -> bool, opens: Envelope -> bool)

  /** The page a conversation asks for. */
  function PageAt(b: Mailbox, k: Contact, now: nat): seq<Message>
    requires k in b.memory
  {
    Receive(b.relay, b.owner, b.memory[k].cursor, now).1
  }

  /** The first message from the contact. */
  predicate First(k: Contact, page: seq<Message>, j: int) {
    0 <= j < |page| && FromContact(k, page[j]) && forall i :: 0 <= i < j ==> !FromContact(k, page[i])
  }

  /** The page fits, and the first message from the contact on it can be opened. */
  ghost predicate Movable(k: Contact, page: seq<Message>, limits: Limits) {
    limits.fits(page) && exists j :: First(k, page, j) && limits.opens(page[j].ciphertext)
  }

  /** At no clock reading from `since` on does any conversation get anywhere. */
  ghost predicate Stalled(b: Mailbox, limits: Limits, since: nat) {
    forall k, now :: k in b.memory && now >= since ==> !Movable(k, PageAt(b, k, now), limits)
  }

  /** Anything may fail; a page that does not fit is not received, and an envelope that cannot be opened is not. */
  ghost predicate Obeys(page: seq<Message>, f: PollFates, limits: Limits) {
    && (f.receive == Done ==> limits.fits(page))
    && (forall i :: 0 <= i < |page| && !limits.opens(page[i].ciphertext) ==> f.handling(i).opens == LostBefore)
  }

  /** Such polls, one after the other. */
  ghost predicate Obeying(b: Mailbox, turns: seq<Turn>, limits: Limits, since: nat)
    decreases |turns|
  {
    turns == []
    || (var k, f := turns[0].contact, turns[0].fates;
        && k in b.memory && k in b.saved && f.now >= since
        && Obeys(PageAt(b, k, f.now), f, limits)
        && Obeying(PollOne(b, k, f), turns[1..], limits, since))
  }

  function Polled(b: Mailbox, turns: seq<Turn>): Mailbox
    decreases |turns|
  {
    if turns == [] then b
    else if turns[0].contact in b.memory && turns[0].contact in b.saved then
      Polled(PollOne(b, turns[0].contact, turns[0].fates), turns[1..])
    else Polled(b, turns[1..])
  }

  /** Between polls, with nothing left to send. */
  predicate Idle(b: Mailbox) {
    && b.saved.Keys == b.memory.Keys
    && forall k :: k in b.memory ==> k.owner == b.owner && Quiet(b.memory[k])
  }

  lemma ReadyIsIdle(b: Mailbox)
    requires Ready(b)
    ensures Idle(b)
  {
    forall k | k in b.memory ensures k.owner == b.owner && Quiet(b.memory[k]) {
      assert ContactReady(b.relay, k, b.memory[k]);
    }
  }

  // ---------------------------------------------------------------- the page loop

  /** A loop that meets nothing it can open passes over the page, or stops, and changes nothing. */
  lemma {:induction false} Halts(v: View, k: Contact, n: nat, events: seq<Event>, f: PollFates, limits: Limits)
    requires forall j :: First(k, v.page, j) ==> !limits.opens(v.page[j].ciphertext)
    requires forall i :: 0 <= i < |v.page| && !limits.opens(v.page[i].ciphertext) ==>
      f.handling(n + i).opens == LostBefore
    ensures TakeFrom(v, k, n, events, f).0 == v.(page := [])
    decreases |v.page|
  {
    if v.page != [] {
      var m := v.page[0];
      if FromContact(k, m) {
        assert First(k, v.page, 0);
        assert f.handling(n + 0).opens == LostBefore;
      } else {
        var v1 := Take(v, k, f.handling(n)).0;
        assert v1 == v.(page := v.page[1..]);
        forall j | First(k, v1.page, j) ensures !limits.opens(v1.page[j].ciphertext) {
          FirstAfter(k, v.page, j);
        }
        forall i | 0 <= i < |v1.page| && !limits.opens(v1.page[i].ciphertext)
          ensures f.handling(n + 1 + i).opens == LostBefore
        {
          assert v1.page[i] == v.page[i + 1];
          assert f.handling(n + (i + 1)).opens == LostBefore;
        }
        hide FromContact, First;
        Halts(v1, k, n + 1, events + Take(v, k, f.handling(n)).1.value, f, limits);
      }
    }
  }

  lemma FirstAfter(k: Contact, page: seq<Message>, j: int)
    requires page != [] && !FromContact(k, page[0])
    ensures First(k, page[1..], j) <==> j >= 0 && First(k, page, j + 1)
  {
    if First(k, page[1..], j) {
      forall i | 0 <= i < j + 1 ensures !FromContact(k, page[i]) {
        if i > 0 { assert page[1..][i - 1] == page[i]; }
      }
    } else if j >= 0 && First(k, page, j + 1) {
      assert forall i :: 0 <= i < j ==> page[1..][i] == page[i + 1];
    }
  }

  /** Acknowledgements are all that happens. */
  ghost predicate OnlyAcks(q: Queue, q': Queue) {
    && q'.rows.Keys == q.rows.Keys
    && q'.last == q.last && q'.index == q.index && q'.directory == q.directory && q'.addresses == q.addresses
    && (forall id :: id in q.rows ==>
          && q'.rows[id].(acknowledgedAt := q.rows[id].acknowledgedAt) == q.rows[id]
          && (Acknowledged(q.rows[id]) ==> Acknowledged(q'.rows[id])))
  }

  lemma TakeOnlyAcks(v: View, k: Contact, h: Handling)
    requires v.page != []
    ensures var v' := Take(v, k, h).0;
      && OnlyAcks(v.relay, v'.relay) && v.spent <= v'.spent
      && (Quiet(v.history) ==> Quiet(v'.history))
  {
    TakeShape(v, k, h);
    TakeRead(v, k, h);
    hide Take;
  }

  lemma {:induction false} LoopOnlyAcks(v: View, k: Contact, n: nat, events: seq<Event>, f: PollFates)
    ensures var v' := TakeFrom(v, k, n, events, f).0;
      && OnlyAcks(v.relay, v'.relay) && v.spent <= v'.spent
      && (Quiet(v.history) ==> Quiet(v'.history))
    decreases |v.page|
  {
    hide Quiet, Take;
    if v.page != [] {
      TakeOnlyAcks(v, k, f.handling(n));
      var (v1, r) := Take(v, k, f.handling(n));
      if r.Success? {
        ShrinkingPage(v, k, f.handling(n));
        LoopOnlyAcks(v1, k, n + 1, events + r.value, f);
      }
    }
  }

  lemma ShrinkingPage(v: View, k: Contact, h: Handling)
    requires v.page != [] && Take(v, k, h).1.Success?
    ensures Take(v, k, h).0.page == v.page[1..]
  {
  }

  /** The row is settled. */
  predicate Settled(q: Queue, id: nat) {
    id in q.rows && Acknowledged(q.rows[id])
  }

  /** A loop in which the first message from the contact opens, and nothing fails while that is handled, acknowledges
      it; if its payload is not text, that takes a second visit. */
  lemma {:induction false} Moves(v: View, k: Contact, n: nat, events: seq<Event>, f: PollFates, j: nat)
    requires First(k, v.page, j) && v.page[j].serverId in v.relay.rows
    requires v.relay.rows[v.page[j].serverId].recipient == k.owner
    requires f.handling(n + j).opens == f.handling(n + j).save == f.handling(n + j).acknowledge == Done
    ensures var v' := TakeFrom(v, k, n, events, f).0; var c := v.page[j].ciphertext;
      || Settled(v'.relay, v.page[j].serverId)
      || (c !in v.spent && c in v'.spent && v'.relay == v.relay && v'.history == v.history)
    decreases |v.page|
  {
    if j == 0 {
      var h := f.handling(n + 0);
      var (v1, r) := Take(v, k, h);
      TakeFirst(v, k, h);
      hide Take;
      if r.Success? { LoopOnlyAcks(v1, k, n + 1, events + r.value, f); }
    } else {
      assert !FromContact(k, v.page[0]);
      var v1 := Take(v, k, f.handling(n)).0;
      FirstAfter(k, v.page, j - 1);
      hide FromContact, First;
      assert n + 1 + (j - 1) == n + j;
      Moves(v1, k, n + 1, events + Take(v, k, f.handling(n)).1.value, f, j - 1);
    }
  }

  lemma TakeFirst(v: View, k: Contact, h: Handling)
    requires v.page != [] && FromContact(k, v.page[0]) && v.page[0].serverId in v.relay.rows
    requires v.relay.rows[v.page[0].serverId].recipient == k.owner
    requires h.opens == h.save == h.acknowledge == Done
    ensures var (v', r) := Take(v, k, h); var c := v.page[0].ciphertext;
      if r.Success? then Settled(v'.relay, v.page[0].serverId)
      else c !in v.spent && c in v'.spent && v'.relay == v.relay && v'.history == v.history
  {
  }

  // ---------------------------------------------------------------- one poll

  /** What a poll has done when it comes to fetch its page, if it gets there. */
  function Started(v: View, k: Contact, f: PollFates): View {
    var (start, read) := RefreshFrom(v, k, 0, [], f);
    if read != [] then Save(start, f.statusSave) else start
  }

  /** The status of entries and the saved copy play no part here. */
  predicate Alike(v: View, w: View) {
    v.relay == w.relay && v.spent == w.spent && v.history.cursor == w.history.cursor
  }

  lemma PollIsPage(v: View, k: Contact, f: PollFates)
    requires Quiet(v.history)
    ensures Alike(Started(v, k, f), v) && Quiet(Started(v, k, f).history)
    ensures var read := RefreshFrom(v, k, 0, [], f).1; var p := Poll(v, k, f).0;
      var fetched := Fetch(Started(v, k, f), k, f.receive, f.now).0; var v' := TakeFrom(fetched, k, 0, read, f).0;
      if read != [] && f.statusSave != Done then p == Started(v, k, f)
      else if f.receive != Done then p == fetched
      else p.relay == v'.relay && p.spent == v'.spent && p.history == v'.history
  {
    RefreshIsQuiet(v, k, 0, [], f);
    hide RefreshFrom, RetryFrom, TakeFrom, Outbox, Fetch, Quiet;
    NothingToRetry(Started(v, k, f), k, f);
  }

  lemma FetchShape(v: View, k: Contact, fate: Fate, now: nat)
    ensures var fetched := Fetch(v, k, fate, now).0;
      && (fetched.relay == v.relay || fetched.relay == Purge(v.relay, now))
      && fetched.spent == v.spent && fetched.history == v.history
      && (fate == Done ==> fetched.relay == Purge(v.relay, now))
      && (fate == Done ==> fetched.page == Receive(v.relay, k.owner, v.history.cursor, now).1)
  {
  }

  /** A poll that cannot get anywhere does nothing but purge what has expired. */
  lemma IdlePoll(v: View, k: Contact, f: PollFates, limits: Limits)
    requires Quiet(v.history)
    requires var page := Receive(v.relay, k.owner, v.history.cursor, f.now).1;
      Obeys(page, f, limits) && !Movable(k, page, limits)
    ensures var v' := Poll(v, k, f).0;
      && (v'.relay == v.relay || v'.relay == Purge(v.relay, f.now))
      && v'.spent == v.spent && v'.history.cursor == v.history.cursor && Quiet(v'.history)
  {
    hide Poll, Fetch, TakeFrom, RefreshFrom, Started, First, Quiet, Receive;
    PollIsPage(v, k, f);
    var s := Started(v, k, f);
    FetchShape(s, k, f.receive, f.now);
    if f.receive == Done {
      var fetched := Fetch(s, k, f.receive, f.now).0;
      assert forall i :: 0 <= i < |fetched.page| ==> f.handling(0 + i) == f.handling(i);
      Halts(fetched, k, 0, RefreshFrom(v, k, 0, [], f).1, f, limits);
    }
  }

  lemma PurgeTwice(q: Queue, first: nat, second: nat)
    ensures Purge(Purge(q, first), second) == Purge(q, if first < second then second else first)
  {
    var p, r := Purge(Purge(q, first), second), Purge(q, if first < second then second else first);
    assert p.rows == r.rows;
    assert p.index == r.index;
  }

  /** Nothing is opened or acknowledged; what has expired may be gone. */
  ghost predicate Unmoved(b: Mailbox, b': Mailbox) {
    && b'.owner == b.owner && b'.spent == b.spent && b'.memory.Keys == b.memory.Keys
    && (forall k :: k in b.memory ==> b'.memory[k].cursor == b.memory[k].cursor)
    && (forall id :: id in b'.relay.rows ==> id in b.relay.rows && b'.relay.rows[id] == b.relay.rows[id])
    && (forall id :: id in b.relay.rows && b.relay.rows[id].expiresAt.None? ==> id in b'.relay.rows)
  }

  /** One poll of a conversation that cannot get anywhere. */
  lemma IdleTurn(b: Mailbox, k: Contact, f: PollFates, limits: Limits)
    requires Idle(b) && k in b.memory && Obeys(PageAt(b, k, f.now), f, limits)
    requires !Movable(k, PageAt(b, k, f.now), limits)
    ensures var b' := PollOne(b, k, f);
      Idle(b') && Unmoved(b, b') && (b'.relay == b.relay || b'.relay == Purge(b.relay, f.now))
  {
    hide Poll, Quiet, Receive, Movable, Obeys;
    IdlePoll(View(b.relay, b.spent, b.memory[k], b.saved[k], []), k, f, limits);
  }

  lemma StalledStays(b: Mailbox, k: Contact, f: PollFates, limits: Limits, since: nat)
    requires Idle(b) && Stalled(b, limits, since) && k in b.memory && f.now >= since
    requires Obeys(PageAt(b, k, f.now), f, limits)
    ensures var b' := PollOne(b, k, f); Idle(b') && Unmoved(b, b') && Stalled(b', limits, since)
  {
    IdleTurn(b, k, f, limits);
    hide Idle, PollOne, Obeys, Movable, Purge, Receive, PageAt;
    var b' := PollOne(b, k, f);
    forall k2, now | k2 in b'.memory && now >= since ensures !Movable(k2, PageAt(b', k2, now), limits) {
      var later := LaterPage(b, b', f.now, k2, now);
    }
  }

  /** A page after a purge is a page before it, at the later of the two clock readings. */
  lemma LaterPage(b: Mailbox, b': Mailbox, purged: nat, k: Contact, now: nat) returns (later: nat)
    requires k in b.memory && k in b'.memory && b'.owner == b.owner && b'.memory[k].cursor == b.memory[k].cursor
    requires b'.relay == b.relay || b'.relay == Purge(b.relay, purged)
    ensures later >= now && PageAt(b', k, now) == PageAt(b, k, later)
  {
    PurgeTwice(b.relay, purged, now);
    later := if b'.relay != b.relay && purged > now then purged else now;
    hide Purge, Page;
  }

  lemma UnmovedTransitive(a: Mailbox, b: Mailbox, c: Mailbox)
    requires Unmoved(a, b) && Unmoved(b, c)
    ensures Unmoved(a, c)
  {
  }

  /** A stalled mailbox stays as it is through all polls, whatever fails in them. */
  lemma {:induction false} StalledForever(b: Mailbox, turns: seq<Turn>, limits: Limits, since: nat)
    requires Idle(b) && Stalled(b, limits, since) && Obeying(b, turns, limits, since)
    ensures Unmoved(b, Polled(b, turns)) && Idle(Polled(b, turns)) && Stalled(Polled(b, turns), limits, since)
    decreases |turns|
  {
    hide PollOne, Idle, Stalled, Obeys;
    if turns != [] {
      var k, f := turns[0].contact, turns[0].fates;
      StalledStays(b, k, f, limits, since);
      StalledForever(PollOne(b, k, f), turns[1..], limits, since);
      UnmovedTransitive(b, PollOne(b, k, f), Polled(b, turns));
    }
  }

  // ---------------------------------------------------------------- and only then

  /** A page lists rows of the mailbox that wait. */
  lemma PageWaits(q: Queue, owner: ClientId, cursor: int, now: nat, j: nat)
    requires j < |Receive(q, owner, cursor, now).1|
    ensures var p := Purge(q, now); var m := Receive(q, owner, cursor, now).1[j];
      Waiting(p, owner, cursor, m.serverId) && m == Render(p, m.serverId)
  {
    var ids := Page(Purge(q, now), owner, cursor, 1, PAGE_LIMIT);
    assert Waiting(Purge(q, now), owner, cursor, ids[j]);
  }

  /** A poll that can get somewhere and in which nothing fails that need not. */
  lemma MovingView(v: View, k: Contact, f: PollFates, j: nat)
    requires Quiet(v.history) && f.receive == f.statusSave == Done
    requires First(k, Receive(v.relay, k.owner, v.history.cursor, f.now).1, j)
    requires f.handling(j).opens == f.handling(j).save == f.handling(j).acknowledge == Done
    ensures var v' := Poll(v, k, f).0; var m := Receive(v.relay, k.owner, v.history.cursor, f.now).1[j];
      && Quiet(v'.history) && OnlyAcks(Purge(v.relay, f.now), v'.relay) && v.spent <= v'.spent
      && (|| Settled(v'.relay, m.serverId)
          || (&& m.ciphertext !in v.spent && m.ciphertext in v'.spent && v'.relay == Purge(v.relay, f.now)
              && v'.history.cursor == v.history.cursor))
  {
    PageWaits(v.relay, k.owner, v.history.cursor, f.now, j);
    hide Poll, Fetch, TakeFrom, RefreshFrom, Started, First, Quiet, Receive, Purge;
    PollIsPage(v, k, f);
    var s := Started(v, k, f);
    FetchShape(s, k, Done, f.now);
    var fetched := Fetch(s, k, Done, f.now).0;
    var read := RefreshFrom(v, k, 0, [], f).1;
    assert f.handling(0 + j) == f.handling(j);
    Moves(fetched, k, 0, read, f, j);
    LoopOnlyAcks(fetched, k, 0, read, f);
    hide OnlyAcks;
  }

  lemma MovingPoll(b: Mailbox, k: Contact, f: PollFates, j: nat)
    requires Idle(b) && k in b.memory && f.receive == f.statusSave == Done
    requires First(k, PageAt(b, k, f.now), j)
    requires f.handling(j).opens == f.handling(j).save == f.handling(j).acknowledge == Done
    ensures var b' := PollOne(b, k, f); var m := PageAt(b, k, f.now)[j];
      && Idle(b') && OnlyAcks(Purge(b.relay, f.now), b'.relay) && b.spent <= b'.spent
      && b'.owner == b.owner && b'.memory.Keys == b.memory.Keys
      && (|| Settled(b'.relay, m.serverId)
          || (&& m.ciphertext !in b.spent && m.ciphertext in b'.spent && b'.relay == Purge(b.relay, f.now)
              && b'.memory[k].cursor == b.memory[k].cursor))
  {
    MovingView(View(b.relay, b.spent, b.memory[k], b.saved[k], []), k, f, j);
    hide Poll, First, Quiet, Receive, Purge, OnlyAcks, Settled;
  }

  /** Nothing fails that need not. */
  function Smooth(page: seq<Message>, limits: Limits, now: nat): PollFates {
    PollFates(
      i => true, Done, i => Done, i => Done, Done,
      (i: nat) => Handling(if i < |page| && !limits.opens(page[i].ciphertext) then LostBefore else Done, Done, Done, now),
      Done, now)
  }

  /** No message is acknowledged. */
  ghost predicate NoneAcknowledged(q: Queue, q': Queue) {
    forall id :: Settled(q', id) ==> Settled(q, id)
  }

  /** Two polls at most acknowledge a message if a conversation can get anywhere. */
  lemma MovingTurns(b: Mailbox, k: Contact, limits: Limits, since: nat, now: nat) returns (turns: seq<Turn>)
    requires Idle(b) && k in b.memory && now >= since && Movable(k, PageAt(b, k, now), limits)
    ensures Obeying(b, turns, limits, since) && !NoneAcknowledged(b.relay, Polled(b, turns).relay)
  {
    var page := PageAt(b, k, now);
    var j :| First(k, page, j) && limits.opens(page[j].ciphertext);
    var f := Smooth(page, limits, now);
    var turn := Turn(k, f);
    assert Obeys(page, f, limits);
    WaitingIsUndone(b, k, now, j);
    MovingPoll(b, k, f, j);
    var b1 := PollOne(b, k, f);
    hide PollOne, PageAt, First, Purge, Movable, Obeys, OnlyAcks;
    OneTurn(b, turn, limits, since);
    turns := [turn];
    if !Settled(b1.relay, page[j].serverId) {
      assert PageAt(b1, k, now) == page by { SamePageTwice(b, b1, k, now); }
      MovingPoll(b1, k, f, j);
      TwoTurns(b, turn, limits, since);
      turns := [turn, turn];
    }
  }

  lemma WaitingIsUndone(b: Mailbox, k: Contact, now: nat, j: nat)
    requires k in b.memory && j < |PageAt(b, k, now)|
    ensures !Settled(b.relay, PageAt(b, k, now)[j].serverId)
  {
    PageWaits(b.relay, b.owner, b.memory[k].cursor, now, j);
    hide Receive;
  }

  lemma SamePageTwice(b: Mailbox, b1: Mailbox, k: Contact, now: nat)
    requires k in b.memory && k in b1.memory && b1.owner == b.owner && b1.memory[k].cursor == b.memory[k].cursor
    requires b1.relay == Purge(b.relay, now)
    ensures PageAt(b1, k, now) == PageAt(b, k, now)
  {
    PurgeTwice(b.relay, now, now);
    hide Purge, Page;
  }

  lemma OneTurn(b: Mailbox, turn: Turn, limits: Limits, since: nat)
    requires turn.contact in b.memory && turn.contact in b.saved && turn.fates.now >= since
    requires Obeys(PageAt(b, turn.contact, turn.fates.now), turn.fates, limits)
    ensures Obeying(b, [turn], limits, since) && Polled(b, [turn]) == PollOne(b, turn.contact, turn.fates)
  {
    hide PollOne, Obeys, PageAt;
    assert [turn][1..] == [];
    assert Obeying(PollOne(b, turn.contact, turn.fates), [], limits, since);
    assert Polled(PollOne(b, turn.contact, turn.fates), []) == PollOne(b, turn.contact, turn.fates);
  }

  lemma TwoTurns(b: Mailbox, turn: Turn, limits: Limits, since: nat)
    requires turn.contact in b.memory && turn.contact in b.saved && turn.fates.now >= since
    requires Obeys(PageAt(b, turn.contact, turn.fates.now), turn.fates, limits)
    requires var b1 := PollOne(b, turn.contact, turn.fates);
      turn.contact in b1.memory && turn.contact in b1.saved
      && Obeys(PageAt(b1, turn.contact, turn.fates.now), turn.fates, limits)
    ensures Obeying(b, [turn, turn], limits, since)
    ensures Polled(b, [turn, turn]) == PollOne(PollOne(b, turn.contact, turn.fates), turn.contact, turn.fates)
  {
    hide PollOne, Obeys, PageAt;
    OneTurn(PollOne(b, turn.contact, turn.fates), turn, limits, since);
    assert [turn, turn][1..] == [turn];
  }

  /** No sequence of polls from `since` on acknowledges any message exactly if at no clock reading any conversation can
      fetch a page that fits and on which the first message from its contact can be opened. */
  lemma StalledIff(b: Mailbox, limits: Limits, since: nat)
    requires Idle(b)
    ensures Stalled(b, limits, since)
       <==> forall turns :: Obeying(b, turns, limits, since) ==> NoneAcknowledged(b.relay, Polled(b, turns).relay)
  {
    hide PageAt, Movable, Idle, Obeying, Polled;
    if Stalled(b, limits, since) {
      forall turns | Obeying(b, turns, limits, since) ensures NoneAcknowledged(b.relay, Polled(b, turns).relay) {
        StalledForever(b, turns, limits, since);
      }
    } else {
      var k, now :| k in b.memory && now >= since && Movable(k, PageAt(b, k, now), limits);
      var turns := MovingTurns(b, k, limits, since, now);
    }
  }

  // ---------------------------------------------------------------- why a conversation is stuck

  /** The oldest message from the contact that waits for its conversation. */
  ghost predicate Next(q: Queue, k: Contact, cursor: int, id: nat) {
    && Mine(q, k, id) && Waiting(q, k.owner, cursor, id)
    && forall other :: Mine(q, k, other) && Waiting(q, k.owner, cursor, other) ==> id <= other
  }

  /** The page shows waiting rows, and the sender test is made on the row's sender. */
  lemma PageRow(b: Mailbox, k: Contact, now: nat, i: nat)
    requires k in b.memory && k.owner == b.owner && i < |PageAt(b, k, now)|
    ensures var q := Purge(b.relay, now); var m := PageAt(b, k, now)[i];
      && Waiting(q, k.owner, b.memory[k].cursor, m.serverId) && m == Render(q, m.serverId)
      && (FromContact(k, m) <==> Mine(q, k, m.serverId))
  {
    PageWaits(b.relay, b.owner, b.memory[k].cursor, now, i);
    hide Receive, Purge;
  }

  /** None from the contact is older than the next. */
  lemma PageOfRows(b: Mailbox, k: Contact, now: nat, id: nat, i: nat)
    requires k in b.memory && k.owner == b.owner && i < |PageAt(b, k, now)|
    requires Next(Purge(b.relay, now), k, b.memory[k].cursor, id)
    ensures var m := PageAt(b, k, now)[i];
      && m == Render(Purge(b.relay, now), m.serverId)
      && (FromContact(k, m) <==> Mine(Purge(b.relay, now), k, m.serverId))
      && (FromContact(k, m) ==> id <= m.serverId)
  {
    PageRow(b, k, now, i);
    hide PageAt, Purge, FromContact;
  }

  lemma PageReaches(b: Mailbox, k: Contact, now: nat, id: nat)
    requires k in b.memory && Waiting(Purge(b.relay, now), b.owner, b.memory[k].cursor, id)
    requires 0 < id <= b.relay.last
    ensures var page := PageAt(b, k, now);
      && Ordered(page)
      && (OnPage(page, id) || (|page| == PAGE_LIMIT && forall i :: 0 <= i < |page| ==> page[i].serverId < id))
  {
    var q := Purge(b.relay, now);
    var cursor := b.memory[k].cursor;
    PageCovers(q, b.owner, cursor, 1, PAGE_LIMIT, id);
    PageRises(q, b.owner, cursor, 1, PAGE_LIMIT);
    hide Page, Purge, PageAt, Waiting;
    PageIds(b, k, now);
    ShownIds(Page(q, b.owner, cursor, 1, PAGE_LIMIT), PageAt(b, k, now), id);
  }

  lemma PageIds(b: Mailbox, k: Contact, now: nat)
    requires k in b.memory
    ensures Shows(Page(Purge(b.relay, now), b.owner, b.memory[k].cursor, 1, PAGE_LIMIT), PageAt(b, k, now))
  {
    hide Page, Purge;
  }

  predicate Shows(ids: seq<nat>, page: seq<Message>) {
    |page| == |ids| && forall i :: 0 <= i < |page| ==> page[i].serverId == ids[i]
  }

  lemma ShownIds(ids: seq<nat>, page: seq<Message>, id: nat)
    requires Shows(ids, page) && Rising(ids)
    requires id in ids || (|ids| == PAGE_LIMIT && forall other :: other in ids ==> other < id)
    ensures Ordered(page)
    ensures OnPage(page, id) || (|page| == PAGE_LIMIT && forall i :: 0 <= i < |page| ==> page[i].serverId < id)
  {
    if id in ids {
      var j :| 0 <= j < |ids| && ids[j] == id;
      assert page[j].serverId == id;
    } else {
      forall i | 0 <= i < |page| ensures page[i].serverId < id {
        assert ids[i] in ids;
      }
    }
  }

  /** A conversation with mail waiting gets nowhere for one of three reasons: its page does not fit, the oldest message
      from its contact cannot be opened, or 100 older rows that are not from its contact, and that its polls therefore
      never acknowledge, take up the page. */
  lemma WhyStuck(b: Mailbox, k: Contact, limits: Limits, now: nat, id: nat)
    requires Valid(b.relay) && k in b.memory && k.owner == b.owner
    requires Next(Purge(b.relay, now), k, b.memory[k].cursor, id)
    ensures var q := Purge(b.relay, now); var page := PageAt(b, k, now);
      !Movable(k, page, limits)
      <==> || !limits.fits(page)
           || !limits.opens(q.rows[id].ciphertext)
           || (|page| == PAGE_LIMIT && forall i :: 0 <= i < |page| ==> page[i].serverId < id && !FromContact(k, page[i]))
  {
    var page := PageAt(b, k, now);
    assert id in b.relay.rows;
    PageReaches(b, k, now, id);
    forall i | 0 <= i < |page|
      ensures page[i] == Render(Purge(b.relay, now), page[i].serverId)
        && (FromContact(k, page[i]) <==> Mine(Purge(b.relay, now), k, page[i].serverId))
        && (FromContact(k, page[i]) ==> id <= page[i].serverId)
    {
      PageOfRows(b, k, now, id, i);
    }
    hide PageAt, Purge, Valid, FromContact, Waiting;
    if OnPage(page, id) {
      var j :| 0 <= j < |page| && page[j].serverId == id;
      assert First(k, page, j);
      OnlyOneFirst(k, page, j);
    }
  }

  lemma OnlyOneFirst(k: Contact, page: seq<Message>, j: int)
    requires First(k, page, j)
    ensures forall i :: First(k, page, i) ==> i == j
  {
  }
}
