/** A message that can never be opened: it ends every poll of its conversation, and nothing behind it there is ever
    acknowledged. */
module Blocked {
  import opened Wrappers
  import opened RelayQueue
  import opened ChatView
  import opened DeliverySteps
  import opened Drain
  import opened Stall

  /** Row `x` waits for conversation `k`, does not expire and cannot be opened. */
  predicate Blocks(b: Mailbox, k: Contact, x: nat, limits: Limits) {
    && k in b.memory && b.memory[k].cursor < x && 0 < x <= b.relay.last
    && Mine(b.relay, k, x) && !Acknowledged(b.relay.rows[x]) && b.relay.rows[x].expiresAt.None?
    && !limits.opens(b.relay.rows[x].ciphertext)
  }

  /** Row `y`, if it is still there, is unread, and no other conversation takes it for its own. */
  predicate Behind(b: Mailbox, k: Contact, y: nat) {
    y in b.relay.rows ==>
      !Acknowledged(b.relay.rows[y]) && forall k2 :: k2 in b.memory && k2 != k ==> !Mine(b.relay, k2, y)
  }

  // ---------------------------------------------------------------- what the page loop gets to

  /** The loop opens every message of the contact up to this one. */
  predicate Handled(k: Contact, page: seq<Message>, f: PollFates, n: nat, i: int) {
    && 0 <= i < |page| && FromContact(k, page[i])
    && forall j :: 0 <= j <= i && FromContact(k, page[j]) ==> f.handling(n + j).opens != LostBefore
  }

  ghost predicate HandledId(k: Contact, page: seq<Message>, f: PollFates, n: nat, id: int) {
    exists i :: Handled(k, page, f, n, i) && page[i].serverId == id
  }

  /** The loop has acknowledged only messages it handled, and the cursor is at one of those or where it was. */
  ghost predicate Reaches(v: View, v': View, k: Contact, f: PollFates, n: nat) {
    && OnlyAcks(v.relay, v'.relay)
    && (forall id: nat :: Settled(v'.relay, id) ==> Settled(v.relay, id) || HandledId(k, v.page, f, n, id))
    && (v'.history.cursor == v.history.cursor || HandledId(k, v.page, f, n, v'.history.cursor))
  }

  lemma TakeReaches(v: View, k: Contact, h: Handling)
    requires v.page != []
    ensures var (v', r) := Take(v, k, h); var id := v.page[0].serverId;
      && (forall other :: Settled(v'.relay, other) ==> Settled(v.relay, other) || other == id)
      && ((v'.relay == v.relay && v'.history.cursor == v.history.cursor)
          || (FromContact(k, v.page[0]) && h.opens != LostBefore))
      && (v'.history.cursor == v.history.cursor || v'.history.cursor == id)
      && (r.Success? && FromContact(k, v.page[0]) ==> h.opens != LostBefore)
  {
  }

  lemma HandledLater(k: Contact, page: seq<Message>, f: PollFates, n: nat, id: int)
    requires page != [] && HandledId(k, page[1..], f, n + 1, id)
    requires FromContact(k, page[0]) ==> f.handling(n).opens != LostBefore
    ensures HandledId(k, page, f, n, id)
  {
    var i :| Handled(k, page[1..], f, n + 1, i) && page[1..][i].serverId == id;
    forall j | 0 <= j <= i + 1 && FromContact(k, page[j]) ensures f.handling(n + j).opens != LostBefore {
      if j > 0 {
        assert page[j] == page[1..][j - 1];
        assert f.handling(n + 1 + (j - 1)).opens != LostBefore;
      } else {
        assert n + j == n;
      }
    }
    assert Handled(k, page, f, n, i + 1);
  }

  lemma HandledFirst(k: Contact, page: seq<Message>, f: PollFates, n: nat)
    requires page != [] && FromContact(k, page[0]) && f.handling(n).opens != LostBefore
    ensures HandledId(k, page, f, n, page[0].serverId)
  {
    assert n + 0 == n;
    assert Handled(k, page, f, n, 0);
  }

  lemma {:induction false} LoopReaches(v: View, k: Contact, n: nat, events: seq<Event>, f: PollFates)
    ensures Reaches(v, TakeFrom(v, k, n, events, f).0, k, f, n)
    decreases |v.page|
  {
    LoopOnlyAcks(v, k, n, events, f);
    if v.page != [] {
      var h := f.handling(n);
      var (v1, r) := Take(v, k, h);
      var v' := TakeFrom(v, k, n, events, f).0;
      hide Take, OnlyAcks, Reaches, FromContact;
      OneReaches(v, k, n, f);
      if r.Success? {
        ShrinkingPage(v, k, h);
        LoopReaches(v1, k, n + 1, events + r.value, f);
        ReachesOn(v, v1, v', k, n, f);
      }
    }
  }

  lemma OneReaches(v: View, k: Contact, n: nat, f: PollFates)
    requires v.page != []
    ensures Reaches(v, Take(v, k, f.handling(n)).0, k, f, n)
  {
    var h := f.handling(n);
    TakeReaches(v, k, h);
    TakeOnlyAcks(v, k, h);
    if FromContact(k, v.page[0]) && h.opens != LostBefore { HandledFirst(k, v.page, f, n); }
    hide Take, FromContact, OnlyAcks, HandledId;
  }

  lemma ReachesOn(v: View, v1: View, v': View, k: Contact, n: nat, f: PollFates)
    requires v.page != [] && Take(v, k, f.handling(n)).1.Success? && v1 == Take(v, k, f.handling(n)).0
    requires v1.page == v.page[1..] && Reaches(v, v1, k, f, n) && Reaches(v1, v', k, f, n + 1)
    requires OnlyAcks(v.relay, v'.relay)
    ensures Reaches(v, v', k, f, n)
  {
    TakeReaches(v, k, f.handling(n));
    hide Take, FromContact, OnlyAcks, HandledId, Settled;
    forall id | HandledId(k, v.page[1..], f, n + 1, id) ensures HandledId(k, v.page, f, n, id) {
      HandledLater(k, v.page, f, n, id);
    }
  }

  /** A whole poll, on the page it fetches. */
  lemma PollReaches(v: View, k: Contact, f: PollFates)
    requires Quiet(v.history)
    ensures var v' := Poll(v, k, f).0; var page := Receive(v.relay, k.owner, v.history.cursor, f.now).1;
      && Quiet(v'.history)
      && (v'.relay == v.relay || OnlyAcks(Purge(v.relay, f.now), v'.relay))
      && (forall id: nat :: Settled(v'.relay, id) ==> Settled(v.relay, id) || HandledId(k, page, f, 0, id))
      && (v'.history.cursor == v.history.cursor || HandledId(k, page, f, 0, v'.history.cursor))
  {
    PollIsPage(v, k, f);
    var s := Started(v, k, f);
    FetchShape(s, k, f.receive, f.now);
    var fetched := Fetch(s, k, f.receive, f.now).0;
    var read := RefreshFrom(v, k, 0, [], f).1;
    LoopReaches(fetched, k, 0, read, f);
    LoopOnlyAcks(fetched, k, 0, read, f);
    hide Poll, Fetch, TakeFrom, RefreshFrom, Started, Quiet, Receive, HandledId;
  }

  // ---------------------------------------------------------------- one poll

  /** The polls of the blocked conversation get only to older rows. */
  lemma OwnPageStops(b: Mailbox, k: Contact, x: nat, f: PollFates, limits: Limits, id: int)
    requires Blocks(b, k, x, limits) && k.owner == b.owner && Obeys(PageAt(b, k, f.now), f, limits)
    requires HandledId(k, PageAt(b, k, f.now), f, 0, id)
    ensures id < x
  {
    var page := PageAt(b, k, f.now);
    var i :| Handled(k, page, f, 0, i) && page[i].serverId == id;
    PageReaches(b, k, f.now, x);
    if OnPage(page, x) {
      var j :| 0 <= j < |page| && page[j].serverId == x;
      PageRow(b, k, f.now, j);
      assert FromContact(k, page[j]) && page[j].ciphertext == b.relay.rows[x].ciphertext;
      hide PageAt, Purge, FromContact;
      assert f.handling(0 + j).opens == LostBefore;
    }
  }

  /** The polls of any other do not open it, and leave alone what is not theirs. */
  lemma OtherPagePasses(b: Mailbox, k: Contact, x: nat, k2: Contact, f: PollFates, limits: Limits, id: nat)
    requires Blocks(b, k, x, limits) && k2 in b.memory && k2.owner == b.owner && Obeys(PageAt(b, k2, f.now), f, limits)
    requires HandledId(k2, PageAt(b, k2, f.now), f, 0, id)
    ensures id != x && Mine(b.relay, k2, id)
  {
    var page := PageAt(b, k2, f.now);
    var i :| Handled(k2, page, f, 0, i) && page[i].serverId == id;
    PageRow(b, k2, f.now, i);
    assert id in b.relay.rows && page[i].ciphertext == b.relay.rows[id].ciphertext && Mine(b.relay, k2, id);
    hide PageAt, Purge, FromContact;
    assert f.handling(0 + i).opens != LostBefore;
  }

  lemma RowsStay(q: Queue, q': Queue, now: nat, k: Contact, id: nat)
    requires q' == q || OnlyAcks(Purge(q, now), q')
    ensures q'.last == q.last
    ensures id in q'.rows ==>
      && id in q.rows && q'.rows[id].(acknowledgedAt := q.rows[id].acknowledgedAt) == q.rows[id]
      && (Mine(q', k, id) <==> Mine(q, k, id))
    ensures id in q.rows && q.rows[id].expiresAt.None? ==> id in q'.rows
  {
  }

  lemma PollOneReaches(b: Mailbox, k: Contact, f: PollFates)
    requires Idle(b) && k in b.memory
    ensures var b' := PollOne(b, k, f); var page := PageAt(b, k, f.now);
      && Idle(b') && k.owner == b.owner && b'.owner == b.owner && b'.memory.Keys == b.memory.Keys
      && (b'.relay == b.relay || OnlyAcks(Purge(b.relay, f.now), b'.relay))
      && (forall id: nat :: Settled(b'.relay, id) ==> Settled(b.relay, id) || HandledId(k, page, f, 0, id))
      && (b'.memory[k].cursor == b.memory[k].cursor || HandledId(k, page, f, 0, b'.memory[k].cursor))
      && (forall k2 :: k2 in b.memory && k2 != k ==> b'.memory[k2] == b.memory[k2])
  {
    PollReaches(View(b.relay, b.spent, b.memory[k], b.saved[k], []), k, f);
    hide Poll, Quiet, Receive, OnlyAcks, HandledId;
  }

  lemma PollKeepsBlocked(b: Mailbox, k: Contact, x: nat, y: nat, k2: Contact, f: PollFates, limits: Limits)
    requires Idle(b) && Blocks(b, k, x, limits) && Behind(b, k, y) && x < y
    requires k2 in b.memory && Obeys(PageAt(b, k2, f.now), f, limits)
    ensures var b' := PollOne(b, k2, f); Idle(b') && Blocks(b', k, x, limits) && Behind(b', k, y)
  {
    PollOneReaches(b, k2, f);
    var b' := PollOne(b, k2, f);
    var page := PageAt(b, k2, f.now);
    hide PollOne, PageAt, Idle, HandledId, Obeys, OnlyAcks, Mine;
    if k2 == k {
      forall id | HandledId(k, page, f, 0, id) ensures id < x { OwnPageStops(b, k, x, f, limits, id); }
    } else {
      forall id: nat | HandledId(k2, page, f, 0, id) ensures id != x && Mine(b.relay, k2, id) {
        OtherPagePasses(b, k, x, k2, f, limits, id);
      }
    }
    RowsStay(b.relay, b'.relay, f.now, k, x);
    forall k3 | y in b'.relay.rows ensures Mine(b'.relay, k3, y) <==> Mine(b.relay, k3, y) {
      RowsStay(b.relay, b'.relay, f.now, k3, y);
    }
    RowsStay(b.relay, b'.relay, f.now, k, y);
    assert !Settled(b'.relay, x) && !Settled(b'.relay, y);
  }

  /** As long as a message cannot be opened, no sequence of polls, of whichever conversations and whatever fails,
      acknowledges it or anything behind it that is for its conversation alone. */
  lemma {:induction false} NothingBehind(
    b: Mailbox, turns: seq<Turn>, limits: Limits, since: nat, k: Contact, x: nat, y: nat)
    requires Idle(b) && Obeying(b, turns, limits, since) && Blocks(b, k, x, limits) && Behind(b, k, y) && x < y
    ensures Blocks(Polled(b, turns), k, x, limits) && !Settled(Polled(b, turns).relay, y)
    decreases |turns|
  {
    hide PollOne, Idle, Blocks, Obeys;
    if turns != [] {
      var k2, f := turns[0].contact, turns[0].fates;
      PollKeepsBlocked(b, k, x, y, k2, f, limits);
      hide Behind;
      NothingBehind(PollOne(b, k2, f), turns[1..], limits, since, k, x, y);
    }
  }
}
