/** How far polling gets: rounds in which nothing fails that need not end with an empty mailbox or with a stalled one. */
module Progress {
  import opened Wrappers
  import opened RelayQueue
  import opened ChatView
  import opened Drain
  import opened Stall
  import RelayFrames

  /** No row expires, as the chat service sends none that do. */
  predicate Tidy(q: Queue) {
    && (forall id :: id in q.rows ==> q.rows[id].expiresAt.None?)
    && (forall key :: key in q.index ==> q.index[key] in q.rows)
  }

  lemma TidyIsPurged(q: Queue, now: nat)
    requires Tidy(q)
    ensures Purge(q, now) == q
  {
    var p := Purge(q, now);
    assert p.rows == q.rows;
    assert p.index == q.index;
  }

  lemma AcksKeepTidy(q: Queue, q': Queue)
    requires Tidy(q) && OnlyAcks(q, q')
    ensures Tidy(q')
  {
  }

  /** Nothing fails but the encoding of a page that does not fit and the opening of envelopes that cannot be opened. */
  ghost predicate BestEffort(page: seq<Message>, f: PollFates, limits: Limits) {
    && f.statusSave == Done && (f.receive == Done <==> limits.fits(page))
    && (forall i :: 0 <= i < |page| ==>
          && f.handling(i).save == f.handling(i).acknowledge == Done
          && f.handling(i).opens == if limits.opens(page[i].ciphertext) then Done else LostBefore)
  }

  ghost predicate Diligent(b: Mailbox, turns: seq<Turn>, limits: Limits)
    decreases |turns|
  {
    turns == []
    || (var k, f := turns[0].contact, turns[0].fates;
        && k in b.memory && k in b.saved
        && BestEffort(PageAt(b, k, f.now), f, limits)
        && Diligent(PollOne(b, k, f), turns[1..], limits))
  }

  ghost predicate Everyone(b: Mailbox, turns: seq<Turn>) {
    forall k :: k in b.memory ==> exists i :: 0 <= i < |turns| && turns[i].contact == k
  }

  /** Rounds that poll every conversation, in any order and however often. */
  ghost predicate AllDiligent(b: Mailbox, rounds: seq<seq<Turn>>, limits: Limits)
    decreases |rounds|
  {
    rounds == []
    || (&& Everyone(b, rounds[0]) && Diligent(b, rounds[0], limits)
        && AllDiligent(Polled(b, rounds[0]), rounds[1..], limits))
  }

  function PolledRounds(b: Mailbox, rounds: seq<seq<Turn>>): Mailbox
    decreases |rounds|
  {
    if rounds == [] then b else PolledRounds(Polled(b, rounds[0]), rounds[1..])
  }

  // ---------------------------------------------------------------- what is left to do

  ghost function UnopenedIds(b: Mailbox): set<nat> {
    set id | id in UnreadIds(b.relay, b.owner) && b.relay.rows[id].ciphertext !in b.spent
  }

  /** Every unread message is to be acknowledged, and to be opened before that. */
  ghost function Work(b: Mailbox): nat {
    |UnreadIds(b.relay, b.owner)| + |UnopenedIds(b)|
  }

  lemma WorkIsBounded(b: Mailbox)
    ensures Work(b) <= 2 * Backlog(b)
  {
    SubsetIsNotLarger(UnopenedIds(b), UnreadIds(b.relay, b.owner));
  }

  lemma SubsetIsNotLarger(a: set<nat>, b: set<nat>)
    requires a <= b
    ensures |a| <= |b|
  {
    if a != b { ProperSubsetIsSmaller(a, b); }
  }

  lemma LessWork(b: Mailbox, b': Mailbox, id: nat)
    requires OnlyAcks(b.relay, b'.relay) && b'.owner == b.owner && b.spent <= b'.spent
    requires Unread(b.relay, b.owner, id)
    requires Settled(b'.relay, id) || (b.relay.rows[id].ciphertext !in b.spent && b.relay.rows[id].ciphertext in b'.spent)
    ensures Work(b') < Work(b)
  {
    var u, u' := UnreadIds(b.relay, b.owner), UnreadIds(b'.relay, b'.owner);
    var o, o' := UnopenedIds(b), UnopenedIds(b');
    assert u' <= u && o' <= o;
    SubsetIsNotLarger(u', u);
    SubsetIsNotLarger(o', o);
    if Settled(b'.relay, id) {
      assert id in u && id !in u';
      ProperSubsetIsSmaller(u', u);
    } else {
      assert id in o && id !in o';
      ProperSubsetIsSmaller(o', o);
    }
  }

  // ---------------------------------------------------------------- one turn and one round

  ghost predicate StuckAt(b: Mailbox, k: Contact, limits: Limits) {
    k in b.memory && !Movable(k, PageAt(b, k, 0), limits)
  }

  lemma TidyPage(b: Mailbox, k: Contact, now: nat)
    requires Tidy(b.relay) && k in b.memory
    ensures PageAt(b, k, now) == PageAt(b, k, 0)
  {
    TidyIsPurged(b.relay, now);
    TidyIsPurged(b.relay, 0);
    hide Purge, Page;
  }

  /** The same mailbox as far as polls go. */
  ghost predicate SameWork(b: Mailbox, b': Mailbox) {
    && Unmoved(b, b') && b'.relay == b.relay
  }

  lemma SameWorkStuck(b: Mailbox, b': Mailbox, k: Contact, limits: Limits)
    requires SameWork(b, b')
    ensures StuckAt(b, k, limits) <==> StuckAt(b', k, limits)
    ensures Work(b') == Work(b)
  {
    hide Movable, Receive;
  }

  lemma TurnWorks(b: Mailbox, k: Contact, f: PollFates, limits: Limits)
    requires Idle(b) && Tidy(b.relay) && k in b.memory && BestEffort(PageAt(b, k, f.now), f, limits)
    ensures var b' := PollOne(b, k, f);
      && Idle(b') && Tidy(b'.relay) && b'.owner == b.owner && b'.memory.Keys == b.memory.Keys
      && (Work(b') < Work(b) || (SameWork(b, b') && StuckAt(b, k, limits)))
  {
    TidyPage(b, k, f.now);
    TidyIsPurged(b.relay, f.now);
    var page := PageAt(b, k, f.now);
    var b' := PollOne(b, k, f);
    hide Idle, Tidy, PollOne, PageAt, Purge, First, OnlyAcks;
    if Movable(k, page, limits) {
      var j :| First(k, page, j) && limits.opens(page[j].ciphertext);
      MovingIndex(k, page, j);
      MovingPoll(b, k, f, j);
      AcksKeepTidy(b.relay, b'.relay);
      PageIsUnread(b, k, f.now, j);
      LessWork(b, b', page[j].serverId);
    } else {
      IdleTurn(b, k, f, limits);
    }
    hide Work, Movable;
  }

  lemma MovingIndex(k: Contact, page: seq<Message>, j: int)
    requires First(k, page, j)
    ensures 0 <= j < |page|
  {
  }

  lemma PageIsUnread(b: Mailbox, k: Contact, now: nat, j: nat)
    requires Tidy(b.relay) && k in b.memory && j < |PageAt(b, k, now)|
    ensures var m := PageAt(b, k, now)[j];
      Unread(b.relay, b.owner, m.serverId) && b.relay.rows[m.serverId].ciphertext == m.ciphertext
  {
    TidyIsPurged(b.relay, now);
    PageWaits(b.relay, b.owner, b.memory[k].cursor, now, j);
    hide Receive, Purge;
  }

  lemma {:induction false} TurnsWork(b: Mailbox, turns: seq<Turn>, limits: Limits)
    requires Idle(b) && Tidy(b.relay) && Diligent(b, turns, limits)
    ensures var after := Polled(b, turns);
      && Idle(after) && Tidy(after.relay) && after.owner == b.owner && after.memory.Keys == b.memory.Keys
      && (|| Work(after) < Work(b)
          || (SameWork(b, after) && forall i :: 0 <= i < |turns| ==> StuckAt(b, turns[i].contact, limits)))
    decreases |turns|
  {
    hide Idle, Tidy, PollOne, BestEffort, PageAt, Work, StuckAt, Unmoved;
    if turns == [] {
      assert Unmoved(b, b) by { NothingMoves(b); }
    } else {
      var k, f := turns[0].contact, turns[0].fates;
      TurnWorks(b, k, f, limits);
      var b1 := PollOne(b, k, f);
      TurnsWork(b1, turns[1..], limits);
      var after := Polled(b, turns);
      assert after == Polled(b1, turns[1..]);
      if SameWork(b, b1) && SameWork(b1, after) {
        UnmovedTransitive(b, b1, after);
        SameWorkStuck(b, after, k, limits);
      }
      if SameWork(b, b1) { SameWorkStuck(b, b1, k, limits); }
      if SameWork(b1, after) { SameWorkStuck(b1, after, k, limits); }
      forall i | 0 <= i < |turns| && SameWork(b, b1)
          && (i > 0 ==> StuckAt(b1, turns[1..][i - 1].contact, limits)) && StuckAt(b, k, limits)
        ensures StuckAt(b, turns[i].contact, limits)
      {
        SameWorkStuck(b, b1, turns[i].contact, limits);
      }
    }
  }

  lemma NothingMoves(b: Mailbox)
    ensures Unmoved(b, b)
  {
  }

  /** A round does some of the work, or none, and then the mailbox is stalled. */
  lemma RoundWorks(b: Mailbox, turns: seq<Turn>, limits: Limits)
    requires Idle(b) && Tidy(b.relay) && Diligent(b, turns, limits) && Everyone(b, turns)
    ensures var after := Polled(b, turns);
      Idle(after) && Tidy(after.relay) && (Work(after) < Work(b) || Stalled(after, limits, 0))
  {
    TurnsWork(b, turns, limits);
    var after := Polled(b, turns);
    hide Idle, Tidy, Polled, Diligent, Work, PageAt, Unmoved;
    if SameWork(b, after) && (forall i :: 0 <= i < |turns| ==> StuckAt(b, turns[i].contact, limits)) {
      forall k, now: nat | k in after.memory ensures !Movable(k, PageAt(after, k, now), limits) {
        assert k in b.memory;
        SameWorkStuck(b, after, k, limits);
        TidyPage(after, k, now);
      }
    }
  }

  // ---------------------------------------------------------------- rounds

  lemma {:induction false} DiligentObeys(b: Mailbox, turns: seq<Turn>, limits: Limits)
    requires Diligent(b, turns, limits)
    ensures Obeying(b, turns, limits, 0)
    decreases |turns|
  {
    hide PollOne, PageAt;
    if turns != [] {
      DiligentObeys(PollOne(b, turns[0].contact, turns[0].fates), turns[1..], limits);
    }
  }

  lemma {:induction false} StaysStalled(b: Mailbox, rounds: seq<seq<Turn>>, limits: Limits)
    requires Idle(b) && Stalled(b, limits, 0) && AllDiligent(b, rounds, limits)
    ensures Stalled(PolledRounds(b, rounds), limits, 0)
    decreases |rounds|
  {
    hide Idle, Stalled, Polled, Diligent, Everyone, Unmoved, Obeying;
    if rounds != [] {
      DiligentObeys(b, rounds[0], limits);
      StalledForever(b, rounds[0], limits, 0);
      StaysStalled(Polled(b, rounds[0]), rounds[1..], limits);
    }
  }

  lemma NoWorkIsStalled(b: Mailbox, limits: Limits)
    requires Tidy(b.relay) && Work(b) == 0
    ensures Stalled(b, limits, 0)
  {
    forall k, now: nat | k in b.memory ensures PageAt(b, k, now) == [] {
      if PageAt(b, k, now) != [] { PageIsWork(b, k, now); }
    }
  }

  lemma PageIsWork(b: Mailbox, k: Contact, now: nat)
    requires Tidy(b.relay) && k in b.memory && PageAt(b, k, now) != []
    ensures Work(b) > 0
  {
    PageIsUnread(b, k, now, 0);
    assert PageAt(b, k, now)[0].serverId in UnreadIds(b.relay, b.owner);
  }

  lemma {:induction false} EnoughRounds(b: Mailbox, rounds: seq<seq<Turn>>, limits: Limits)
    requires Idle(b) && Tidy(b.relay) && AllDiligent(b, rounds, limits) && |rounds| >= Work(b)
    ensures Stalled(PolledRounds(b, rounds), limits, 0)
    decreases |rounds|
  {
    hide Idle, Tidy, Stalled, Polled, Diligent, Everyone, Work;
    if rounds == [] {
      NoWorkIsStalled(b, limits);
    } else {
      RoundWorks(b, rounds[0], limits);
      var after := Polled(b, rounds[0]);
      if Stalled(after, limits, 0) {
        StaysStalled(after, rounds[1..], limits);
      } else {
        EnoughRounds(after, rounds[1..], limits);
      }
    }
  }

  /** Twice as many rounds as there are unread messages get as far as any polls can: after them no sequence of polls
      acknowledges anything. */
  lemma DrainsOrStalls(b: Mailbox, rounds: seq<seq<Turn>>, limits: Limits)
    requires Ready(b) && (forall id :: id in b.relay.rows ==> b.relay.rows[id].expiresAt.None?)
    requires AllDiligent(b, rounds, limits) && |rounds| >= 2 * Backlog(b)
    ensures Stalled(PolledRounds(b, rounds), limits, 0)
  {
    ReadyIsIdle(b);
    assert Tidy(b.relay);
    WorkIsBounded(b);
    hide Idle, Ready, Tidy, AllDiligent, Work, Backlog;
    EnoughRounds(b, rounds, limits);
  }

  // ---------------------------------------------------------------- the limit on bytes

  /** A page as it is put into a frame. */
  function Framed(page: seq<Message>, frame: Message -> RelayFrames.Message): seq<RelayFrames.Message> {
    seq(|page|, i requires 0 <= i < |page| => frame(page[i]))
  }

  /** What the relay's encoder takes. */
  function FrameLimits(frame: Message -> RelayFrames.Message, opens: Envelope -> bool): Limits {
    Limits(page => RelayFrames.EncodeMessages(Framed(page, frame)).Success?, opens)
  }

  /** The first message from the contact can be opened, and 9 bytes with the sizes of the messages make a body. */
  ghost predicate FitsBody(k: Contact, page: seq<Message>, frame: Message -> RelayFrames.Message, opens: Envelope -> bool) {
    && (forall i :: 0 <= i < |page| ==> RelayFrames.InLimits(frame(page[i])))
    && 9 + RelayFrames.TotalSize(Framed(page, frame)) <= RelayFrames.MAX_BODY
    && exists j :: First(k, page, j) && opens(page[j].ciphertext)
  }

  lemma FitsBodyIff(k: Contact, page: seq<Message>, frame: Message -> RelayFrames.Message, opens: Envelope -> bool)
    requires |page| <= PAGE_LIMIT
    ensures Movable(k, page, FrameLimits(frame, opens)) <==> FitsBody(k, page, frame, opens)
  {
    var framed := Framed(page, frame);
    RelayFrames.MessagesEncodeIff(framed);
    assert forall i :: 0 <= i < |page| ==> framed[i] == frame(page[i]);
    hide RelayFrames.EncodeMessages, RelayFrames.TotalSize, RelayFrames.InLimits;
  }

  /** Counted in bytes: no sequence of polls acknowledges anything exactly if for every conversation, at every clock
      reading, 9 bytes and the sizes of its at most 100 rows exceed 16 MiB, or a field of a row exceeds its limit, or
      the first message from its contact, if there is one, cannot be opened. */
  lemma StalledOnBytesIff(b: Mailbox, frame: Message -> RelayFrames.Message, opens: Envelope -> bool, since: nat)
    requires Idle(b)
    ensures (forall k, now :: k in b.memory && now >= since ==> !FitsBody(k, PageAt(b, k, now), frame, opens))
       <==> forall turns :: Obeying(b, turns, FrameLimits(frame, opens), since) ==>
              NoneAcknowledged(b.relay, Polled(b, turns).relay)
  {
    StalledIff(b, FrameLimits(frame, opens), since);
    hide Obeying, Polled, NoneAcknowledged, Movable, FitsBody, PageAt, FrameLimits, Idle;
    forall k, now: nat | k in b.memory
      ensures Movable(k, PageAt(b, k, now), FrameLimits(frame, opens)) <==> FitsBody(k, PageAt(b, k, now), frame, opens)
    {
      PageIsShort(b, k, now);
      FitsBodyIff(k, PageAt(b, k, now), frame, opens);
    }
  }

  lemma PageIsShort(b: Mailbox, k: Contact, now: nat)
    requires k in b.memory
    ensures |PageAt(b, k, now)| <= PAGE_LIMIT
  {
  }
}
