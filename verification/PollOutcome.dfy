/** What a caller of `poll` can rely on: what each message does, what the events say, what is shown and what is saved. */
module PollOutcome {
  import opened Wrappers
  import opened RelayQueue
  import opened RelayAnswers
  import opened ChatView
  import opened DeliverySteps
  import opened ChatCalls
  import opened Sending

  // ---------------------------------------------------------------- one message

  /** The message is the contact's: it comes from the peer's address, or from the client id the contact is known by. */
  predicate Theirs(k: Contact, m: Message) {
    m.senderAddress == Some(k.address) || (k.relayId.Some? && k.relayId.value == m.sender)
  }

  /** The message is opened now, for the first time. */
  predicate OpensNow(v: View, k: Contact, h: Handling)
    requires v.page != []
  {
    Theirs(k, v.page[0]) && h.opens == Done && v.page[0].ciphertext !in v.spent
  }

  /** It has to be added to the history and can be. */
  predicate IsNews(v: View, k: Contact, h: Handling)
    requires v.page != []
  {
    && OpensNow(v, k, h) && v.page[0].ciphertext.text.Some?
    && forall i :: 0 <= i < |v.history.entries| ==> v.history.entries[i].messageId != v.page[0].ciphertext.id
  }

  /** It is settled in the end: a message used up before, one that is in the history already, or one that is added and
      saved; and the relay takes the acknowledgement. */
  predicate Settles(v: View, k: Contact, h: Handling)
    requires v.page != []
  {
    var m := v.page[0];
    && Theirs(k, m) && h.opens != LostBefore
    && (|| m.ciphertext in v.spent
        || (h.opens == Done && HasId(v.history.entries, m.ciphertext.id))
        || (IsNews(v, k, h) && h.save == Done))
    && h.acknowledge == Done && m.serverId in v.relay.rows && v.relay.rows[m.serverId].recipient == k.owner
  }

  /** The event of a message: used up before, shown under the contact's name, or none. */
  function EventsOf(v: View, k: Contact, h: Handling): seq<Event>
    requires v.page != []
  {
    var m := v.page[0];
    if !Theirs(k, m) then []
    else if m.ciphertext in v.spent then [StaleEvent(m.serverId)]
    else if IsNews(v, k, h) then [ReceivedEvent(k.name, m.ciphertext.text.value)]
    else []
  }

  /** Handling a message succeeds exactly if it is someone else's or is settled; a settled one is
      acknowledged and the cursor is raised to it. */
  lemma TakeSucceedsIff(v: View, k: Contact, h: Handling)
    requires v.page != []
    ensures var (v', r) := Take(v, k, h); var m := v.page[0];
      && (r.Success? <==> !Theirs(k, m) || Settles(v, k, h))
      && (r.Success? ==> r.value == EventsOf(v, k, h) && v'.page == v.page[1..])
      && (r.Success? && Theirs(k, m) ==>
            && v'.relay.rows[m.serverId].acknowledgedAt == Some(h.now)
            && v'.history.cursor == if m.serverId > v.history.cursor then m.serverId else v.history.cursor)
  {
  }

  /** Whatever fails, news is added to the history at its end, with the contact's name, the text and the envelope, and
      nothing else is; what is on disk changes only by saving that. */
  lemma TakeShows(v: View, k: Contact, h: Handling)
    requires v.page != []
    ensures var v' := Take(v, k, h).0; var c := v.page[0].ciphertext;
      && v'.history.entries
         == v.history.entries
            + (if IsNews(v, k, h) then [Entry(k.name, c.text.value, c.id, c, Received, "")] else [])
      && v'.saved == (if IsNews(v, k, h) && h.save != LostBefore
                      then History(v'.history.entries, v.history.cursor) else v.saved)
  {
  }

  /** Why handling a message fails: it does not open, what it holds is not text, it cannot be saved, or, when all that is
      done, it cannot be acknowledged. */
  lemma TakeFailsHow(v: View, k: Contact, h: Handling)
    requires v.page != [] && Take(v, k, h).1.Failure?
    ensures var m := v.page[0]; var spent := m.ciphertext in v.spent;
      Take(v, k, h).1.error
      == if h.opens == LostBefore || (!spent && h.opens != Done) then DecryptFailed
         else if !spent && !HasId(v.history.entries, m.ciphertext.id) && m.ciphertext.text.None? then NotText
         else if IsNews(v, k, h) && h.save != Done then StorageFailed
         else TransportFailed
    ensures Take(v, k, h).0.page == [] && Take(v, k, h).0.history.cursor == v.history.cursor
  {
  }

  // ---------------------------------------------------------------- events

  function ReceivedOf(events: seq<Event>): seq<Event> {
    if events == [] then []
    else ReceivedOf(events[..|events| - 1])
         + if events[|events| - 1].ReceivedEvent? then [events[|events| - 1]] else []
  }

  lemma {:induction false} ReceivedOfAppend(a: seq<Event>, b: seq<Event>)
    ensures ReceivedOf(a + b) == ReceivedOf(a) + ReceivedOf(b)
    decreases |b|
  {
    if b == [] {
      assert a + b == a;
    } else {
      assert (a + b)[..|a + b| - 1] == a + b[..|b| - 1];
      ReceivedOfAppend(a, b[..|b| - 1]);
    }
  }

  /** One event for each entry: the contact's name and the text shown. */
  function Announced(k: Contact, entries: seq<Entry>): seq<Event> {
    seq(|entries|, i requires 0 <= i < |entries| => ReceivedEvent(k.name, entries[i].text))
  }

  /** The entries from `from` on are the contact's messages, each with its text. */
  predicate ShowTexts(k: Contact, entries: seq<Entry>, from: nat) {
    forall i :: from <= i < |entries| ==>
      && entries[i].sender == k.name && entries[i].status == Received
      && entries[i].ciphertext.text == Some(entries[i].text) && entries[i].messageId == entries[i].ciphertext.id
  }

  /** The second history is the first with messages of the contact behind it. */
  predicate Adds(k: Contact, a: seq<Entry>, b: seq<Entry>) {
    |a| <= |b| && b[..|a|] == a && ShowTexts(k, b, |a|)
  }

  lemma AddsTransitive(k: Contact, a: seq<Entry>, b: seq<Entry>, c: seq<Entry>)
    requires Adds(k, a, b) && Adds(k, b, c)
    ensures Adds(k, a, c)
  {
    assert c[..|a|] == c[..|b|][..|a|];
    forall i | |a| <= i < |b| ensures c[i] == b[i] { assert c[..|b|][i] == c[i]; }
  }

  lemma TakeAdds(v: View, k: Contact, h: Handling)
    requires v.page != []
    ensures Adds(k, v.history.entries, Take(v, k, h).0.history.entries)
    ensures Take(v, k, h).1.Success? ==> Take(v, k, h).0.page == v.page[1..]
  {
    TakeSucceedsIff(v, k, h);
    TakeShows(v, k, h);
    hide Take;
  }

  /** Handling a page adds messages of the contact behind the entries there are; if it succeeds, exactly these are
      announced, in order. */
  lemma {:induction false} PageAnnounces(v: View, k: Contact, i: nat, events: seq<Event>, f: PollFates)
    ensures var (v', r) := TakeFrom(v, k, i, events, f); var n := |v.history.entries|;
      && Adds(k, v.history.entries, v'.history.entries)
      && (r.Success? ==> ReceivedOf(r.value) == ReceivedOf(events) + Announced(k, v'.history.entries[n..]))
    decreases |v.page|
  {
    if v.page != [] {
      var h := f.handling(i);
      var (v1, r1) := Take(v, k, h);
      TakeAdds(v, k, h);
      hide Take, ShowTexts, ReceivedOf, Announced;
      if r1.Success? {
        TakeAnnounces(v, k, h);
        ReceivedOfAppend(events, r1.value);
        PageAnnounces(v1, k, i + 1, events + r1.value, f);
        var v2 := TakeFrom(v1, k, i + 1, events + r1.value, f).0;
        AnnouncedJoins(k, v, v1, v2);
        AddsTransitive(k, v.history.entries, v1.history.entries, v2.history.entries);
      }
    }
  }

  lemma TakeAnnounces(v: View, k: Contact, h: Handling)
    requires v.page != [] && Take(v, k, h).1.Success?
    ensures var (v', r) := Take(v, k, h); var n := |v.history.entries|;
      n <= |v'.history.entries| && ReceivedOf(r.value) == Announced(k, v'.history.entries[n..])
  {
    TakeSucceedsIff(v, k, h);
    TakeShows(v, k, h);
    var r := Take(v, k, h).1;
    hide Take, Settles;
    if r.value != [] { assert r.value[..0] == [] && ReceivedOf([]) == []; }
  }

  lemma AnnouncedJoins(k: Contact, v: View, v1: View, v2: View)
    requires var n, n1 := |v.history.entries|, |v1.history.entries|;
      n <= n1 <= |v2.history.entries| && v2.history.entries[..n1] == v1.history.entries
    ensures Announced(k, v2.history.entries[|v.history.entries|..])
         == Announced(k, v1.history.entries[|v.history.entries|..])
            + Announced(k, v2.history.entries[|v1.history.entries|..])
  {
    var n, n1 := |v.history.entries|, |v1.history.entries|;
    assert v2.history.entries[n..] == v1.history.entries[n..] + v2.history.entries[n1..];
  }

  // ---------------------------------------------------------------- read receipts

  /** The texts of the entries that have become `read`, in order, from the `from`-th on. */
  function NewlyRead(before: seq<Entry>, after: seq<Entry>, from: nat): seq<Event>
    requires from <= |before| == |after|
    decreases |before| - from
  {
    if from == |before| then []
    else (if before[from].status != Read && after[from].status == Read then [ReadEvent(before[from].text)] else [])
         + NewlyRead(before, after, from + 1)
  }

  /** The status loop changes no entry before the one it is at. */
  lemma {:induction false} RefreshKeepsEarlier(v: View, k: Contact, i: nat, events: seq<Event>, f: PollFates)
    requires i <= |v.history.entries|
    ensures RefreshFrom(v, k, i, events, f).0.history.entries[..i] == v.history.entries[..i]
    decreases |v.history.entries| - i
  {
    if i < |v.history.entries| {
      var v' := RefreshEntry(v, k, i, f.reached(i));
      var events' := if v' != v then events + [ReadEvent(v.history.entries[i].text)] else events;
      RefreshKeepsEarlier(v', k, i + 1, events', f);
      var after := RefreshFrom(v, k, i, events, f).0.history.entries;
      assert after[..i] == after[..i + 1][..i] && v'.history.entries[..i + 1][..i] == v.history.entries[..i];
    }
  }

  lemma SameTail(a: seq<Entry>, b: seq<Entry>, after: seq<Entry>, from: nat)
    requires from <= |a| == |b| == |after| && a[from..] == b[from..]
    ensures NewlyRead(a, after, from) == NewlyRead(b, after, from)
    decreases |a| - from
  {
    if from < |a| {
      assert a[from] == a[from..][0] == b[from];
      assert a[from + 1..] == a[from..][1..] == b[from + 1..];
    }
  }

  /** The status loop announces exactly the entries it marks, with their texts, and nothing else. */
  lemma {:induction false} RefreshAnnounces(v: View, k: Contact, i: nat, events: seq<Event>, f: PollFates)
    requires i <= |v.history.entries|
    ensures var (v', all) := RefreshFrom(v, k, i, events, f);
      all == events + NewlyRead(v.history.entries, v'.history.entries, i)
    decreases |v.history.entries| - i
  {
    if i < |v.history.entries| {
      var v1 := RefreshEntry(v, k, i, f.reached(i));
      var events1 := if v1 != v then events + [ReadEvent(v.history.entries[i].text)] else events;
      RefreshAnnounces(v1, k, i + 1, events1, f);
      RefreshKeepsEarlier(v1, k, i + 1, events1, f);
      var after := RefreshFrom(v, k, i, events, f).0.history.entries;
      assert after[i] == after[..i + 1][i] == v1.history.entries[i];
      SameTail(v.history.entries, v1.history.entries, after, i + 1);
    }
  }

  // ---------------------------------------------------------------- a whole poll

  /** What was on disk is what is in memory, or nothing has happened to either. */
  predicate SavedOrSame(v: View, v': View) {
    v'.saved == v'.history || (v'.saved == v.saved && v'.history == v.history)
  }

  lemma {:induction false} RetriesSave(v: View, k: Contact, queued: seq<Entry>, i: nat, f: PollFates)
    requires i <= |queued|
    ensures var (v', ok) := RetryFrom(v, k, queued, i, f);
      && |v'.history.entries| == |v.history.entries| && v'.history.cursor == v.history.cursor
      && (ok ==> SavedOrSame(v, v'))
    decreases |queued| - i
  {
    if i < |queued| {
      var e := queued[i];
      var (v1, ok) := Submit(v, k, e.recipient, e.messageId, e.ciphertext, f.resend(i), f.now);
      hide Submit, Transmit;
      if !ok {
        RetriesSave(v1, k, queued, i + 1, f);
      } else if f.resendSave(i) == Done {
        RetriesSave(Save(v1, Done), k, queued, i + 1, f);
      }
    }
  }

  lemma {:induction false} RefreshWithoutEvents(v: View, k: Contact, i: nat, events: seq<Event>, f: PollFates)
    requires i <= |v.history.entries|
    ensures var (v', all) := RefreshFrom(v, k, i, events, f);
      |all| >= |events| && (|all| == |events| ==> v' == v) && v'.history.cursor == v.history.cursor && v'.saved == v.saved
    decreases |v.history.entries| - i
  {
    if i < |v.history.entries| {
      var v1 := RefreshEntry(v, k, i, f.reached(i));
      RefreshWithoutEvents(
        v1, k, i + 1, if v1 != v then events + [ReadEvent(v.history.entries[i].text)] else events, f);
    }
  }

  /** Whatever a page has added is on disk, and if it has added nothing the disk is as it was. */
  predicate PageSaved(v: View, v': View) {
    && v.history.cursor <= v'.history.cursor
    && (|| (v'.saved == v.saved && v'.history.entries == v.history.entries)
        || (v'.saved.entries == v'.history.entries && v.history.cursor <= v'.saved.cursor <= v'.history.cursor))
  }

  lemma {:induction false} PageSaves(v: View, k: Contact, i: nat, events: seq<Event>, f: PollFates)
    ensures var (v', r) := TakeFrom(v, k, i, events, f); r.Success? ==> PageSaved(v, v')
    decreases |v.page|
  {
    if v.page != [] {
      var h := f.handling(i);
      var (v1, r1) := Take(v, k, h);
      TakeSucceedsIff(v, k, h);
      TakeShows(v, k, h);
      TakeForeign(v, k, h);
      hide Take, EventsOf, Theirs;
      if r1.Success? { PageSaves(v1, k, i + 1, events + r1.value, f); }
    }
  }

  lemma TakeForeign(v: View, k: Contact, h: Handling)
    requires v.page != []
    ensures !Theirs(k, v.page[0]) ==> Take(v, k, h).0 == v.(page := v.page[1..])
  {
  }

  /** What a poll that succeeds goes through. */
  lemma PollParts(v: View, k: Contact, f: PollFates)
    requires Poll(v, k, f).1.Success?
    ensures var (start, read) := RefreshFrom(v, k, 0, [], f);
      var stored := if read != [] then Save(start, f.statusSave) else start;
      var retried := RetryFrom(stored, k, Outbox(stored.history.entries), 0, f).0;
      var fetched := Fetch(retried, k, Done, f.now).0;
      var (taken, r) := TakeFrom(fetched, k, 0, read, f);
      && f.receive == Done && (read != [] ==> f.statusSave == Done)
      && RetryFrom(stored, k, Outbox(stored.history.entries), 0, f).1
      && r.Success? && Poll(v, k, f).1 == r
      && Poll(v, k, f).0 == (if read != [] || taken.history.cursor != fetched.history.cursor
                             then Save(taken, Done) else taken)
  {
    hide RefreshFrom, RetryFrom, Outbox, Receive, TakeFrom;
  }

  /** Where the history of a poll ends, however it ends: after the status loop, the retries, or the page loop. */
  lemma PollHistory(v: View, k: Contact, f: PollFates)
    ensures var (start, read) := RefreshFrom(v, k, 0, [], f);
      var stored := if read != [] then Save(start, f.statusSave) else start;
      var retried := RetryFrom(stored, k, Outbox(stored.history.entries), 0, f).0;
      var fetched := Fetch(retried, k, f.receive, f.now).0;
      Poll(v, k, f).0.history in {stored.history, retried.history, TakeFrom(fetched, k, 0, read, f).0.history}
  {
    hide RefreshFrom, RetryFrom, Outbox, Receive, TakeFrom;
  }

  /** A poll that succeeds has saved all there is to save. */
  lemma PollSaves(v: View, k: Contact, f: PollFates)
    requires Poll(v, k, f).1.Success?
    ensures SavedOrSame(v, Poll(v, k, f).0)
  {
    PollParts(v, k, f);
    RefreshWithoutEvents(v, k, 0, [], f);
    var (start, read) := RefreshFrom(v, k, 0, [], f);
    var stored := if read != [] then Save(start, f.statusSave) else start;
    RetriesSave(stored, k, Outbox(stored.history.entries), 0, f);
    var retried := RetryFrom(stored, k, Outbox(stored.history.entries), 0, f).0;
    var fetched := Fetch(retried, k, Done, f.now).0;
    assert fetched.history == retried.history && fetched.saved == retried.saved;
    PageSaves(fetched, k, 0, read, f);
    hide Poll, RefreshFrom, RetryFrom, Outbox, Fetch, TakeFrom;
  }

  lemma FetchKeepsHistory(v: View, k: Contact, fate: Fate, now: nat)
    ensures Fetch(v, k, fate, now).0.history == v.history
  {
  }

  /** However it ends, a poll adds only messages of the contact behind the entries there are, each with its text and the
      contact's name. */
  lemma PollShows(v: View, k: Contact, f: PollFates)
    ensures var h := Poll(v, k, f).0.history; var n := |v.history.entries|;
      n <= |h.entries| && ShowTexts(k, h.entries, n)
  {
    PollHistory(v, k, f);
    var (start, read) := RefreshFrom(v, k, 0, [], f);
    var stored := if read != [] then Save(start, f.statusSave) else start;
    assert stored.history == start.history;
    var queued := Outbox(stored.history.entries);
    RetriesSave(stored, k, queued, 0, f);
    var retried := RetryFrom(stored, k, queued, 0, f).0;
    FetchKeepsHistory(retried, k, f.receive, f.now);
    var fetched := Fetch(retried, k, f.receive, f.now).0;
    PageAnnounces(fetched, k, 0, read, f);
    hide Poll, RefreshFrom, RetryFrom, Outbox, Fetch, TakeFrom, ShowTexts, Announced, Save;
    NoneAdded(k, stored.history.entries, retried.history.entries);
  }

  /** If it succeeds, its first events are the entries the relay reports as read, and the messages announced are exactly
      those added, in order. */
  lemma PollAnnounces(v: View, k: Contact, f: PollFates)
    requires Poll(v, k, f).1.Success?
    ensures var (p, r) := Poll(v, k, f); var n := |v.history.entries|;
      && n <= |p.history.entries|
      && NewlyRead(v.history.entries, RefreshFrom(v, k, 0, [], f).0.history.entries, 0) <= r.value
      && ReceivedOf(r.value) == Announced(k, p.history.entries[n..])
  {
    hide Poll, RefreshFrom, RetryFrom, Outbox, Fetch, TakeFrom, Announced, ReceivedOf, NewlyRead, ShowTexts;
    StatusEvents(v, k, f);
    PollParts(v, k, f);
    var (start, read) := RefreshFrom(v, k, 0, [], f);
    var stored := if read != [] then Save(start, f.statusSave) else start;
    assert stored.history == start.history;
    var queued := Outbox(stored.history.entries);
    RetriesSave(stored, k, queued, 0, f);
    var retried := RetryFrom(stored, k, queued, 0, f).0;
    FetchKeepsHistory(retried, k, Done, f.now);
    var fetched := Fetch(retried, k, Done, f.now).0;
    PageAnnounces(fetched, k, 0, read, f);
    PageExtends(fetched, k, 0, read, f);
    var (taken, r) := TakeFrom(fetched, k, 0, read, f);
    assert [] + Announced(k, taken.history.entries[|v.history.entries|..])
        == Announced(k, taken.history.entries[|v.history.entries|..]);
  }

  lemma StatusEvents(v: View, k: Contact, f: PollFates)
    ensures var (start, read) := RefreshFrom(v, k, 0, [], f);
      && |start.history.entries| == |v.history.entries|
      && read == NewlyRead(v.history.entries, start.history.entries, 0) && ReceivedOf(read) == []
  {
    RefreshAnnounces(v, k, 0, [], f);
    var (start, read) := RefreshFrom(v, k, 0, [], f);
    assert read == NewlyRead(v.history.entries, start.history.entries, 0);
    NewlyReadOnly(v.history.entries, start.history.entries, 0);
    hide RefreshFrom, NewlyRead, ReceivedOf;
  }

  lemma NoneAdded(k: Contact, a: seq<Entry>, b: seq<Entry>)
    requires |a| == |b|
    ensures ShowTexts(k, a, |a|) && ShowTexts(k, b, |a|)
  {
  }

  lemma {:induction false} PageExtends(v: View, k: Contact, i: nat, events: seq<Event>, f: PollFates)
    ensures var r := TakeFrom(v, k, i, events, f).1; r.Success? ==> events <= r.value
    decreases |v.page|
  {
    if v.page != [] {
      TakeSucceedsIff(v, k, f.handling(i));
      var (v1, r1) := Take(v, k, f.handling(i));
      hide Take, Settles, EventsOf;
      if r1.Success? { PageExtends(v1, k, i + 1, events + r1.value, f); }
    }
  }

  lemma {:induction false} NewlyReadOnly(before: seq<Entry>, after: seq<Entry>, from: nat)
    requires from <= |before| == |after|
    ensures ReceivedOf(NewlyRead(before, after, from)) == []
    decreases |before| - from
  {
    if from < |before| {
      var head := if before[from].status != Read && after[from].status == Read then [ReadEvent(before[from].text)] else [];
      NewlyReadOnly(before, after, from + 1);
      ReceivedOfAppend(head, NewlyRead(before, after, from + 1));
      if head != [] { assert head[..0] == []; }
    }
  }

  // ---------------------------------------------------------------- resubmissions and the request for a page

  /** The submission of this outbox entry takes effect and is answered. */
  predicate Accepted(q: Queue, e: Entry, fate: Fate) {
    fate == Done && e.recipient in q.directory
  }

  lemma SubmitIff(v: View, k: Contact, e: Entry, fate: Fate, now: nat)
    ensures var (v', ok) := Submit(v, k, e.recipient, e.messageId, e.ciphertext, fate, now);
      && (ok <==> Accepted(v.relay, e, fate)) && v'.relay.directory == v.relay.directory
      && v'.saved == v.saved && (!ok ==> v'.history == v.history)
  {
  }

  /** The retries run to their end exactly if every accepted resubmission can be saved. */
  lemma {:induction false} RetriesEndIff(v: View, k: Contact, queued: seq<Entry>, i: nat, f: PollFates)
    requires i <= |queued|
    ensures RetryFrom(v, k, queued, i, f).1
       <==> forall j :: i <= j < |queued| && Accepted(v.relay, queued[j], f.resend(j)) ==> f.resendSave(j) == Done
    decreases |queued| - i
  {
    if i < |queued| {
      var e := queued[i];
      var (v1, ok) := Submit(v, k, e.recipient, e.messageId, e.ciphertext, f.resend(i), f.now);
      SubmitIff(v, k, e, f.resend(i), f.now);
      hide Submit;
      if !ok {
        RetriesEndIff(v1, k, queued, i + 1, f);
      } else if f.resendSave(i) == Done {
        RetriesEndIff(Save(v1, Done), k, queued, i + 1, f);
      }
    }
  }

  /** Every entry of the outbox is tried, whatever becomes of the others: with saves that succeed, one that is accepted is
      `sent` afterwards and any other is still queued; and one whose submission gets to a relay that knows its recipient
      has a row there. */
  lemma {:induction false} RetriesTryAll(v: View, k: Contact, queued: seq<Entry>, i: nat, f: PollFates, j: nat, at: nat)
    requires i <= j < |queued| && UniqueIds(v.history.entries) && Pending(v.history.entries, queued, i)
    requires at < |v.history.entries| && v.history.entries[at] == queued[j]
    requires forall n :: f.resendSave(n) == Done
    ensures var (v', ok) := RetryFrom(v, k, queued, i, f); var e := queued[j];
      && ok && at < |v'.history.entries|
      && v'.history.entries[at] == (if Accepted(v.relay, e, f.resend(j)) then e.(status := Sent) else e)
      && (f.resend(j) != LostBefore && e.recipient in v.relay.directory ==> Stored(v'.relay, k, e))
    decreases |queued| - i
  {
    var e := queued[i];
    var index := RetryTurn(v, k, queued, i, f.resend(i), f.now);
    var (v1, ok) := Submit(v, k, e.recipient, e.messageId, e.ciphertext, f.resend(i), f.now);
    SubmitIff(v, k, e, f.resend(i), f.now);
    SubmitStores(v, k, e, f.resend(i), f.now);
    var v2 := if ok then Save(v1, Done) else v1;
    assert v2.history == v1.history && v2.relay == v1.relay;
    assert RetryFrom(v, k, queued, i, f) == RetryFrom(v2, k, queued, i + 1, f);
    hide Submit, Save;
    if j > i {
      assert at != index;
      RetriesTryAll(v2, k, queued, i + 1, f, j, at);
    } else {
      assert at == index;
      SettledStays(v2, k, queued, i + 1, f, at, e);
    }
  }

  lemma SubmitStores(v: View, k: Contact, e: Entry, fate: Fate, now: nat)
    ensures var v' := Submit(v, k, e.recipient, e.messageId, e.ciphertext, fate, now).0;
      fate != LostBefore && e.recipient in v.relay.directory ==> Stored(v'.relay, k, e)
  {
  }

  /** An entry that has had its turn keeps its status, and a row its place. */
  lemma {:induction false} SettledStays(v: View, k: Contact, queued: seq<Entry>, i: nat, f: PollFates, at: nat, e: Entry)
    requires i <= |queued| && UniqueIds(v.history.entries) && Pending(v.history.entries, queued, i)
    requires at < |v.history.entries| && v.history.entries[at].messageId == e.messageId
    requires forall j :: i <= j < |queued| ==> queued[j].messageId != e.messageId
    requires forall n :: f.resendSave(n) == Done
    ensures var (v', ok) := RetryFrom(v, k, queued, i, f);
      && ok && at < |v'.history.entries| && v'.history.entries[at] == v.history.entries[at]
      && (Stored(v.relay, k, e) ==> Stored(v'.relay, k, e))
    decreases |queued| - i
  {
    if i < |queued| {
      var index := RetryTurn(v, k, queued, i, f.resend(i), f.now);
      var (v1, ok) := Submit(
        v, k, queued[i].recipient, queued[i].messageId, queued[i].ciphertext, f.resend(i), f.now);
      var v2 := if ok then Save(v1, Done) else v1;
      assert v2.history == v1.history && v2.relay == v1.relay;
      assert RetryFrom(v, k, queued, i, f) == RetryFrom(v2, k, queued, i + 1, f);
      hide Submit, Save;
      SettledStays(v2, k, queued, i + 1, f, at, e);
    }
  }

  /** A request for a page purges the relay if it gets there, and yields the page exactly if the answer comes back. */
  lemma FetchOutcome(v: View, k: Contact, fate: Fate, now: nat)
    ensures var (v', ok) := Fetch(v, k, fate, now);
      && (ok <==> fate == Done)
      && v'.relay == (if fate == LostBefore then v.relay else Receive(v.relay, k.owner, v.history.cursor, now).0)
      && v'.page == (if fate == Done then Receive(v.relay, k.owner, v.history.cursor, now).1 else v.page)
      && v'.history == v.history && v'.saved == v.saved && v'.spent == v.spent
  {
  }

  // ---------------------------------------------------------------- success and failure

  /** A poll succeeds exactly if what the status loop marks can be saved, the retries run to their end, the page is
      received, every message on it can be handled, and what is left to save can be saved; it fails with the error of the
      first of these that does not hold. */
  lemma PollSucceedsIff(v: View, k: Contact, f: PollFates)
    ensures var (start, read) := RefreshFrom(v, k, 0, [], f); var r := Poll(v, k, f).1;
      var stored := if read != [] then Save(start, f.statusSave) else start;
      var (retried, ok) := RetryFrom(stored, k, Outbox(stored.history.entries), 0, f);
      var fetched := Fetch(retried, k, f.receive, f.now).0;
      var (taken, all) := TakeFrom(fetched, k, 0, read, f);
      var unsaved := read != [] || taken.history.cursor != fetched.history.cursor;
      r == if read != [] && f.statusSave != Done then Failure(StorageFailed)
           else if !ok then Failure(StorageFailed)
           else if f.receive != Done then Failure(TransportFailed)
           else if all.Failure? then all
           else if unsaved && f.lastSave != Done then Failure(StorageFailed)
           else all
  {
    hide RefreshFrom, RetryFrom, Outbox, Receive, TakeFrom;
  }
}
