/** What a poll does for the sender: with nothing failing the outbox empties onto the relay, and a read receipt that
    is reported is shown, whatever else fails. */
module Sending {
  import opened Wrappers
  import opened RelayQueue
  import opened ChatView
  import opened DeliverySteps
  import opened ChatCalls
  import opened Drain

  /** Resubmissions and the saves that belong to them succeed. */
  ghost predicate Sure(f: PollFates) {
    f.statusSave == Done && forall i :: f.resend(i) == f.resendSave(i) == Done
  }

  /** Every recipient in the outbox is known to the relay. */
  predicate Addressed(q: Queue, entries: seq<Entry>) {
    forall i :: 0 <= i < |entries| && InOutbox(entries[i]) ==> entries[i].recipient in q.directory
  }

  /** The relay has a row for the message. */
  predicate Stored(q: Queue, k: Contact, e: Entry) {
    e.recipient in q.directory && Key(k.owner, q.directory[e.recipient], e.messageId) in q.index
  }

  /** The relay has a row for every message that is in an outbox. */
  predicate AllStored(q: Queue, k: Contact, entries: seq<Entry>) {
    forall i :: 0 <= i < |entries| && InOutbox(entries[i]) ==> Stored(q, k, entries[i])
  }

  // ---------------------------------------------------------------- the status loop

  /** The status loop changes exactly the entries whose receipt is reported. */
  lemma {:induction false} RefreshMarksExactly(v: View, k: Contact, from: nat, events: seq<Event>, f: PollFates, i: nat)
    requires from <= |v.history.entries| && i < |v.history.entries|
    ensures var e := v.history.entries[i];
      RefreshFrom(v, k, from, events, f).0.history.entries[i]
      == if from <= i && AwaitsReceipt(e) && Reported(v.relay, k, e, f.reached(i)) then e.(status := Read) else e
    decreases |v.history.entries| - from
  {
    hide Reported;
    if from < |v.history.entries| {
      var v' := RefreshEntry(v, k, from, f.reached(from));
      RefreshMarksExactly(
        v', k, from + 1, if v' != v then events + [ReadEvent(v.history.entries[from].text)] else events, f, i);
    }
  }

  // ---------------------------------------------------------------- the retry loop

  /** Whatever is still in the outbox is still to be retried. */
  ghost predicate Listed(entries: seq<Entry>, queued: seq<Entry>, i: nat)
    requires i <= |queued|
  {
    forall at :: 0 <= at < |entries| && InOutbox(entries[at]) ==> entries[at] in queued[i..]
  }

  lemma {:induction false} OutboxLists(entries: seq<Entry>)
    ensures Listed(entries, Outbox(entries), 0)
    decreases |entries|
  {
    if entries != [] {
      OutboxLists(entries[1..]);
      forall at | 0 <= at < |entries| && InOutbox(entries[at]) ensures entries[at] in Outbox(entries)[0..] {
        if at > 0 { assert entries[1..][at - 1] == entries[at]; }
      }
    }
  }

  /** One resubmission marks its own entry or nothing. */
  lemma RetryTurn(v: View, k: Contact, queued: seq<Entry>, i: nat, fate: Fate, now: nat) returns (index: nat)
    requires i < |queued| && UniqueIds(v.history.entries) && Pending(v.history.entries, queued, i)
    ensures index < |v.history.entries| && v.history.entries[index] == queued[i]
    ensures var e := queued[i]; var (v', ok) := Submit(v, k, e.recipient, e.messageId, e.ciphertext, fate, now);
      && v'.history == (if ok then v.history.(entries := v.history.entries[index := e.(status := Sent)]) else v.history)
      && UniqueIds(v'.history.entries) && Pending(v'.history.entries, queued, i + 1)
      && v'.relay.directory == v.relay.directory
      && (forall key :: key in v.relay.index ==> key in v'.relay.index)
      && (ok ==> Stored(v'.relay, k, e))
      && (fate == Done && e.recipient in v.relay.directory ==> ok)
  {
    var e := queued[i];
    index :| 0 <= index < |v.history.entries| && v.history.entries[index] == e;
    MarkSentGrows(v.history, index);
    StillPending(v.history, queued, i, index);
    hide MarkSent;
  }

  /** The retry loop leaves every entry that was not in the outbox alone. */
  lemma {:induction false} RetriesKeepOthers(v: View, k: Contact, queued: seq<Entry>, i: nat, f: PollFates, other: nat)
    requires i <= |queued| && UniqueIds(v.history.entries) && Pending(v.history.entries, queued, i)
    requires other < |v.history.entries| && !InOutbox(v.history.entries[other])
    ensures var h := RetryFrom(v, k, queued, i, f).0.history;
      other < |h.entries| && h.entries[other] == v.history.entries[other]
    decreases |queued| - i
  {
    hide Submit;
    if i < |queued| {
      var e := queued[i];
      var index := RetryTurn(v, k, queued, i, f.resend(i), f.now);
      var (v', ok) := Submit(v, k, e.recipient, e.messageId, e.ciphertext, f.resend(i), f.now);
      if !ok {
        RetriesKeepOthers(v', k, queued, i + 1, f, other);
      } else if f.resendSave(i) == Done {
        RetriesKeepOthers(Save(v', Done), k, queued, i + 1, f, other);
      }
    }
  }

  /** With nothing failing the retry loop empties the outbox, and every message that was in it is on the relay. */
  lemma {:induction false} RetriesEmptyOutbox(v: View, k: Contact, queued: seq<Entry>, i: nat, f: PollFates)
    requires i <= |queued| && UniqueIds(v.history.entries) && Pending(v.history.entries, queued, i)
    requires Listed(v.history.entries, queued, i) && Sure(f)
    requires forall j :: i <= j < |queued| ==> queued[j].recipient in v.relay.directory
    ensures var (v', ok) := RetryFrom(v, k, queued, i, f);
      && ok && Quiet(v'.history) && v'.relay.directory == v.relay.directory
      && (forall key :: key in v.relay.index ==> key in v'.relay.index)
      && (forall j :: i <= j < |queued| ==> Stored(v'.relay, k, queued[j]))
    decreases |queued| - i
  {
    hide Submit;
    if i < |queued| {
      var e := queued[i];
      var index := RetryTurn(v, k, queued, i, Done, f.now);
      var v1 := Save(Submit(v, k, e.recipient, e.messageId, e.ciphertext, Done, f.now).0, Done);
      forall at | 0 <= at < |v1.history.entries| && InOutbox(v1.history.entries[at])
        ensures v1.history.entries[at] in queued[i + 1..]
      {
        assert v1.history.entries[at] == v.history.entries[at];
        assert v.history.entries[at] in queued[i..];
        assert v.history.entries[at].messageId != v.history.entries[index].messageId;
        assert queued[i..] == [e] + queued[i + 1..];
      }
      RetriesEmptyOutbox(v1, k, queued, i + 1, f);
    }
  }

  // ---------------------------------------------------------------- the page loop

  /** Handling a page puts nothing into the outbox and changes no entry that is there. */
  lemma {:induction false} PageKeepsEntries(v: View, k: Contact, i: nat, events: seq<Event>, f: PollFates)
    ensures var h := TakeFrom(v, k, i, events, f).0.history;
      && |v.history.entries| <= |h.entries|
      && (forall at :: 0 <= at < |v.history.entries| ==> h.entries[at] == v.history.entries[at])
      && (Quiet(v.history) ==> Quiet(h))
    decreases |v.page|
  {
    if v.page != [] {
      var (v1, r) := Take(v, k, f.handling(i));
      TakeKeepsEntries(v, k, f.handling(i));
      hide Take;
      if r.Success? && |v1.page| < |v.page| { PageKeepsEntries(v1, k, i + 1, events + r.value, f); }
    }
  }

  lemma TakeKeepsEntries(v: View, k: Contact, h: Handling)
    requires v.page != []
    ensures var (v', r) := Take(v, k, h);
      && |v.history.entries| <= |v'.history.entries|
      && (forall at :: 0 <= at < |v.history.entries| ==> v'.history.entries[at] == v.history.entries[at])
      && (forall at :: |v.history.entries| <= at < |v'.history.entries| ==> v'.history.entries[at].status == Received)
      && (r.Success? ==> |v'.page| < |v.page|)
  {
  }

  // ---------------------------------------------------------------- a poll

  lemma RefreshKeepsOutbox(v: View, k: Contact, f: PollFates)
    ensures var entries := RefreshFrom(v, k, 0, [], f).0.history.entries;
      && (forall i :: 0 <= i < |entries| ==> (InOutbox(entries[i]) <==> InOutbox(v.history.entries[i])))
      && (forall i :: 0 <= i < |entries| && InOutbox(entries[i]) ==> entries[i] == v.history.entries[i])
  {
    var entries := RefreshFrom(v, k, 0, [], f).0.history.entries;
    forall i | 0 <= i < |entries|
      ensures InOutbox(entries[i]) <==> InOutbox(v.history.entries[i])
      ensures InOutbox(v.history.entries[i]) ==> entries[i] == v.history.entries[i]
    {
      RefreshMarksExactly(v, k, 0, [], f, i);
    }
  }

  /** What follows the retries in a poll keeps the entries there are and puts nothing into the outbox. */
  lemma PollKeepsEntries(v: View, k: Contact, f: PollFates)
    ensures var before, after := Prepared(v, k, f).0.history, Poll(v, k, f).0.history;
      && |before.entries| <= |after.entries|
      && (forall at :: 0 <= at < |before.entries| ==> after.entries[at] == before.entries[at])
      && (Quiet(before) ==> Quiet(after))
  {
    hide RefreshFrom, RetryFrom, TakeFrom, Outbox, Quiet;
    var (retried, ok) := Prepared(v, k, f);
    var fetched := Fetch(retried, k, f.receive, f.now).0;
    assert fetched.history == retried.history;
    hide Fetch;
    PageKeepsEntries(fetched, k, 0, RefreshFrom(v, k, 0, [], f).1, f);
  }

  /** The history the retry loop starts from. */
  lemma RetriesStart(v: View, k: Contact, f: PollFates)
    requires UniqueIds(v.history.entries)
    ensures var refreshed := RefreshFrom(v, k, 0, [], f).0.history;
      UniqueIds(refreshed.entries) && Pending(refreshed.entries, Outbox(refreshed.entries), 0)
      && Listed(refreshed.entries, Outbox(refreshed.entries), 0)
  {
    RefreshKeepsIds(v, k, 0, [], f);
    OutboxIsPending(RefreshFrom(v, k, 0, [], f).0.history.entries);
    OutboxLists(RefreshFrom(v, k, 0, [], f).0.history.entries);
    hide RefreshFrom, Outbox, Pending, Listed;
  }

  lemma QueuedIsAddressed(v: View, k: Contact, f: PollFates)
    requires Addressed(v.relay, v.history.entries)
    ensures var queued := Outbox(RefreshFrom(v, k, 0, [], f).0.history.entries);
      forall j :: 0 <= j < |queued| ==> queued[j].recipient in v.relay.directory
  {
    RefreshKeepsOutbox(v, k, f);
    var entries := RefreshFrom(v, k, 0, [], f).0.history.entries;
    var queued := Outbox(entries);
    forall j | 0 <= j < |queued| ensures queued[j].recipient in v.relay.directory {
      var at :| 0 <= at < |entries| && entries[at] == queued[j];
      assert v.history.entries[at] == queued[j];
    }
  }

  /** By the time a poll whose resubmissions succeed fetches its page, its outbox is empty and every message that was
      in it is on the relay. */
  lemma PreparedEmptiesOutbox(v: View, k: Contact, f: PollFates)
    requires UniqueIds(v.history.entries) && Sure(f) && Addressed(v.relay, v.history.entries)
    ensures Prepared(v, k, f).1 && Quiet(Prepared(v, k, f).0.history)
    ensures AllStored(Prepared(v, k, f).0.relay, k, v.history.entries)
  {
    hide RefreshFrom, RetryFrom, Outbox, Pending, Quiet, Stored;
    RetriesStart(v, k, f);
    RefreshKeepsOutbox(v, k, f);
    QueuedIsAddressed(v, k, f);
    var refreshed := RefreshFrom(v, k, 0, [], f).0;
    var queued := Outbox(refreshed.history.entries);
    var stored := if RefreshFrom(v, k, 0, [], f).1 != [] then Save(refreshed, Done) else refreshed;
    assert stored.history == refreshed.history && stored.relay == v.relay;
    RetriesEmptyOutbox(stored, k, queued, 0, f);
    forall i | 0 <= i < |v.history.entries| && InOutbox(v.history.entries[i])
      ensures Stored(Prepared(v, k, f).0.relay, k, v.history.entries[i])
    {
      assert refreshed.history.entries[i] in queued[0..];
      var j :| 0 <= j < |queued| && queued[j] == refreshed.history.entries[i];
    }
  }

  /** A poll whose resubmissions succeed leaves the outbox empty, whatever becomes of the page it fetches. */
  lemma PollEmptiesOutbox(v: View, k: Contact, f: PollFates)
    requires UniqueIds(v.history.entries) && Sure(f) && Addressed(v.relay, v.history.entries)
    ensures Quiet(Poll(v, k, f).0.history)
  {
    hide Poll, Prepared, Quiet;
    PreparedEmptiesOutbox(v, k, f);
    PollKeepsEntries(v, k, f);
  }

  /** A receipt the relay reports is shown after the poll, however much of the rest of the poll fails. */
  lemma ReportedReceiptIsShown(v: View, k: Contact, f: PollFates, i: nat)
    requires UniqueIds(v.history.entries) && i < |v.history.entries|
    requires AwaitsReceipt(v.history.entries[i]) && Reported(v.relay, k, v.history.entries[i], f.reached(i))
    ensures var h := Poll(v, k, f).0.history;
      i < |h.entries| && h.entries[i] == v.history.entries[i].(status := Read)
  {
    hide Poll, RefreshFrom, RetryFrom, Outbox, Pending, Reported;
    RefreshMarksExactly(v, k, 0, [], f, i);
    RetriesStart(v, k, f);
    var (refreshed, read) := RefreshFrom(v, k, 0, [], f);
    var stored := if read != [] then Save(refreshed, f.statusSave) else refreshed;
    assert stored.history == refreshed.history;
    RetriesKeepOthers(stored, k, Outbox(stored.history.entries), 0, f, i);
    PollKeepsEntries(v, k, f);
  }
}
