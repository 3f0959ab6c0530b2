/** What a caller of `send_text` can rely on: what has been stored, shown and saved when it reports success, and what
    may have happened when it reports a failure. */
module SendOutcome {
  import opened Wrappers
  import opened RelayQueue
  import opened RelayAnswers
  import opened ChatView
  import opened DeliverySteps

  /** The relay has one row of this sender, recipient and message id; it is an old one, or a new one with this envelope
      and without expiry. */
  ghost predicate OnRelay(q: Queue, q': Queue, sender: ClientId, name: string, id: MessageId, c: Envelope) {
    name in q.directory && exists at ::
      && at in q'.rows && Sends(q'.rows[at], sender, q.directory[name], id)
      && (at !in q.rows ==> q'.rows[at].ciphertext == c && q'.rows[at].expiresAt.None? && q'.rows[at].acknowledgedAt.None?)
  }

  /** No row of the relay changes but for the one a submission may add. */
  predicate OthersStay(q: Queue, q': Queue) {
    forall id :: id in q.rows ==> id in q'.rows && q'.rows[id] == q.rows[id]
  }

  lemma TransmitOutcome(q: Queue, k: Contact, name: string, id: MessageId, c: Envelope, fate: Fate, now: nat)
    requires Valid(q)
    ensures var (q', ok) := Transmit(q, k, name, id, c, fate, now);
      && OthersStay(q, q')
      && (ok <==> fate == Done && name in q.directory)
      && (fate == LostBefore ==> q' == q)
      && (fate != LostBefore && name in q.directory ==> OnRelay(q, q', k.owner, name, id, c))
  {
    SendStores(q, k.owner, name, id, c, None, now);
    hide Valid, Send;
  }

  /** The entry that was composed is marked, and no other. */
  lemma MarkNewest(h: History, text: string, id: MessageId, c: Envelope, recipient: string)
    requires !HasId(h.entries, id)
    ensures MarkSent(h.(entries := h.entries + [Entry(SELF, text, id, c, Queued, recipient)]), id)
         == h.(entries := h.entries + [Entry(SELF, text, id, c, Sent, recipient)])
  {
    var all := h.entries + [Entry(SELF, text, id, c, Queued, recipient)];
    var at := IndexOf(all, id, 0);
    assert all[|h.entries|].messageId == id;
    assert at == Some(|h.entries|);
    assert all[|h.entries| := all[|h.entries|].(status := Sent)] == h.entries + [Entry(SELF, text, id, c, Sent, recipient)];
  }

  /** The history after a send: the new entry with this status behind the old ones. */
  predicate Wrote(h: History, h': History, text: string, id: MessageId, c: Envelope, recipient: string, s: DeliveryStatus) {
    h' == History(h.entries + [Entry("you", text, id, c, s, recipient)], h.cursor)
  }

  /** A send under an unused id that reports success has a row on the relay, has marked its entry `sent`, has saved that,
      and reports the text. It succeeds exactly if nothing fails and the relay knows the recipient. */
  lemma SendTextSucceedsIff(
    v: View, k: Contact, text: string, id: MessageId, c: Envelope, recipient: string, f: SendFates)
    requires Valid(v.relay) && !HasId(v.history.entries, id)
    ensures var (v', r) := SendText(v, k, text, id, c, recipient, f);
      && (r.Success? <==> f.before == f.submit == f.after == Done && recipient in v.relay.directory)
      && (r.Success? ==>
            && r.value == SentEvent(text)
            && OnRelay(v.relay, v'.relay, k.owner, recipient, id, c)
            && Wrote(v.history, v'.history, text, id, c, recipient, Sent)
            && v'.saved == v'.history)
  {
    var composed := Compose(v, text, id, c, recipient);
    TransmitOutcome(composed.relay, k, recipient, id, c, f.submit, f.now);
    MarkNewest(v.history, text, id, c, recipient);
    hide Valid, Transmit, OnRelay, HasId, MarkSent, OthersStay;
  }

  /** Whatever a send reports, the entry is in the history, `sent` only if the relay answered that it has the message;
      the message is on the relay if the submission got there; if the first save failed there was no submission; and
      before anything is on the relay the queued entry is saved. */
  lemma SendTextOutcome(v: View, k: Contact, text: string, id: MessageId, c: Envelope, recipient: string, f: SendFates)
    requires Valid(v.relay) && !HasId(v.history.entries, id)
    ensures var (v', r) := SendText(v, k, text, id, c, recipient, f); var known := recipient in v.relay.directory;
      && OthersStay(v.relay, v'.relay)
      && Wrote(v.history, v'.history, text, id, c, recipient,
               if f.before == f.submit == Done && known then Sent else Queued)
      && (f.before != Done || f.submit == LostBefore ==> v'.relay == v.relay)
      && (f.before == Done && f.submit != LostBefore && known ==> OnRelay(v.relay, v'.relay, k.owner, recipient, id, c))
      && (if f.before == LostBefore then v'.saved == v.saved
          else if f.before == f.submit == Done && known && f.after != LostBefore then v'.saved == v'.history
          else Wrote(v.history, v'.saved, text, id, c, recipient, Queued))
      && v'.spent == v.spent && v'.page == v.page
      && (r.Failure? ==>
            r.error == if f.before == Done && !(f.submit == Done && known) then TransportFailed else StorageFailed)
  {
    var composed := Compose(v, text, id, c, recipient);
    TransmitOutcome(composed.relay, k, recipient, id, c, f.submit, f.now);
    MarkNewest(v.history, text, id, c, recipient);
    hide Valid, Transmit, OnRelay, HasId, MarkSent, OthersStay;
  }
}
