/** What one call of the chat service reads and writes, and the steps the service is made of, on values. */
module ChatView {
  import opened Wrappers
  import opened RelayQueue

  datatype DeliveryStatus = Queued | Sent | Read | Received

  /** The sender name the service gives to its own entries. */
  const SELF := "you"

  datatype Entry = Entry(
    sender: string, text: string, messageId: MessageId, ciphertext: Envelope, status: DeliveryStatus,
    recipient: string)

  datatype History = History(entries: seq<Entry>, cursor: int)

  const EMPTY_HISTORY := History([], 0)

  datatype Event =
    | SentEvent(text: string)
    | ReadEvent(text: string)
    | ReceivedEvent(sender: string, text: string)
    | StaleEvent(serverId: nat)

  /** One conversation: whose it is, the peer's display name, Signal address and, if known, relay client id. */
  datatype Contact = Contact(owner: ClientId, name: string, address: string, relayId: Option<ClientId>)

  /** The relay, the envelopes the owner's Signal state has already opened, the history in memory and on disk,
      and the part of a fetched page that is still to be handled. */
  datatype View = View(relay: Queue, spent: set<Envelope>, history: History, saved: History, page: seq<Message>)

  datatype Fault = StorageFailed | TransportFailed | DecryptFailed | NotText

  // ---------------------------------------------------------------- single steps

  function Save(v: View, fate: Fate): View {
    if fate == LostBefore then v else v.(saved := v.history)
  }

  predicate HasId(entries: seq<Entry>, id: MessageId) {
    exists i :: 0 <= i < |entries| && entries[i].messageId == id
  }

  function IndexOf(entries: seq<Entry>, id: MessageId, from: nat): (found: Option<nat>)
    requires from <= |entries|
    ensures found.Some? ==> from <= found.value < |entries| && entries[found.value].messageId == id
    ensures found.Some? ==> forall i :: from <= i < found.value ==> entries[i].messageId != id
    ensures found.None? ==> forall i :: from <= i < |entries| ==> entries[i].messageId != id
    decreases |entries| - from
  {
    if from == |entries| then None
    else if entries[from].messageId == id then Some(from)
    else IndexOf(entries, id, from + 1)
  }

  /** The first entry with this id, whatever it is, becomes `sent`. */
  function MarkSent(h: History, id: MessageId): History {
    match IndexOf(h.entries, id, 0)
    case None => h
    case Some(i) => h.(entries := h.entries[i := h.entries[i].(status := Sent)])
  }

  function Compose(v: View, text: string, id: MessageId, c: Envelope, recipient: string): View {
    v.(history := v.history.(entries := v.history.entries + [Entry(SELF, text, id, c, Queued, recipient)]))
  }

  /** `transport.send`: whether the caller sees success, and the relay afterwards. */
  function Transmit(q: Queue, k: Contact, recipient: string, id: MessageId, c: Envelope, fate: Fate, now: nat)
    : (Queue, bool)
  {
    if fate == LostBefore then (q, false)
    else
      var (q', r) := Send(q, k.owner, recipient, id, c, None, now);
      (q', fate == Done && r.Success?)
  }

  function Submit(v: View, k: Contact, recipient: string, id: MessageId, c: Envelope, fate: Fate, now: nat)
    : (View, bool)
  {
    var (q, ok) := Transmit(v.relay, k, recipient, id, c, fate, now);
    (v.(relay := q, history := if ok then MarkSent(v.history, id) else v.history), ok)
  }

  predicate AwaitsReceipt(e: Entry) {
    e.sender == SELF && e.status == Sent && e.messageId != ""
  }

  predicate Reported(q: Queue, k: Contact, e: Entry, reached: bool) {
    reached && Status(q, k.owner, e.messageId) == Success(true)
  }

  function RefreshEntry(v: View, k: Contact, i: nat, reached: bool): View {
    if i < |v.history.entries| && AwaitsReceipt(v.history.entries[i])
       && Reported(v.relay, k, v.history.entries[i], reached) then
      v.(history := v.history.(entries := v.history.entries[i := v.history.entries[i].(status := Read)]))
    else
      v
  }

  function Fetch(v: View, k: Contact, fate: Fate, now: nat): (View, bool) {
    if fate == LostBefore then (v, false)
    else
      var (q, page) := Receive(v.relay, k.owner, v.history.cursor, now);
      if fate == Done then (v.(relay := q, page := page), true) else (v.(relay := q), false)
  }

  predicate FromContact(k: Contact, m: Message) {
    m.senderAddress == Some(k.address) || k.relayId == Some(m.sender)
  }

  /** What the surroundings decide while one fetched message is handled: the fate of the decryption, which can use the
      envelope up and fail all the same, when the message in it is malformed or the new session is not committed, and
      the fate of the save and of the acknowledgement. */
  datatype Handling = Handling(opens: Fate, save: Fate, acknowledge: Fate, now: nat)

  function Abort(v: View): View {
    v.(page := [])
  }

  function Incoming(k: Contact, c: Envelope): Entry
    requires c.text.Some?
  {
    Entry(k.name, c.text.value, c.id, c, Received, "")
  }

  /** `acknowledge` followed by `advance_cursor`, then on to the next message. */
  function Settle(v: View, k: Contact, fate: Fate, now: nat): (View, Result<(), Fault>)
    requires v.page != []
  {
    var id := v.page[0].serverId;
    var (q, r) := if fate == LostBefore then (v.relay, Failure(NotFound)) else Acknowledge(v.relay, k.owner, id, now);
    if fate == Done && r.Success? then
      var cursor := if id > v.history.cursor then id else v.history.cursor;
      (v.(relay := q, history := v.history.(cursor := cursor), page := v.page[1..]), Success(()))
    else
      (Abort(v.(relay := q)), Failure(TransportFailed))
  }

  /** One turn of the loop over the fetched page. */
  function Take(v: View, k: Contact, h: Handling): (View, Result<seq<Event>, Fault>)
    requires v.page != []
  {
    var m := v.page[0];
    if !FromContact(k, m) then
      (v.(page := v.page[1..]), Success([]))
    else if h.opens == LostBefore then
      (Abort(v), Failure(DecryptFailed))
    else if m.ciphertext in v.spent then
      var (v', r) := Settle(v, k, h.acknowledge, h.now);
      (v', if r.Success? then Success([StaleEvent(m.serverId)]) else Failure(r.error))
    else
      var decrypted := v.(spent := v.spent + {m.ciphertext});
      if h.opens != Done then
        (Abort(decrypted), Failure(DecryptFailed))
      else if HasId(v.history.entries, m.ciphertext.id) then
        var (v', r) := Settle(decrypted, k, h.acknowledge, h.now);
        (v', if r.Success? then Success([]) else Failure(r.error))
      else if m.ciphertext.text.None? then
        (Abort(decrypted), Failure(NotText))
      else
        var entry := Incoming(k, m.ciphertext);
        var pushed := decrypted.(history := v.history.(entries := v.history.entries + [entry]));
        var stored := Save(pushed, h.save);
        if h.save != Done then
          (Abort(stored), Failure(StorageFailed))
        else
          var (v', r) := Settle(stored, k, h.acknowledge, h.now);
          (v', if r.Success? then Success([ReceivedEvent(k.name, entry.text)]) else Failure(r.error))
  }

  // ---------------------------------------------------------------- send_text

  datatype SendFates = SendFates(before: Fate, submit: Fate, after: Fate, now: nat)

  function SendText(v: View, k: Contact, text: string, id: MessageId, c: Envelope, recipient: string, f: SendFates)
    : (View, Result<Event, Fault>)
  {
    var stored := Save(Compose(v, text, id, c, recipient), f.before);
    if f.before != Done then (stored, Failure(StorageFailed))
    else
      var (sent, ok) := Submit(stored, k, recipient, id, c, f.submit, f.now);
      if !ok then (sent, Failure(TransportFailed))
      else (Save(sent, f.after), if f.after == Done then Success(SentEvent(text)) else Failure(StorageFailed))
  }

  // ---------------------------------------------------------------- poll

  /** The outside world during one poll, indexed by loop turn. */
  datatype PollFates = PollFates(
    reached: nat -> bool, statusSave: Fate, resend: nat -> Fate, resendSave: nat -> Fate, receive: Fate,
    handling: nat -> Handling, lastSave: Fate, now: nat)

  /** The loop over the entries from the `i`-th on, `events` being those of the turns before. */
  function RefreshFrom(v: View, k: Contact, i: nat, events: seq<Event>, f: PollFates): (View, seq<Event>)
    requires i <= |v.history.entries|
    ensures RefreshFrom(v, k, i, events, f).0 == v.(history := RefreshFrom(v, k, i, events, f).0.history)
    ensures |RefreshFrom(v, k, i, events, f).0.history.entries| == |v.history.entries|
    decreases |v.history.entries| - i
  {
    if i == |v.history.entries| then (v, events)
    else
      var v' := RefreshEntry(v, k, i, f.reached(i));
      RefreshFrom(v', k, i + 1, if v' != v then events + [ReadEvent(v.history.entries[i].text)] else events, f)
  }

  predicate InOutbox(e: Entry) {
    e.sender == SELF && e.status == Queued
  }

  function Outbox(entries: seq<Entry>): (queued: seq<Entry>)
    ensures forall i :: 0 <= i < |queued| ==> queued[i] in entries && InOutbox(queued[i])
  {
    if entries == [] then []
    else (if InOutbox(entries[0]) then [entries[0]] else []) + Outbox(entries[1..])
  }

  function RetryFrom(v: View, k: Contact, queued: seq<Entry>, i: nat, f: PollFates): (View, bool)
    requires i <= |queued|
    decreases |queued| - i
  {
    if i == |queued| then (v, true)
    else
      var e := queued[i];
      var (v', ok) := Submit(v, k, e.recipient, e.messageId, e.ciphertext, f.resend(i), f.now);
      if !ok then RetryFrom(v', k, queued, i + 1, f)
      else if f.resendSave(i) != Done then (Save(v', f.resendSave(i)), false)
      else RetryFrom(Save(v', f.resendSave(i)), k, queued, i + 1, f)
  }

  function TakeFrom(v: View, k: Contact, i: nat, events: seq<Event>, f: PollFates): (View, Result<seq<Event>, Fault>)
    decreases |v.page|
  {
    if v.page == [] then (v, Success(events))
    else
      var (v', r) := Take(v, k, f.handling(i));
      if r.Failure? then (v', r) else TakeFrom(v', k, i + 1, events + r.value, f)
  }

  function Poll(v: View, k: Contact, f: PollFates): (View, Result<seq<Event>, Fault>) {
    var (refreshed, read) := RefreshFrom(v, k, 0, [], f);
    var stored := if read != [] then Save(refreshed, f.statusSave) else refreshed;
    if read != [] && f.statusSave != Done then (stored, Failure(StorageFailed))
    else
      var (retried, ok) := RetryFrom(stored, k, Outbox(stored.history.entries), 0, f);
      if !ok then (retried, Failure(StorageFailed))
      else
        var (fetched, received) := Fetch(retried, k, f.receive, f.now);
        if !received then (fetched, Failure(TransportFailed))
        else
          var (taken, r) := TakeFrom(fetched, k, 0, read, f);
          if r.Failure? then (taken, r)
          else if read != [] || taken.history.cursor != fetched.history.cursor then
            (Save(taken, f.lastSave), if f.lastSave == Done then r else Failure(StorageFailed))
          else
            (taken, r)
  }
}
