/** The chat service as it runs: it updates the caller's history in place and calls save, send and acknowledge in
    a fixed order. Each operation is proved to be the corresponding function of module ChatView. */
module ChatService {
  import opened Wrappers
  import opened RelayQueue
  import opened ChatView
  import Spec = ChatView

  /** The history the front end holds in memory. */
  class HistoryFile {
    var entries: seq<Entry>
    var cursor: int

    constructor ()
      ensures Value() == EMPTY_HISTORY
    {
      entries, cursor := [], 0;
    }

    function Value(): History
      reads this
    {
      History(entries, cursor)
    }
  }

  /** The encrypted history files, one per conversation. */
  class HistoryStore {
    var files: map<string, History>

    constructor ()
      ensures files == map[]
    {
      files := map[];
    }

    method SaveHistory(conversation: string, history: HistoryFile, fate: Fate) returns (ok: bool)
      modifies this
      ensures files == if fate == LostBefore then old(files) else old(files)[conversation := history.Value()]
      ensures ok == (fate == Done)
    {
      if fate != LostBefore {
        files := files[conversation := history.Value()];
      }
      ok := fate == Done;
    }
  }

  datatype Opening = Opened | OldCounter | Refused

  /** The owner's Signal state, reduced to what polling sees of it: an envelope opens at most once, and a decryption
      that fails after it has opened one, as one whose commit fails, has used it up. One that is undone by a restart or
      by reading the session row again has not taken effect. */
  class SignalInbox {
    var spent: set<Envelope>

    constructor ()
      ensures spent == {}
    {
      spent := {};
    }

    method Open(c: Envelope, fate: Fate) returns (r: Opening)
      modifies this
      ensures r == if fate == LostBefore then Refused
                   else if c in old(spent) then OldCounter
                   else if fate == Done then Opened else Refused
      ensures spent == if fate == LostBefore || c in old(spent) then old(spent) else old(spent) + {c}
    {
      if fate == LostBefore { return Refused; }
      if c in spent { return OldCounter; }
      spent := spent + {c};
      r := if fate == Done then Opened else Refused;
    }
  }

  class ChatService {
    const state: SignalInbox
    const transport: Relay
    const store: HistoryStore
    const contact: Contact
    const conversation: string

    constructor (state: SignalInbox, transport: Relay, store: HistoryStore, contact: Contact, conversation: string)
      ensures this.state == state && this.transport == transport && this.store == store
      ensures this.contact == contact && this.conversation == conversation
    {
      this.state, this.transport, this.store := state, transport, store;
      this.contact, this.conversation := contact, conversation;
    }

    function Saved(): History
      reads store
    {
      if conversation in store.files then store.files[conversation] else EMPTY_HISTORY
    }

    function Now(history: HistoryFile, page: seq<Message>): View
      reads state, transport, store, history
    {
      View(transport.Value(), state.spent, history.Value(), Saved(), page)
    }

    /** Only this conversation's file is ever written. */
    twostate predicate OtherFilesKept()
      reads store
    {
      forall name :: name != conversation ==>
        (name in store.files <==> name in old(store.files))
        && (name in store.files ==> store.files[name] == old(store.files)[name])
    }

    method Transmit(history: HistoryFile, recipient: string, id: MessageId, c: Envelope, fate: Fate, now: nat)
      returns (ok: bool)
      modifies transport
      ensures (transport.Value(), ok) == Spec.Transmit(old(transport.Value()), contact, recipient, id, c, fate, now)
    {
      if fate == LostBefore { return false; }
      var r := transport.SubmitMessage(contact.owner, recipient, id, c, None, now);
      ok := fate == Done && r.Success?;
    }

    method MarkFirstSent(history: HistoryFile, id: MessageId)
      modifies history
      ensures history.Value() == MarkSent(old(history.Value()), id)
    {
      var i := 0;
      while i < |history.entries|
        invariant i <= |history.entries| && history.Value() == old(history.Value())
        invariant IndexOf(history.entries, id, 0) == IndexOf(history.entries, id, i)
      {
        if history.entries[i].messageId == id {
          history.entries := history.entries[i := history.entries[i].(status := Sent)];
          return;
        }
        i := i + 1;
      }
    }

    /** `send_text`: the entry is saved before the envelope leaves, so that it can be retried under the same id. */
    method SendText(history: HistoryFile, text: string, id: MessageId, c: Envelope, recipient: string, f: SendFates)
      returns (r: Result<Event, Fault>)
      modifies history, transport, store
      ensures (Now(history, []), r) == Spec.SendText(old(Now(history, [])), contact, text, id, c, recipient, f)
      ensures OtherFilesKept()
    {
      history.entries := history.entries + [Entry(SELF, text, id, c, Queued, recipient)];
      var saved := store.SaveHistory(conversation, history, f.before);
      if !saved { return Failure(StorageFailed); }
      var ok := Transmit(history, recipient, id, c, f.submit, f.now);
      if !ok { return Failure(TransportFailed); }
      MarkFirstSent(history, id);
      saved := store.SaveHistory(conversation, history, f.after);
      r := if saved then Success(SentEvent(text)) else Failure(StorageFailed);
    }

    /** `acknowledge`, then `advance_cursor`. */
    method SettleMessage(history: HistoryFile, page: seq<Message>, fate: Fate, now: nat)
      returns (rest: seq<Message>, r: Result<(), Fault>)
      requires page != []
      modifies history, transport
      ensures (Now(history, rest), r) == Settle(old(Now(history, page)), contact, fate, now)
    {
      if fate == LostBefore { return [], Failure(TransportFailed); }
      var reply := transport.AcknowledgeMessage(contact.owner, page[0].serverId, now);
      if fate != Done || reply.Failure? { return [], Failure(TransportFailed); }
      if page[0].serverId > history.cursor {
        history.cursor := page[0].serverId;
      }
      rest, r := page[1..], Success(());
    }

    /** The body of the loop over a fetched page. */
    method TakeMessage(history: HistoryFile, page: seq<Message>, h: Handling)
      returns (rest: seq<Message>, r: Result<seq<Event>, Fault>)
      requires page != []
      modifies history, transport, store, state
      ensures (Now(history, rest), r) == Take(old(Now(history, page)), contact, h)
      ensures OtherFilesKept()
    {
      var m := page[0];
      if !FromContact(contact, m) { return page[1..], Success([]); }
      var opening := state.Open(m.ciphertext, h.opens);
      if opening == Refused { return [], Failure(DecryptFailed); }
      var events: seq<Event> := [];
      if opening == OldCounter {
        events := [StaleEvent(m.serverId)];
      } else if !HasId(history.entries, m.ciphertext.id) {
        if m.ciphertext.text.None? { return [], Failure(NotText); }
        history.entries := history.entries + [Incoming(contact, m.ciphertext)];
        var saved := store.SaveHistory(conversation, history, h.save);
        if !saved { return [], Failure(StorageFailed); }
        events := [ReceivedEvent(contact.name, m.ciphertext.text.value)];
      }
      var settled;
      rest, settled := SettleMessage(history, page, h.acknowledge, h.now);
      r := if settled.Success? then Success(events) else Failure(settled.error);
    }

    /** The first loop of `poll`: ask after every entry that is sent but not yet read. */
    method RefreshStatuses(history: HistoryFile, f: PollFates) returns (events: seq<Event>)
      modifies history
      ensures (Now(history, []), events) == RefreshFrom(old(Now(history, [])), contact, 0, [], f)
    {
      events := [];
      var i := 0;
      ghost var start := Now(history, []);
      while i < |history.entries|
        invariant i <= |history.entries|
        invariant RefreshFrom(start, contact, 0, [], f) == RefreshFrom(Now(history, []), contact, i, events, f)
      {
        ghost var here := Now(history, []);
        var e := history.entries[i];
        if AwaitsReceipt(e) && f.reached(i) {
          var reply := transport.MessageStatus(contact.owner, e.messageId);
          if reply == Success(true) {
            history.entries := history.entries[i := e.(status := Read)];
            assert history.entries[i] != here.history.entries[i];
            events := events + [ReadEvent(e.text)];
          }
        }
        assert Now(history, []) == RefreshEntry(here, contact, i, f.reached(i));
        i := i + 1;
      }
    }

    /** The second loop of `poll`: resubmit what the outbox held when the loop began. */
    method RetryOutbox(history: HistoryFile, f: PollFates) returns (ok: bool)
      modifies history, transport, store
      ensures (Now(history, []), ok)
        == RetryFrom(old(Now(history, [])), contact, Outbox(old(history.entries)), 0, f)
      ensures OtherFilesKept()
    {
      hide Spec.Transmit, MarkSent, Outbox;
      var queued := Outbox(history.entries);
      var i := 0;
      ghost var start := Now(history, []);
      while i < |queued|
        invariant i <= |queued|
        invariant RetryFrom(start, contact, queued, 0, f) == RetryFrom(Now(history, []), contact, queued, i, f)
        invariant OtherFilesKept()
      {
        var e := queued[i];
        var accepted := Transmit(history, e.recipient, e.messageId, e.ciphertext, f.resend(i), f.now);
        if accepted {
          MarkFirstSent(history, e.messageId);
          var saved := store.SaveHistory(conversation, history, f.resendSave(i));
          if !saved { return false; }
        }
        i := i + 1;
      }
      ok := true;
    }

    /** The third loop of `poll`. */
    method HandlePage(history: HistoryFile, page: seq<Message>, earlier: seq<Event>, f: PollFates)
      returns (rest: seq<Message>, r: Result<seq<Event>, Fault>)
      modifies history, transport, store, state
      ensures (Now(history, rest), r) == TakeFrom(old(Now(history, page)), contact, 0, earlier, f)
      ensures OtherFilesKept()
    {
      rest := page;
      var events := earlier;
      var i := 0;
      ghost var start := Now(history, page);
      while rest != []
        invariant TakeFrom(start, contact, 0, earlier, f) == TakeFrom(Now(history, rest), contact, i, events, f)
        invariant OtherFilesKept()
        decreases |rest|
      {
        var turn;
        rest, turn := TakeMessage(history, rest, f.handling(i));
        if turn.Failure? { return rest, turn; }
        events := events + turn.value;
        i := i + 1;
      }
      r := Success(events);
    }

    /** `poll`. */
    method Poll(history: HistoryFile, f: PollFates) returns (rest: seq<Message>, r: Result<seq<Event>, Fault>)
      modifies history, transport, store, state
      ensures (Now(history, rest), r) == Spec.Poll(old(Now(history, [])), contact, f)
      ensures OtherFilesKept()
    {
      rest := [];
      var read := RefreshStatuses(history, f);
      if read != [] {
        var saved := store.SaveHistory(conversation, history, f.statusSave);
        if !saved { return [], Failure(StorageFailed); }
      }
      var ok := RetryOutbox(history, f);
      if !ok { return [], Failure(StorageFailed); }
      if f.receive == LostBefore { return [], Failure(TransportFailed); }
      var page := transport.ReceiveMessages(contact.owner, history.cursor, f.now);
      if f.receive != Done { return [], Failure(TransportFailed); }
      var cursor := history.cursor;
      rest, r := HandlePage(history, page, read, f);
      if r.Failure? { return; }
      if read != [] || history.cursor != cursor {
        var saved := store.SaveHistory(conversation, history, f.lastSave);
        if !saved { r := Failure(StorageFailed); }
      }
    }
  }
}
