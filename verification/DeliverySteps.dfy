/** What every step of the chat service does to the relay, to its own history and to its cursor. The steps are
    finer than a call: another party may act between any two of them. */
module DeliverySteps {
  import opened Wrappers
  import opened RelayQueue
  import opened ChatView

  datatype Act =
    | ComposeAct(text: string, id: MessageId, ciphertext: Envelope, recipient: string)
    | SaveAct(fate: Fate)
    | SubmitAct(index: nat, fate: Fate, now: nat)
    | RefreshAct(index: nat, reached: bool)
    | FetchAct(fate: Fate, now: nat)
    | TakeAct(handling: Handling)
    | AbandonAct
    | ReloadAct

  function Perform(v: View, k: Contact, act: Act): View {
    match act
    case ComposeAct(text, id, c, recipient) => Compose(v, text, id, c, recipient)
    case SaveAct(fate) => Save(v, fate)
    case SubmitAct(i, fate, now) =>
      if i < |v.history.entries| && InOutbox(v.history.entries[i]) then
        var e := v.history.entries[i];
        Submit(v, k, e.recipient, e.messageId, e.ciphertext, fate, now).0
      else v
    case RefreshAct(i, reached) => RefreshEntry(v, k, i, reached)
    case FetchAct(fate, now) => Fetch(v, k, fate, now).0
    case TakeAct(h) => if v.page == [] then v else Take(v, k, h).0
    case AbandonAct => Abort(v)
    case ReloadAct => v.(history := v.saved, page := [])
  }

  // ---------------------------------------------------------------- histories

  predicate Forward(from: DeliveryStatus, to: DeliveryStatus) {
    from == to || (from == Queued && to != Received) || (from == Sent && to == Read)
  }

  /** The same entry, its delivery status no earlier. */
  predicate Advances(x: Entry, y: Entry) {
    y.(status := x.status) == x && Forward(x.status, y.status)
  }

  ghost predicate Grows(a: History, b: History) {
    && |a.entries| <= |b.entries|
    && a.cursor <= b.cursor
    && forall i :: 0 <= i < |a.entries| ==> Advances(a.entries[i], b.entries[i])
  }

  lemma GrowsTransitive(a: History, b: History, c: History)
    requires Grows(a, b) && Grows(b, c)
    ensures Grows(a, c)
  {
    forall i | 0 <= i < |a.entries| ensures Advances(a.entries[i], c.entries[i]) {
      assert Advances(a.entries[i], b.entries[i]) && Advances(b.entries[i], c.entries[i]);
    }
  }

  predicate UniqueIds(entries: seq<Entry>) {
    forall i, j :: 0 <= i < j < |entries| ==> entries[i].messageId != entries[j].messageId
  }

  lemma GrowsKeepsIds(a: History, b: History, id: MessageId)
    requires Grows(a, b) && HasId(a.entries, id)
    ensures HasId(b.entries, id)
  {
    var i :| 0 <= i < |a.entries| && a.entries[i].messageId == id;
    assert Advances(a.entries[i], b.entries[i]);
  }

  lemma MarkSentGrows(h: History, i: nat)
    requires UniqueIds(h.entries) && i < |h.entries| && InOutbox(h.entries[i])
    ensures MarkSent(h, h.entries[i].messageId)
         == h.(entries := h.entries[i := h.entries[i].(status := Sent)])
    ensures Grows(h, MarkSent(h, h.entries[i].messageId))
  {
  }

  /** No step but a reload takes anything back from the history in memory, and the saved copy never loses an
      entry, never moves a status back and never lowers the cursor. */
  lemma PerformGrows(v: View, k: Contact, act: Act)
    requires UniqueIds(v.history.entries) && Grows(v.saved, v.history)
    ensures var v' := Perform(v, k, act);
      && (act != ReloadAct ==> Grows(v.history, v'.history))
      && Grows(v.saved, v'.saved)
      && Grows(v'.saved, v'.history)
  {
    hide Take, Receive, Send, UniqueIds;
    var v' := Perform(v, k, act);
    match act
    case SubmitAct(i, fate, now) =>
      if i < |v.history.entries| && InOutbox(v.history.entries[i]) {
        MarkSentGrows(v.history, i);
        GrowsTransitive(v.saved, v.history, v'.history);
      }
    case TakeAct(h) =>
      if v.page != [] { TakeGrows(v, k, h); }
    case RefreshAct(i, reached) =>
      GrowsTransitive(v.saved, v.history, v'.history);
    case ComposeAct(_, _, _, _) =>
      GrowsTransitive(v.saved, v.history, v'.history);
    case _ =>
  }

  lemma TakeGrows(v: View, k: Contact, h: Handling)
    requires v.page != [] && Grows(v.saved, v.history)
    ensures var v' := Take(v, k, h).0;
      Grows(v.history, v'.history) && Grows(v.saved, v'.saved) && Grows(v'.saved, v'.history)
  {
    var v' := Take(v, k, h).0;
    assert v'.saved == v.saved || (v'.saved.entries == v'.history.entries && v'.saved.cursor == v.history.cursor);
    GrowsTransitive(v.saved, v.history, v'.history);
  }

  /** Everything one turn of the page loop can do, in one place. */
  lemma TakeShape(v: View, k: Contact, h: Handling)
    requires v.page != []
    ensures var v' := Take(v, k, h).0; var m := v.page[0]; var acked := Acknowledge(v.relay, k.owner, m.serverId, h.now);
      && (v'.relay == v.relay || (v'.relay == acked.0 && FromContact(k, m) && m.ciphertext in v'.spent))
      && (v'.spent == v.spent || (v'.spent == v.spent + {m.ciphertext} && m.ciphertext !in v.spent))
      && (v'.page == [] || v'.page == v.page[1..])
      && (v'.page != [] && FromContact(k, m) ==> v'.relay == acked.0 && acked.1.Success?)
      && (v'.history.cursor == v.history.cursor
          || (v'.history.cursor == m.serverId && v'.relay == acked.0 && acked.1.Success? && FromContact(k, m)))
  {
  }

  // ---------------------------------------------------------------- the relay

  lemma TransmitRelay(q: Queue, k: Contact, recipient: string, id: MessageId, c: Envelope, fate: Fate, now: nat)
    requires Valid(q)
    ensures var q' := Transmit(q, k, recipient, id, c, fate, now).0; Valid(q') && Evolves(q, q') && AddsUnread(q, q')
  {
    SendKeeps(q, k.owner, recipient, id, c, None, now);
    SendKeepsValid(q, k.owner, recipient, id, c, None, now);
    hide Valid, Send;
  }

  lemma NothingHappens(q: Queue)
    ensures Evolves(q, q) && AddsUnread(q, q)
  {
  }

  lemma PerformRelay(v: View, k: Contact, act: Act)
    requires Valid(v.relay)
    ensures var q := Perform(v, k, act).relay;
      Valid(q) && Evolves(v.relay, q) && AddsUnread(v.relay, q)
  {
    hide Valid, Evolves, AddsUnread, Transmit, Purge, Acknowledge, Take, MarkSent;
    NothingHappens(v.relay);
    match act
    case SubmitAct(i, fate, now) =>
      if i < |v.history.entries| && InOutbox(v.history.entries[i]) {
        var e := v.history.entries[i];
        TransmitRelay(v.relay, k, e.recipient, e.messageId, e.ciphertext, fate, now);
      }
    case FetchAct(fate, now) =>
      PurgeKeeps(v.relay, now);
    case TakeAct(h) =>
      if v.page != [] {
        TakeShape(v, k, h);
        AcknowledgeKeeps(v.relay, k.owner, v.page[0].serverId, h.now);
        AcknowledgeKeepsValid(v.relay, k.owner, v.page[0].serverId, h.now);
      }
    case _ =>
  }

  // ---------------------------------------------------------------- the cursor

  function AddressOf(q: Queue, sender: ClientId): Option<string> {
    if sender in q.addresses then Some(q.addresses[sender]) else None
  }

  /** The sender test of `poll`, against the address the relay has on file. */
  predicate Matches(q: Queue, k: Contact, sender: ClientId) {
    AddressOf(q, sender) == Some(k.address) || k.relayId == Some(sender)
  }

  predicate Mine(q: Queue, k: Contact, id: nat) {
    id in q.rows && q.rows[id].recipient == k.owner && Matches(q, k, q.rows[id].sender)
  }

  /** Mail from the contact at or below the cursor has been acknowledged. */
  ghost predicate CursorOk(q: Queue, k: Contact, cursor: int) {
    cursor <= q.last && forall id: nat :: Mine(q, k, id) && id <= cursor ==> Acknowledged(q.rows[id])
  }

  ghost predicate OnPage(page: seq<Message>, id: nat) {
    exists i :: 0 <= i < |page| && page[i].serverId == id
  }

  predicate Genuine(q: Queue, k: Contact, m: Message) {
    && 0 < m.serverId <= q.last
    && m.senderAddress == AddressOf(q, m.sender)
    && (m.serverId in q.rows ==>
          var row := q.rows[m.serverId];
          row.recipient == k.owner && row.sender == m.sender && row.ciphertext == m.ciphertext)
  }

  ghost predicate Ordered(page: seq<Message>) {
    forall i, j :: 0 <= i < j < |page| ==> page[i].serverId < page[j].serverId
  }

  /** The unread mail from the contact that a page reaches past is on that page. */
  ghost predicate Complete(q: Queue, k: Contact, page: seq<Message>) {
    page != [] ==>
      forall id: nat :: Mine(q, k, id) && !Acknowledged(q.rows[id]) && id <= page[|page| - 1].serverId ==> OnPage(page, id)
  }

  ghost predicate PageOk(q: Queue, k: Contact, page: seq<Message>) {
    && (forall i :: 0 <= i < |page| ==> Genuine(q, k, page[i]))
    && Ordered(page)
    && Complete(q, k, page)
  }

  lemma CursorStable(q: Queue, q': Queue, k: Contact, cursor: int)
    requires CursorOk(q, k, cursor) && Evolves(q, q')
    ensures CursorOk(q', k, cursor)
  {
    forall id: nat | Mine(q', k, id) && id <= cursor ensures Acknowledged(q'.rows[id]) {
      assert Mine(q, k, id);
    }
  }

  lemma PageStable(q: Queue, q': Queue, k: Contact, page: seq<Message>)
    requires PageOk(q, k, page) && Evolves(q, q')
    ensures PageOk(q', k, page)
  {
    forall i | 0 <= i < |page| ensures Genuine(q', k, page[i]) {
      assert Genuine(q, k, page[i]);
    }
    if page != [] {
      assert Genuine(q, k, page[|page| - 1]);
      forall id: nat | Mine(q', k, id) && !Acknowledged(q'.rows[id]) && id <= page[|page| - 1].serverId
        ensures OnPage(page, id)
      {
        assert Mine(q, k, id);
      }
    }
  }

  lemma FetchPage(q: Queue, k: Contact, cursor: int, now: nat)
    requires Valid(q) && CursorOk(q, k, cursor)
    ensures var (q', page) := Receive(q, k.owner, cursor, now); PageOk(q', k, page)
  {
    var q' := Purge(q, now);
    PurgeKeeps(q, now);
    CursorStable(q, q', k, cursor);
    var ids := Page(q', k.owner, cursor, 1, PAGE_LIMIT);
    var page := RenderAll(q', ids);
    PageRises(q', k.owner, cursor, 1, PAGE_LIMIT);
    forall i | 0 <= i < |page| ensures Genuine(q', k, page[i]) {
      assert Waiting(q', k.owner, cursor, ids[i]);
    }
    assert Ordered(page);
    assert Complete(q', k, page) by { FetchComplete(q', k, cursor); }
  }

  lemma FetchComplete(q: Queue, k: Contact, cursor: int)
    requires Valid(q) && CursorOk(q, k, cursor)
    ensures Complete(q, k, RenderAll(q, Page(q, k.owner, cursor, 1, PAGE_LIMIT)))
  {
    var ids := Page(q, k.owner, cursor, 1, PAGE_LIMIT);
    var page := RenderAll(q, ids);
    forall id: nat | Mine(q, k, id) && !Acknowledged(q.rows[id]) && page != [] && id <= page[|page| - 1].serverId
      ensures OnPage(page, id)
    {
      assert Waiting(q, k.owner, cursor, id);
      PageCovers(q, k.owner, cursor, 1, PAGE_LIMIT, id);
      assert ids[|ids| - 1] in ids;
      var i :| 0 <= i < |ids| && ids[i] == id;
      assert page[i].serverId == id;
    }
  }

  lemma TakeCursor(v: View, k: Contact, h: Handling)
    requires v.page != [] && Valid(v.relay)
    requires CursorOk(v.relay, k, v.history.cursor) && PageOk(v.relay, k, v.page)
    ensures var v' := Take(v, k, h).0;
      CursorOk(v'.relay, k, v'.history.cursor) && PageOk(v'.relay, k, v'.page)
  {
    var v' := Take(v, k, h).0;
    var m := v.page[0];
    var q, q' := v.relay, v'.relay;
    TakeShape(v, k, h);
    AcknowledgeKeeps(q, k.owner, m.serverId, h.now);
    assert Genuine(q, k, m);
    CursorStable(q, q', k, v.history.cursor);
    PageStable(q, q', k, v.page);
    if v'.history.cursor != v.history.cursor {
      forall id: nat | Mine(q', k, id) && id <= m.serverId ensures Acknowledged(q'.rows[id]) {
        assert Acknowledged(q'.rows[id]) || OnPage(v.page, id);
      }
    }
    if v'.page != [] {
      TakeTail(q', k, v.page);
    }
  }

  /** Dropping the first message of a page is harmless when it was not the contact's or is read by now. */
  lemma TakeTail(q: Queue, k: Contact, page: seq<Message>)
    requires page != [] && PageOk(q, k, page)
    requires Mine(q, k, page[0].serverId) ==> Acknowledged(q.rows[page[0].serverId])
    ensures PageOk(q, k, page[1..])
  {
    var rest := page[1..];
    if rest != [] {
      forall id: nat | Mine(q, k, id) && !Acknowledged(q.rows[id]) && id <= rest[|rest| - 1].serverId
        ensures OnPage(rest, id)
      {
        assert OnPage(page, id);
        var i :| 0 <= i < |page| && page[i].serverId == id;
        assert rest[i - 1] == page[i];
      }
    }
  }

  lemma EmptyPage(q: Queue, k: Contact)
    ensures PageOk(q, k, [])
  {
  }

  /** No step moves a cursor past unread mail from its contact. */
  lemma PerformCursor(v: View, k: Contact, act: Act)
    requires Valid(v.relay)
    requires CursorOk(v.relay, k, v.history.cursor) && CursorOk(v.relay, k, v.saved.cursor)
    requires PageOk(v.relay, k, v.page)
    ensures var v' := Perform(v, k, act);
      && CursorOk(v'.relay, k, v'.history.cursor) && CursorOk(v'.relay, k, v'.saved.cursor)
      && PageOk(v'.relay, k, v'.page)
  {
    hide Valid, Evolves, AddsUnread, CursorOk, PageOk, Receive, Send, Acknowledge;
    var v' := Perform(v, k, act);
    PerformRelay(v, k, act);
    CursorStable(v.relay, v'.relay, k, v.history.cursor);
    CursorStable(v.relay, v'.relay, k, v.saved.cursor);
    PageStable(v.relay, v'.relay, k, v.page);
    EmptyPage(v'.relay, k);
    match act
    case FetchAct(fate, now) => FetchPage(v.relay, k, v.history.cursor, now);
    case TakeAct(h) => if v.page != [] { TakeCursor(v, k, h); }
    case _ =>
  }

  // ---------------------------------------------------------------- entries, rows and the envelopes they hold

  /** What a step adds to the history in memory: nothing, the entry just composed, or the entry of a message
      opened for the first time whose id the history does not hold. */
  lemma PerformEntries(v: View, k: Contact, act: Act)
    requires act != ReloadAct
    ensures var v' := Perform(v, k, act); var n := |v.history.entries|;
      && n <= |v'.history.entries| <= n + 1
      && (|v'.history.entries| == n + 1 ==>
            || (act.ComposeAct?
                && v'.history.entries[n] == Entry(SELF, act.text, act.id, act.ciphertext, Queued, act.recipient))
            || (act.TakeAct? && v.page != [] && v.page[0].ciphertext.text.Some?
                && v'.history.entries[n] == Incoming(k, v.page[0].ciphertext)
                && v.page[0].ciphertext !in v.spent && v.page[0].ciphertext in v'.spent
                && !HasId(v.history.entries, v.page[0].ciphertext.id)))
  {
  }

  /** One id, one envelope. */
  predicate Minted(minted: map<MessageId, Envelope>, c: Envelope) {
    c.id in minted && minted[c.id] == c
  }

  predicate EntryOk(minted: map<MessageId, Envelope>, owner: ClientId, e: Entry) {
    && e.ciphertext.id == e.messageId
    && Minted(minted, e.ciphertext)
    && (e.status != Received ==> e.sender == SELF && e.ciphertext.author == owner)
  }

  /** A row submitted by a chat client carries the envelope sealed for its id and never expires. */
  predicate RowOk(minted: map<MessageId, Envelope>, chat: set<ClientId>, row: Row) {
    && Minted(minted, row.ciphertext)
    && row.ciphertext.author == row.sender
    && (row.sender in chat ==> row.messageId == row.ciphertext.id && row.expiresAt.None?)
  }

  ghost predicate RowsOk(minted: map<MessageId, Envelope>, chat: set<ClientId>, q: Queue) {
    forall id :: id in q.rows ==> RowOk(minted, chat, q.rows[id])
  }

  ghost predicate EntriesOk(minted: map<MessageId, Envelope>, owner: ClientId, entries: seq<Entry>) {
    forall i :: 0 <= i < |entries| ==> EntryOk(minted, owner, entries[i])
  }

  ghost predicate PageMinted(minted: map<MessageId, Envelope>, page: seq<Message>) {
    forall i :: 0 <= i < |page| ==> Minted(minted, page[i].ciphertext)
  }

  predicate Extends(a: map<MessageId, Envelope>, b: map<MessageId, Envelope>) {
    forall id :: id in a ==> id in b && b[id] == a[id]
  }

  /** The envelopes known after a step of `k`. */
  function Mint(minted: map<MessageId, Envelope>, act: Act): map<MessageId, Envelope> {
    if act.ComposeAct? then minted[act.id := act.ciphertext] else minted
  }

  /** A composed message has an id nobody has used and is sealed by its author; the text the author keeps is what was
      sealed, if that is text. */
  predicate Fresh(minted: map<MessageId, Envelope>, k: Contact, act: Act) {
    act.ComposeAct? ==>
      && act.id !in minted && act.ciphertext.id == act.id && act.ciphertext.author == k.owner
      && (act.ciphertext.text.Some? ==> act.ciphertext.text.value == act.text)
  }

  lemma EntriesGrow(minted: map<MessageId, Envelope>, owner: ClientId, a: History, b: History)
    requires EntriesOk(minted, owner, a.entries) && Grows(a, b)
    ensures forall i :: 0 <= i < |a.entries| ==> EntryOk(minted, owner, b.entries[i])
  {
    forall i | 0 <= i < |a.entries| ensures EntryOk(minted, owner, b.entries[i]) {
      assert EntryOk(minted, owner, a.entries[i]) && Advances(a.entries[i], b.entries[i]);
    }
  }

  lemma EntriesShrink(minted: map<MessageId, Envelope>, owner: ClientId, a: History, b: History)
    requires EntriesOk(minted, owner, b.entries) && UniqueIds(b.entries) && Grows(a, b)
    ensures EntriesOk(minted, owner, a.entries) && UniqueIds(a.entries)
  {
    forall i | 0 <= i < |a.entries|
      ensures EntryOk(minted, owner, a.entries[i]) && a.entries[i].messageId == b.entries[i].messageId
    {
      assert EntryOk(minted, owner, b.entries[i]) && Advances(a.entries[i], b.entries[i]);
    }
  }

  lemma AppendOk(minted: map<MessageId, Envelope>, owner: ClientId, a: History, b: History)
    requires EntriesOk(minted, owner, a.entries) && UniqueIds(a.entries)
    requires Grows(a, b) && |b.entries| <= |a.entries| + 1
    requires |b.entries| == |a.entries| + 1 ==>
      EntryOk(minted, owner, b.entries[|a.entries|]) && !HasId(a.entries, b.entries[|a.entries|].messageId)
    ensures EntriesOk(minted, owner, b.entries) && UniqueIds(b.entries)
  {
    EntriesGrow(minted, owner, a, b);
    forall i | 0 <= i < |a.entries| ensures b.entries[i].messageId == a.entries[i].messageId {
      assert Advances(a.entries[i], b.entries[i]);
    }
  }

  lemma PerformEntriesOk(v: View, k: Contact, act: Act, minted: map<MessageId, Envelope>)
    requires EntriesOk(minted, k.owner, v.history.entries) && UniqueIds(v.history.entries)
    requires Grows(v.saved, v.history) && PageMinted(minted, v.page) && Fresh(minted, k, act)
    ensures var entries := Perform(v, k, act).history.entries;
      EntriesOk(Mint(minted, act), k.owner, entries) && UniqueIds(entries)
  {
    var h, h' := v.history, Perform(v, k, act).history;
    if act == ReloadAct {
      EntriesShrink(minted, k.owner, v.saved, h);
    } else {
      PerformGrows(v, k, act);
      PerformEntries(v, k, act);
      forall i | 0 <= i < |h.entries|
        ensures EntryOk(Mint(minted, act), k.owner, h.entries[i])
             && (act.ComposeAct? ==> h.entries[i].messageId != act.id)
      {
        assert EntryOk(minted, k.owner, h.entries[i]);
      }
      AppendOk(Mint(minted, act), k.owner, h, h');
    }
  }

  lemma SubmitRows(
    q: Queue, k: Contact, e: Entry, fate: Fate, now: nat, minted: map<MessageId, Envelope>, chat: set<ClientId>)
    requires Valid(q) && RowsOk(minted, chat, q) && EntryOk(minted, k.owner, e) && InOutbox(e)
    ensures RowsOk(minted, chat, Transmit(q, k, e.recipient, e.messageId, e.ciphertext, fate, now).0)
  {
    SendKeeps(q, k.owner, e.recipient, e.messageId, e.ciphertext, None, now);
  }

  lemma PerformRows(v: View, k: Contact, act: Act, minted: map<MessageId, Envelope>, chat: set<ClientId>)
    requires Valid(v.relay) && RowsOk(minted, chat, v.relay)
    requires EntriesOk(minted, k.owner, v.history.entries)
    requires Fresh(minted, k, act)
    ensures RowsOk(Mint(minted, act), chat, Perform(v, k, act).relay)
  {
    match act
    case SubmitAct(i, fate, now) =>
      if i < |v.history.entries| && InOutbox(v.history.entries[i]) {
        SubmitRows(v.relay, k, v.history.entries[i], fate, now, minted, chat);
      }
    case FetchAct(fate, now) =>
    case TakeAct(h) => if v.page != [] { TakeShape(v, k, h); }
    case _ =>
  }

  lemma PerformPageMinted(v: View, k: Contact, act: Act, minted: map<MessageId, Envelope>, chat: set<ClientId>)
    requires Valid(v.relay) && RowsOk(minted, chat, v.relay) && PageMinted(minted, v.page) && Fresh(minted, k, act)
    ensures PageMinted(Mint(minted, act), Perform(v, k, act).page)
  {
    if act.FetchAct? {
      PurgeKeeps(v.relay, act.now);
      var q := Purge(v.relay, act.now);
      var ids := Page(q, k.owner, v.history.cursor, 1, PAGE_LIMIT);
      forall i | 0 <= i < |ids| ensures Minted(minted, Render(q, ids[i]).ciphertext) {
        assert Waiting(q, k.owner, v.history.cursor, ids[i]);
        assert RowOk(minted, chat, v.relay.rows[ids[i]]);
      }
    }
  }

  // ---------------------------------------------------------------- read receipts

  ghost predicate Receipt(q: Queue, owner: ClientId, id: MessageId) {
    exists row :: SentAs(q, owner, id, row) && Acknowledged(q.rows[row])
  }

  /** An entry is marked `read` only when its row has been acknowledged. */
  ghost predicate ReadOk(q: Queue, owner: ClientId, h: History) {
    forall i :: 0 <= i < |h.entries| && h.entries[i].status == Read ==> Receipt(q, owner, h.entries[i].messageId)
  }

  lemma ReadStable(q: Queue, q': Queue, owner: ClientId, h: History, minted: map<MessageId, Envelope>, chat: set<ClientId>)
    requires Valid(q) && ReadOk(q, owner, h) && Evolves(q, q') && RowsOk(minted, chat, q) && owner in chat
    ensures ReadOk(q', owner, h)
  {
    forall i | 0 <= i < |h.entries| && h.entries[i].status == Read
      ensures Receipt(q', owner, h.entries[i].messageId)
    {
      var row :| SentAs(q, owner, h.entries[i].messageId, row) && Acknowledged(q.rows[row]);
      assert RowOk(minted, chat, q.rows[row]);
      assert SentAs(q', owner, h.entries[i].messageId, row);
    }
  }

  lemma ReadShrinks(q: Queue, owner: ClientId, a: History, b: History)
    requires ReadOk(q, owner, b) && Grows(a, b)
    ensures ReadOk(q, owner, a)
  {
    forall i | 0 <= i < |a.entries| && a.entries[i].status == Read
      ensures Receipt(q, owner, a.entries[i].messageId)
    {
      assert Advances(a.entries[i], b.entries[i]);
    }
  }

  lemma PerformRead(v: View, k: Contact, act: Act, minted: map<MessageId, Envelope>, chat: set<ClientId>)
    requires Valid(v.relay) && RowsOk(minted, chat, v.relay) && k.owner in chat
    requires UniqueIds(v.history.entries) && Grows(v.saved, v.history) && ReadOk(v.relay, k.owner, v.history)
    ensures ReadOk(Perform(v, k, act).relay, k.owner, Perform(v, k, act).history)
  {
    hide Valid, Evolves, AddsUnread, RowsOk, Take, Receive, Send;
    var v' := Perform(v, k, act);
    PerformRelay(v, k, act);
    ReadStable(v.relay, v'.relay, k.owner, v.history, minted, chat);
    match act
    case ReloadAct => ReadShrinks(v.relay, k.owner, v.saved, v.history);
    case RefreshAct(i, reached) =>
      if v' != v {
        var row := FindSent(v.relay, k.owner, v.history.entries[i].messageId, 1).value;
        assert SentAs(v.relay, k.owner, v.history.entries[i].messageId, row);
      }
    case SubmitAct(i, fate, now) =>
      if i < |v.history.entries| && InOutbox(v.history.entries[i]) {
        MarkSentGrows(v.history, i);
      }
    case TakeAct(h) => if v.page != [] { TakeRead(v, k, h); }
    case _ =>
  }

  lemma TakeRead(v: View, k: Contact, h: Handling)
    requires v.page != []
    ensures var entries := Take(v, k, h).0.history.entries;
      && |v.history.entries| <= |entries|
      && (forall i :: 0 <= i < |v.history.entries| ==> entries[i] == v.history.entries[i])
      && (forall i :: |v.history.entries| <= i < |entries| ==> entries[i].status == Received)
  {
  }

  // ---------------------------------------------------------------- opened envelopes

  /** Mail acknowledged by `owner` has been opened by `owner`. */
  ghost predicate AckedSpent(q: Queue, owner: ClientId, spent: set<Envelope>) {
    forall id :: id in q.rows && q.rows[id].recipient == owner && Acknowledged(q.rows[id])
      ==> q.rows[id].ciphertext in spent
  }

  /** The envelopes a step makes unreadable for good: opened mail from others that a reload forgets, mail whose payload
      is not text, and mail used up by a decryption that fails. */
  function LostBy(v: View, k: Contact, act: Act): set<Envelope> {
    match act
    case ReloadAct =>
      set e | e in v.history.entries && e.ciphertext.author != k.owner && !HasId(v.saved.entries, e.messageId)
        :: e.ciphertext
    case TakeAct(h) =>
      if v.page != [] && v.page[0].ciphertext.author != k.owner
         && (Take(v, k, h).1 == Failure(NotText)
             || (Take(v, k, h).1 == Failure(DecryptFailed) && v.page[0].ciphertext !in v.spent && h.opens == LostAfter))
      then {v.page[0].ciphertext} else {}
    case _ => {}
  }

  lemma PerformAcked(v: View, k: Contact, act: Act)
    requires Valid(v.relay) && PageOk(v.relay, k, v.page) && AckedSpent(v.relay, k.owner, v.spent)
    ensures AckedSpent(Perform(v, k, act).relay, k.owner, Perform(v, k, act).spent)
  {
    var v' := Perform(v, k, act);
    if act.TakeAct? && v.page != [] {
      TakeShape(v, k, act.handling);
      AcknowledgeKeeps(v.relay, k.owner, v.page[0].serverId, act.handling.now);
      assert Genuine(v.relay, k, v.page[0]);
    } else {
      PerformRelay(v, k, act);
      PerformMarks(v, k, act);
    }
  }

  /** Only the page loop acknowledges anything, and only rows of its own mailbox. */
  lemma PerformMarks(v: View, k: Contact, act: Act)
    requires Valid(v.relay)
    ensures var q := Perform(v, k, act).relay;
      forall id :: id in q.rows && Acknowledged(q.rows[id]) && (q.rows[id].recipient != k.owner || !act.TakeAct?)
        ==> id in v.relay.rows && Acknowledged(v.relay.rows[id])
    ensures !act.TakeAct? ==> Perform(v, k, act).spent == v.spent
  {
    hide Valid, Take, MarkSent;
    if act.TakeAct? && v.page != [] {
      TakeShape(v, k, act.handling);
    }
  }

  lemma PerformAckedOther(v: View, k: Contact, act: Act, other: ClientId, spent: set<Envelope>)
    requires Valid(v.relay) && other != k.owner && AckedSpent(v.relay, other, spent)
    ensures AckedSpent(Perform(v, k, act).relay, other, spent)
  {
    PerformRelay(v, k, act);
    PerformMarks(v, k, act);
  }

  /** A newly opened envelope is in the history afterwards, unless the step loses it. */
  lemma TakeHolds(v: View, k: Contact, h: Handling)
    requires v.page != []
    ensures var v' := Take(v, k, h).0; var c := v.page[0].ciphertext;
      v'.spent != v.spent && c.author != k.owner ==>
        HasId(v'.history.entries, c.id) || c in LostBy(v, k, TakeAct(h))
  {
    var v' := Take(v, k, h).0;
    var n := |v.history.entries|;
    if v'.history.entries != v.history.entries {
      assert v'.history.entries[n].messageId == v.page[0].ciphertext.id;
    }
  }

  /** Where an id held after a step comes from. */
  lemma PerformIds(v: View, k: Contact, act: Act, id: MessageId)
    requires UniqueIds(v.history.entries) && Grows(v.saved, v.history)
    requires HasId(Perform(v, k, act).history.entries, id)
    ensures
      || HasId(v.history.entries, id)
      || (act.ComposeAct? && id == act.id)
      || (act.TakeAct? && v.page != [] && id == v.page[0].ciphertext.id
          && v.page[0].ciphertext !in v.spent && v.page[0].ciphertext in Perform(v, k, act).spent)
  {
    var h, h' := v.history, Perform(v, k, act).history;
    var i :| 0 <= i < |h'.entries| && h'.entries[i].messageId == id;
    if act == ReloadAct {
      GrowsKeepsIds(v.saved, v.history, id);
    } else {
      PerformEntries(v, k, act);
      PerformGrows(v, k, act);
      hide Perform, UniqueIds;
      if i < |h.entries| { assert Advances(h.entries[i], h'.entries[i]); }
    }
  }

  /** Only the page loop opens envelopes, and only the one it is looking at. */
  lemma PerformSpends(v: View, k: Contact, act: Act, e: Envelope)
    ensures e in v.spent ==> e in Perform(v, k, act).spent
    ensures e in Perform(v, k, act).spent && e !in v.spent ==>
      act.TakeAct? && v.page != [] && e == v.page[0].ciphertext
  {
  }
}
