/** Whole runs of the delivery protocol: any number of clients, each with any number of conversations on one
    mailbox, and other programs using the same relay, interleaved step by step in any order. */
module Delivery {
  import opened Wrappers
  import opened RelayQueue
  import opened ChatView
  import opened DeliverySteps

  /** `spent` has an entry for every client that uses the chat service. `minted` records which envelope was sealed
      under which id, and `lost` the opened mail a client can no longer show; neither is visible to the code. */
  datatype World = World(
    relay: Queue, spent: map<ClientId, set<Envelope>>,
    memory: map<Contact, History>, saved: map<Contact, History>, pages: map<Contact, seq<Message>>,
    minted: map<MessageId, Envelope>, lost: set<(ClientId, Envelope)>)

  datatype Step =
    | At(contact: Contact, act: Act)
    | Foreign(sender: ClientId, name: string, id: MessageId, ciphertext: Envelope, expiresAt: Option<nat>, now: nat)
    | ForeignReceive(now: nat)
    | ForeignAcknowledge(recipient: ClientId, serverId: nat, now: nat)

  ghost predicate Shape(w: World) {
    && w.memory.Keys == w.saved.Keys == w.pages.Keys
    && forall k :: k in w.memory ==> k.owner in w.spent
  }

  function Project(w: World, k: Contact): View
    requires Shape(w) && k in w.memory
  {
    View(w.relay, w.spent[k.owner], w.memory[k], w.saved[k], w.pages[k])
  }

  ghost predicate Enabled(w: World, s: Step) {
    match s
    case At(k, act) => k in w.memory && Fresh(w.minted, k, act)
    case Foreign(sender, _, _, c, _, _) =>
      sender !in w.spent && c.author == sender && (c.id in w.minted ==> w.minted[c.id] == c)
    case ForeignReceive(_) => true
    case ForeignAcknowledge(recipient, _, _) => recipient !in w.spent
  }

  ghost function Next(w: World, s: Step): World
    requires Shape(w) && Enabled(w, s)
  {
    match s
    case At(k, act) =>
      var before := Project(w, k);
      var v := Perform(before, k, act);
      World(v.relay, w.spent[k.owner := v.spent],
            w.memory[k := v.history], w.saved[k := v.saved], w.pages[k := v.page],
            Mint(w.minted, act), w.lost + set e | e in LostBy(before, k, act) :: (k.owner, e))
    case Foreign(sender, name, id, c, expiresAt, now) =>
      w.(relay := Send(w.relay, sender, name, id, c, expiresAt, now).0, minted := w.minted[c.id := c])
    case ForeignReceive(now) => w.(relay := Purge(w.relay, now))
    case ForeignAcknowledge(recipient, id, now) => w.(relay := Acknowledge(w.relay, recipient, id, now).0)
  }

  // ---------------------------------------------------------------- the invariant

  ghost predicate ContactOk(w: World, k: Contact)
    requires Shape(w) && k in w.memory
  {
    && Grows(w.saved[k], w.memory[k])
    && UniqueIds(w.memory[k].entries)
    && EntriesOk(w.minted, k.owner, w.memory[k].entries)
    && CursorOk(w.relay, k, w.memory[k].cursor)
    && CursorOk(w.relay, k, w.saved[k].cursor)
    && PageOk(w.relay, k, w.pages[k])
    && PageMinted(w.minted, w.pages[k])
    && ReadOk(w.relay, k.owner, w.memory[k])
  }

  ghost predicate Contacts(w: World)
    requires Shape(w)
  {
    forall k :: k in w.memory ==> ContactOk(w, k)
  }

  /** Opened envelopes are known ones, and acknowledged mail has been opened. */
  ghost predicate Opened(w: World) {
    && (forall c, e :: c in w.spent && e in w.spent[c] ==> Minted(w.minted, e))
    && (forall c :: c in w.spent ==> AckedSpent(w.relay, c, w.spent[c]))
  }

  predicate Holds(w: World, k: Contact, id: MessageId) {
    k in w.memory && HasId(w.memory[k].entries, id)
  }

  predicate HoldsFromOther(w: World, k: Contact, id: MessageId) {
    Holds(w, k, id) && id in w.minted && w.minted[id].author != k.owner
  }

  /** Mail from others enters a history only when it is opened, so it is in one history of its reader at most. */
  ghost predicate Homes(w: World)
    requires Shape(w)
  {
    && (forall k, id :: HoldsFromOther(w, k, id) ==> w.minted[id] in w.spent[k.owner])
    && (forall k1, k2, id :: HoldsFromOther(w, k1, id) && HoldsFromOther(w, k2, id) && k1.owner == k2.owner ==> k1 == k2)
  }

  ghost predicate Shown(w: World, c: ClientId, id: MessageId) {
    exists k: Contact :: k.owner == c && Holds(w, k, id)
  }

  /** Opened mail from others is in a history of its reader exactly when it has not been lost. */
  ghost predicate Accounted(w: World)
    requires Shape(w)
  {
    && (forall c, e :: (c, e) in w.lost ==> c in w.spent && e in w.spent[c] && e.author != c)
    && (forall c, e :: c in w.spent && e in w.spent[c] && e.author != c
          ==> (Shown(w, c, e.id) <==> (c, e) !in w.lost))
  }

  ghost predicate Inv(w: World) {
    && Shape(w)
    && Valid(w.relay)
    && Contacts(w)
    && RowsOk(w.minted, w.spent.Keys, w.relay)
    && Opened(w)
    && Homes(w)
    && Accounted(w)
  }

  /** The relay side of any step. */
  ghost predicate Moves(w: World, w': World) {
    && Shape(w') && Valid(w'.relay)
    && Evolves(w.relay, w'.relay) && AddsUnread(w.relay, w'.relay)
    && w'.spent.Keys == w.spent.Keys && w'.memory.Keys == w.memory.Keys
    && Extends(w.minted, w'.minted)
  }

  lemma NextRelayAt(w: World, k: Contact, act: Act)
    requires Shape(w) && Valid(w.relay) && Enabled(w, At(k, act))
    ensures Moves(w, Next(w, At(k, act)))
  {
    hide Perform, LostBy, Valid, Evolves, AddsUnread;
    PerformRelay(Project(w, k), k, act);
  }

  lemma NextRelayForeign(w: World, s: Step)
    requires Shape(w) && Valid(w.relay) && Enabled(w, s) && !s.At?
    ensures Moves(w, Next(w, s))
  {
    match s
    case Foreign(sender, name, id, c, expiresAt, now) =>
      SendKeeps(w.relay, sender, name, id, c, expiresAt, now);
      SendKeepsValid(w.relay, sender, name, id, c, expiresAt, now);
    case ForeignReceive(now) => PurgeKeeps(w.relay, now);
    case ForeignAcknowledge(recipient, id, now) =>
      AcknowledgeKeeps(w.relay, recipient, id, now);
      AcknowledgeKeepsValid(w.relay, recipient, id, now);
    case _ =>
  }

  lemma NextRelay(w: World, s: Step)
    requires Shape(w) && Valid(w.relay) && Enabled(w, s)
    ensures Moves(w, Next(w, s))
  {
    if s.At? { NextRelayAt(w, s.contact, s.act); } else { NextRelayForeign(w, s); }
  }

  lemma Frame(w: World, s: Step)
    requires Shape(w) && Enabled(w, s)
    ensures Shape(Next(w, s)) && Next(w, s).spent.Keys == w.spent.Keys && Next(w, s).memory.Keys == w.memory.Keys
    ensures Extends(w.minted, Next(w, s).minted)
    ensures forall k :: k in w.memory && (s.At? ==> s.contact != k) ==>
      && Next(w, s).memory[k] == w.memory[k] && Next(w, s).saved[k] == w.saved[k] && Next(w, s).pages[k] == w.pages[k]
  {
    hide Perform, LostBy, Send, Purge, Acknowledge;
    if s.At? { FrameMinted(w, s.contact, s.act); }
    hide Mint, Fresh;
  }

  lemma FrameMinted(w: World, k: Contact, act: Act)
    requires Fresh(w.minted, k, act)
    ensures Extends(w.minted, Mint(w.minted, act))
  {
  }

  /** A conversation that does not move is not disturbed by whatever else happens on the relay. */
  lemma ContactStable(w: World, w': World, k: Contact)
    requires Shape(w) && Shape(w') && k in w.memory && k in w'.memory && ContactOk(w, k)
    requires Valid(w.relay) && Evolves(w.relay, w'.relay) && Extends(w.minted, w'.minted)
    requires RowsOk(w.minted, w.spent.Keys, w.relay)
    requires w'.memory[k] == w.memory[k] && w'.saved[k] == w.saved[k] && w'.pages[k] == w.pages[k]
    ensures ContactOk(w', k)
  {
    CursorStable(w.relay, w'.relay, k, w.memory[k].cursor);
    CursorStable(w.relay, w'.relay, k, w.saved[k].cursor);
    PageStable(w.relay, w'.relay, k, w.pages[k]);
    ReadStable(w.relay, w'.relay, k.owner, w.memory[k], w.minted, w.spent.Keys);
    forall i | 0 <= i < |w.memory[k].entries| ensures EntryOk(w'.minted, k.owner, w.memory[k].entries[i]) {
      assert EntryOk(w.minted, k.owner, w.memory[k].entries[i]);
    }
    forall i | 0 <= i < |w.pages[k]| ensures Minted(w'.minted, w.pages[k][i].ciphertext) {
      assert Minted(w.minted, w.pages[k][i].ciphertext);
    }
  }

  lemma ContactMoves(w: World, k: Contact, act: Act)
    requires Shape(w) && Valid(w.relay) && Enabled(w, At(k, act)) && ContactOk(w, k)
    requires RowsOk(w.minted, w.spent.Keys, w.relay)
    ensures Shape(Next(w, At(k, act))) && ContactOk(Next(w, At(k, act)), k)
  {
    var v := Project(w, k);
    PerformGrows(v, k, act);
    PerformEntriesOk(v, k, act, w.minted);
    PerformCursor(v, k, act);
    PerformPageMinted(v, k, act, w.minted, w.spent.Keys);
    PerformRead(v, k, act, w.minted, w.spent.Keys);
  }

  lemma ContactStays(w: World, s: Step, k: Contact)
    requires Shape(w) && Valid(w.relay) && Enabled(w, s) && k in w.memory && ContactOk(w, k)
    requires RowsOk(w.minted, w.spent.Keys, w.relay)
    requires s.At? ==> s.contact != k
    requires Moves(w, Next(w, s))
    ensures ContactOk(Next(w, s), k)
  {
    Frame(w, s);
    ContactStable(w, Next(w, s), k);
  }

  lemma NextContacts(w: World, s: Step)
    requires Shape(w) && Valid(w.relay) && Contacts(w) && Enabled(w, s)
    requires RowsOk(w.minted, w.spent.Keys, w.relay)
    ensures Shape(Next(w, s)) && Contacts(Next(w, s))
  {
    NextRelay(w, s);
    forall k | k in Next(w, s).memory ensures ContactOk(Next(w, s), k) {
      assert ContactOk(w, k);
      if s.At? && s.contact == k {
        ContactMoves(w, k, s.act);
      } else {
        ContactStays(w, s, k);
      }
    }
  }

  lemma NextRowsAt(w: World, k: Contact, act: Act)
    requires Shape(w) && Valid(w.relay) && Enabled(w, At(k, act)) && ContactOk(w, k)
    requires RowsOk(w.minted, w.spent.Keys, w.relay)
    ensures RowsOk(Next(w, At(k, act)).minted, w.spent.Keys, Next(w, At(k, act)).relay)
  {
    PerformRows(Project(w, k), k, act, w.minted, w.spent.Keys);
  }

  lemma NextRowsForeign(w: World, s: Step)
    requires Shape(w) && Valid(w.relay) && Enabled(w, s) && !s.At?
    requires RowsOk(w.minted, w.spent.Keys, w.relay)
    ensures RowsOk(Next(w, s).minted, w.spent.Keys, Next(w, s).relay)
  {
    var w' := Next(w, s);
    NextRelay(w, s);
    forall id | id in w'.relay.rows ensures RowOk(w'.minted, w.spent.Keys, w'.relay.rows[id]) {
      if id in w.relay.rows { assert RowOk(w.minted, w.spent.Keys, w.relay.rows[id]); }
    }
  }

  lemma NextSpentMinted(w: World, k: Contact, act: Act, e: Envelope)
    requires Shape(w) && Valid(w.relay) && Enabled(w, At(k, act)) && ContactOk(w, k)
    requires e in Next(w, At(k, act)).spent[k.owner]
    requires forall known :: known in w.spent[k.owner] ==> Minted(w.minted, known)
    ensures Minted(Next(w, At(k, act)).minted, e)
  {
    hide LostBy, Valid, CursorOk, PageOk, ReadOk, EntriesOk;
    PerformMarks(Project(w, k), k, act);
    if act.TakeAct? && w.pages[k] != [] {
      TakeShape(Project(w, k), k, act.handling);
    }
  }

  lemma NextAcked(w: World, s: Step, c: ClientId)
    requires Shape(w) && Valid(w.relay) && Enabled(w, s) && c in w.spent
    requires Contacts(w) && AckedSpent(w.relay, c, w.spent[c])
    ensures c in Next(w, s).spent && AckedSpent(Next(w, s).relay, c, Next(w, s).spent[c])
  {
    hide Perform, LostBy, CursorOk, PageMinted, ReadOk, EntriesOk;
    match s
    case At(k, act) =>
      assert ContactOk(w, k);
      if c == k.owner {
        PerformAcked(Project(w, k), k, act);
      } else {
        PerformAckedOther(Project(w, k), k, act, c, w.spent[c]);
      }
    case _ =>
  }

  lemma NextOpened(w: World, s: Step)
    requires Shape(w) && Valid(w.relay) && Contacts(w) && Opened(w) && Enabled(w, s)
    ensures Opened(Next(w, s))
  {
    hide Valid, ContactOk, AckedSpent, Perform, Send, Purge, Acknowledge, Moves;
    Frame(w, s);
    forall c, e | c in Next(w, s).spent && e in Next(w, s).spent[c] ensures Minted(Next(w, s).minted, e) {
      if s.At? && s.contact.owner == c {
        assert ContactOk(w, s.contact);
        NextSpentMinted(w, s.contact, s.act, e);
      } else {
        assert Minted(w.minted, e);
      }
    }
    forall c | c in Next(w, s).spent ensures AckedSpent(Next(w, s).relay, c, Next(w, s).spent[c]) {
      NextAcked(w, s, c);
    }
  }

  // ---------------------------------------------------------------- who shows which mail

  lemma HeldIsMinted(w: World, k: Contact, id: MessageId)
    requires Shape(w) && Contacts(w) && Holds(w, k, id)
    ensures id in w.minted
    ensures exists e :: e in w.memory[k].entries && e.messageId == id && e.ciphertext == w.minted[id]
  {
    assert ContactOk(w, k);
    var i :| 0 <= i < |w.memory[k].entries| && w.memory[k].entries[i].messageId == id;
    assert EntryOk(w.minted, k.owner, w.memory[k].entries[i]);
  }

  /** An id that `k2` holds after a step was held before, has just been composed, or belongs to an envelope that
      `k2` has just opened for the first time. */
  lemma Gains(w: World, s: Step, k2: Contact, id: MessageId)
    requires Shape(w) && Contacts(w) && Enabled(w, s) && Holds(Next(w, s), k2, id)
    ensures
      || Holds(w, k2, id)
      || (s.At? && s.contact == k2 && s.act.ComposeAct? && id == s.act.id)
      || (s.At? && s.contact == k2 && s.act.TakeAct? && w.pages[k2] != [] && id == w.pages[k2][0].ciphertext.id
          && Minted(w.minted, w.pages[k2][0].ciphertext)
          && w.pages[k2][0].ciphertext !in w.spent[k2.owner]
          && w.pages[k2][0].ciphertext in Next(w, s).spent[k2.owner])
  {
    if s.At? && s.contact == k2 {
      assert ContactOk(w, k2);
      PerformIds(Project(w, k2), k2, s.act, id);
    }
  }

  lemma NextHomesSpent(w: World, s: Step, k2: Contact, id: MessageId)
    requires Shape(w) && Contacts(w) && Homes(w) && Enabled(w, s) && HoldsFromOther(Next(w, s), k2, id)
    ensures k2.owner in Next(w, s).spent && Next(w, s).minted[id] in Next(w, s).spent[k2.owner]
  {
    hide Perform, LostBy, ContactOk;
    Frame(w, s);
    Gains(w, s, k2, id);
    if Holds(w, k2, id) {
      HeldIsMinted(w, k2, id);
      assert HoldsFromOther(w, k2, id);
      if s.At? { PerformSpends(Project(w, s.contact), s.contact, s.act, w.minted[id]); }
    }
  }

  lemma HeldFromOther(w: World, s: Step, k: Contact, id: MessageId)
    requires Shape(w) && Contacts(w) && Enabled(w, s) && Holds(w, k, id) && HoldsFromOther(Next(w, s), k, id)
    ensures HoldsFromOther(w, k, id)
  {
    Frame(w, s);
    HeldIsMinted(w, k, id);
  }

  lemma NextHomesUnique(w: World, s: Step, k1: Contact, k2: Contact, id: MessageId)
    requires Shape(w) && Contacts(w) && Homes(w) && Enabled(w, s) && k1.owner == k2.owner
    requires HoldsFromOther(Next(w, s), k1, id) && HoldsFromOther(Next(w, s), k2, id)
    ensures k1 == k2
  {
    Gains(w, s, k1, id);
    Gains(w, s, k2, id);
    if Holds(w, k1, id) { HeldFromOther(w, s, k1, id); }
    if Holds(w, k2, id) { HeldFromOther(w, s, k2, id); }
  }

  lemma NextHomes(w: World, s: Step)
    requires Shape(w) && Contacts(w) && Homes(w) && Enabled(w, s)
    ensures Shape(Next(w, s)) && Homes(Next(w, s))
  {
    Frame(w, s);
    forall k, id | HoldsFromOther(Next(w, s), k, id)
      ensures Next(w, s).minted[id] in Next(w, s).spent[k.owner]
    {
      NextHomesSpent(w, s, k, id);
    }
    forall k1, k2, id | HoldsFromOther(Next(w, s), k1, id) && HoldsFromOther(Next(w, s), k2, id) && k1.owner == k2.owner
      ensures k1 == k2
    {
      NextHomesUnique(w, s, k1, k2, id);
    }
  }

  // ---------------------------------------------------------------- what is lost

  ghost predicate JustOpened(w: World, w': World, c: ClientId, e: Envelope) {
    c in w.spent && c in w'.spent && e !in w.spent[c] && e in w'.spent[c]
  }

  /** A history gains an id only for a message just composed or just opened. */
  ghost predicate Gained(w: World, w': World, k: Contact, id: MessageId) {
    Holds(w', k, id) && !Holds(w, k, id) && id in w.minted ==> JustOpened(w, w', k.owner, w.minted[id])
  }

  /** A history that drops mail from another client loses it. */
  ghost predicate Dropped(w: World, w': World, k: Contact, id: MessageId) {
    HoldsFromOther(w, k, id) && !Holds(w', k, id) ==> (k.owner, w.minted[id]) in w'.lost
  }

  ghost predicate Forgotten(w: World, w': World, c: ClientId, e: Envelope) {
    exists k: Contact :: k.owner == c && Holds(w, k, e.id) && !Holds(w', k, e.id)
  }

  /** Mail is lost by the step that drops it, or by the step that opens it without showing it. */
  ghost predicate NewlyLost(w: World, w': World, c: ClientId, e: Envelope) {
    (c, e) in w'.lost && (c, e) !in w.lost ==>
      && e.author != c && c in w'.spent && e in w'.spent[c]
      && (JustOpened(w, w', c, e) || Forgotten(w, w', c, e))
      && (JustOpened(w, w', c, e) ==> forall k: Contact :: k.owner == c && Holds(w', k, e.id) ==> Holds(w, k, e.id))
  }

  ghost predicate Displayed(w: World, w': World, c: ClientId, e: Envelope) {
    JustOpened(w, w', c, e) && e.author != c ==> Shown(w', c, e.id) || (c, e) in w'.lost
  }

  /** What a step does to the mail, without saying how. */
  ghost predicate Traced(w: World, w': World) {
    && Shape(w') && w'.spent.Keys == w.spent.Keys && Extends(w.minted, w'.minted)
    && w.lost <= w'.lost
    && (forall c, e :: c in w.spent && e in w.spent[c] ==> e in w'.spent[c])
    && (forall c, e :: JustOpened(w, w', c, e) ==> Minted(w.minted, e))
    && (forall k, id :: Gained(w, w', k, id))
    && (forall k, id :: Dropped(w, w', k, id))
    && (forall c, e :: NewlyLost(w, w', c, e))
    && (forall c, e :: Displayed(w, w', c, e))
  }

  lemma NextGained(w: World, s: Step, k: Contact, id: MessageId)
    requires Shape(w) && Contacts(w) && Enabled(w, s)
    ensures Gained(w, Next(w, s), k, id)
  {
    if Holds(Next(w, s), k, id) && !Holds(w, k, id) && id in w.minted {
      Gains(w, s, k, id);
    }
  }

  lemma NextDropped(w: World, s: Step, k: Contact, id: MessageId)
    requires Shape(w) && Contacts(w) && Enabled(w, s)
    ensures Dropped(w, Next(w, s), k, id)
  {
    if HoldsFromOther(w, k, id) && !Holds(Next(w, s), k, id) {
      Frame(w, s);
      assert ContactOk(w, k);
      HeldIsMinted(w, k, id);
      hide Perform, CursorOk, PageOk, ReadOk, PageMinted, EntriesOk;
      if s.act != ReloadAct {
        PerformGrows(Project(w, k), k, s.act);
        GrowsKeepsIds(w.memory[k], Next(w, s).memory[k], id);
      }
    }
  }

  lemma LostByReload(w: World, k: Contact, e: Envelope)
    requires Shape(w) && k in w.memory && ContactOk(w, k) && e in LostBy(Project(w, k), k, ReloadAct)
    ensures HoldsFromOther(w, k, e.id) && w.minted[e.id] == e && !HasId(w.saved[k].entries, e.id)
  {
    var entry :| entry in w.memory[k].entries && entry.ciphertext == e && !HasId(w.saved[k].entries, entry.messageId);
    var i :| 0 <= i < |w.memory[k].entries| && w.memory[k].entries[i] == entry;
    assert EntryOk(w.minted, k.owner, w.memory[k].entries[i]);
  }

  /** A message that is not text is opened and enters no history. */
  lemma LostByTake(v: View, k: Contact, h: Handling, e: Envelope)
    requires v.page != [] && e in LostBy(v, k, TakeAct(h))
    ensures e == v.page[0].ciphertext && e !in v.spent && e in Take(v, k, h).0.spent && e.author != k.owner
    ensures Take(v, k, h).0.history == v.history
  {
  }

  lemma NextLost(w: World, k: Contact, act: Act, e: Envelope)
    requires Shape(w) && Contacts(w) && Homes(w) && Enabled(w, At(k, act))
    requires e in LostBy(Project(w, k), k, act)
    ensures NewlyLost(w, Next(w, At(k, act)), k.owner, e)
  {
    assert ContactOk(w, k);
    if act == ReloadAct {
      LostByReload(w, k, e);
    } else {
      LostByTake(Project(w, k), k, act.handling, e);
    }
  }

  lemma NextDisplayed(w: World, s: Step, c: ClientId, e: Envelope)
    requires Shape(w) && Enabled(w, s)
    ensures Displayed(w, Next(w, s), c, e)
  {
    if JustOpened(w, Next(w, s), c, e) && e.author != c {
      var k := s.contact;
      PerformSpends(Project(w, k), k, s.act, e);
      TakeHolds(Project(w, k), k, s.act.handling);
      if e !in LostBy(Project(w, k), k, s.act) {
        assert Holds(Next(w, s), k, e.id);
      }
    }
  }

  lemma NextOpens(w: World, s: Step, c: ClientId, e: Envelope)
    requires Shape(w) && Contacts(w) && Enabled(w, s) && c in w.spent
    ensures e in w.spent[c] ==> e in Next(w, s).spent[c]
    ensures JustOpened(w, Next(w, s), c, e) ==> Minted(w.minted, e)
  {
    hide Perform, LostBy, CursorOk, PageOk, ReadOk, EntriesOk;
    if s.At? {
      PerformSpends(Project(w, s.contact), s.contact, s.act, e);
      assert ContactOk(w, s.contact);
    }
  }

  lemma NextTraced(w: World, s: Step)
    requires Shape(w) && Contacts(w) && Homes(w) && Enabled(w, s)
    ensures Traced(w, Next(w, s))
  {
    hide Perform, LostBy, ContactOk;
    var w' := Next(w, s);
    Frame(w, s);
    forall c, e | c in w.spent ensures e in w.spent[c] ==> e in w'.spent[c] { NextOpens(w, s, c, e); }
    forall c, e | JustOpened(w, w', c, e) ensures Minted(w.minted, e) { NextOpens(w, s, c, e); }
    forall k, id ensures Gained(w, w', k, id) { NextGained(w, s, k, id); }
    forall k, id ensures Dropped(w, w', k, id) { NextDropped(w, s, k, id); }
    forall c, e ensures Displayed(w, w', c, e) { NextDisplayed(w, s, c, e); }
    forall c, e ensures NewlyLost(w, w', c, e) {
      if (c, e) in w'.lost && (c, e) !in w.lost {
        NextLost(w, s.contact, s.act, e);
      }
    }
  }

  /** Mail opened earlier stays accounted for. */
  lemma OldMail(w: World, w': World, c: ClientId, e: Envelope)
    requires Shape(w) && Homes(w) && Accounted(w) && Traced(w, w')
    requires c in w.spent && e in w.spent[c] && e.author != c && Minted(w.minted, e)
    ensures Shown(w', c, e.id) <==> (c, e) !in w'.lost
  {
    if (c, e) in w'.lost {
      assert NewlyLost(w, w', c, e);
      if Shown(w', c, e.id) {
        var k: Contact :| k.owner == c && Holds(w', k, e.id);
        assert Gained(w, w', k, e.id) && HoldsFromOther(w, k, e.id);
        assert Shown(w, c, e.id);
        var gone: Contact :| gone.owner == c && Holds(w, gone, e.id) && !Holds(w', gone, e.id);
        assert HoldsFromOther(w, gone, e.id);
      }
    } else {
      assert (c, e) !in w.lost;
      var k: Contact :| k.owner == c && Holds(w, k, e.id);
      assert HoldsFromOther(w, k, e.id) && Dropped(w, w', k, e.id);
      assert Holds(w', k, e.id);
    }
  }

  /** Mail opened by this step is accounted for. */
  lemma NewMail(w: World, w': World, c: ClientId, e: Envelope)
    requires Shape(w) && Homes(w) && Accounted(w) && Traced(w, w')
    requires JustOpened(w, w', c, e) && e.author != c
    ensures Shown(w', c, e.id) <==> (c, e) !in w'.lost
  {
    assert Displayed(w, w', c, e) && Minted(w.minted, e);
    if (c, e) in w'.lost && Shown(w', c, e.id) {
      var k: Contact :| k.owner == c && Holds(w', k, e.id);
      assert NewlyLost(w, w', c, e);
      assert HoldsFromOther(w, k, e.id);
    }
  }

  lemma NextAccounted(w: World, w': World)
    requires Shape(w) && Homes(w) && Accounted(w) && Traced(w, w')
    requires forall c, e :: c in w.spent && e in w.spent[c] ==> Minted(w.minted, e)
    ensures Accounted(w')
  {
    forall c, e | (c, e) in w'.lost ensures c in w'.spent && e in w'.spent[c] && e.author != c {
      assert NewlyLost(w, w', c, e);
    }
    forall c, e | c in w'.spent && e in w'.spent[c] && e.author != c
      ensures Shown(w', c, e.id) <==> (c, e) !in w'.lost
    {
      if e in w.spent[c] {
        OldMail(w, w', c, e);
      } else {
        NewMail(w, w', c, e);
      }
    }
  }

  lemma NextInv(w: World, s: Step)
    requires Inv(w) && Enabled(w, s)
    ensures Inv(Next(w, s))
  {
    NextRelay(w, s);
    NextContacts(w, s);
    if s.At? {
      assert ContactOk(w, s.contact);
      NextRowsAt(w, s.contact, s.act);
    } else {
      NextRowsForeign(w, s);
    }
    NextOpened(w, s);
    NextHomes(w, s);
    NextTraced(w, s);
    NextAccounted(w, Next(w, s));
  }
}
