/** What the relay answers, said of the rows alone: which submission is stored and under which id, which rows a page
    lists and what it shows of them, and when a message counts as read. */
module RelayAnswers {
  import opened Wrappers
  import opened RelayQueue

  // ---------------------------------------------------------------- submissions

  predicate Sends(row: Row, sender: ClientId, recipient: ClientId, messageId: MessageId) {
    row.sender == sender && row.recipient == recipient && row.messageId == messageId
  }

  /** A submission succeeds exactly if the relay knows the recipient. It is answered with the one row of this sender,
      recipient and message id; if there was none, that is a new row with the submitted bytes and expiry, unread. */
  lemma SendStores(
    q: Queue, sender: ClientId, name: string, messageId: MessageId, c: Envelope, expiresAt: Option<nat>, now: nat)
    requires Valid(q)
    ensures var (q', r) := Send(q, sender, name, messageId, c, expiresAt, now);
      if name !in q.directory then q' == q && r == Failure(NotFound)
      else
        var recipient := q.directory[name];
        && r.Success? && r.value in q'.rows && Sends(q'.rows[r.value], sender, recipient, messageId)
        && (forall id :: id in q'.rows && Sends(q'.rows[id], sender, recipient, messageId) ==> id == r.value)
        && (r.value in q.rows ==> q' == q)
        && (r.value !in q.rows ==>
              && r.value == q.last + 1
              && q'.rows == q.rows[r.value := Row(sender, recipient, messageId, c, now, expiresAt, None)])
  {
  }

  // ---------------------------------------------------------------- pages

  /** The row is unread mail of the recipient above the cursor and has not expired. */
  predicate Due(q: Queue, recipient: ClientId, cursor: int, now: nat, id: nat) {
    && id in q.rows && q.rows[id].recipient == recipient && id > cursor && q.rows[id].acknowledgedAt == None
    && (q.rows[id].expiresAt == None || q.rows[id].expiresAt.value > now)
  }

  ghost function DueBefore(q: Queue, recipient: ClientId, cursor: int, now: nat, id: nat): set<nat> {
    set other | other in q.rows && Due(q, recipient, cursor, now, other) && other < id
  }

  lemma DueIsWaiting(q: Queue, recipient: ClientId, cursor: int, now: nat, id: nat)
    ensures Due(q, recipient, cursor, now, id) <==> Waiting(Purge(q, now), recipient, cursor, id)
  {
  }

  /** How many waiting rows the page query skips before it lists one: it lists those with fewer than `room` waiting
      rows between where it starts and the row. */
  lemma {:induction false} PageCounts(q: Queue, recipient: ClientId, cursor: int, from: nat, room: nat, id: nat)
    requires from <= id <= q.last && Waiting(q, recipient, cursor, id)
    ensures var older := set other | other in q.rows && Waiting(q, recipient, cursor, other) && from <= other < id;
      id in Page(q, recipient, cursor, from, room) <==> |older| < room
    decreases q.last + 1 - from
  {
    var older := set other | other in q.rows && Waiting(q, recipient, cursor, other) && from <= other < id;
    var later := set other | other in q.rows && Waiting(q, recipient, cursor, other) && from + 1 <= other < id;
    if from == id {
      assert older == {};
    } else if Waiting(q, recipient, cursor, from) {
      assert older == later + {from};
      if room > 0 { PageCounts(q, recipient, cursor, from + 1, room - 1, id); }
    } else {
      assert older == later;
      if room > 0 { PageCounts(q, recipient, cursor, from + 1, room, id); }
    }
  }

  predicate Lists(page: seq<Message>, id: nat) {
    exists i :: 0 <= i < |page| && page[i].serverId == id
  }

  lemma ListsIds(q: Queue, ids: seq<nat>, id: nat)
    requires forall i :: 0 <= i < |ids| ==> ids[i] in q.rows
    ensures Lists(RenderAll(q, ids), id) <==> id in ids
  {
    var page := RenderAll(q, ids);
    if id in ids {
      var i :| 0 <= i < |ids| && ids[i] == id;
      assert page[i].serverId == id;
    }
  }

  /** A page lists exactly the unread, unexpired rows of the recipient above the cursor that have fewer than 100 such
      rows before them, in rising order, and shows their fields as stored. */
  lemma PageIsExact(q: Queue, recipient: ClientId, cursor: int, now: nat, id: nat)
    requires Valid(q)
    ensures var page := Receive(q, recipient, cursor, now).1;
      Lists(page, id) <==> Due(q, recipient, cursor, now, id) && |DueBefore(q, recipient, cursor, now, id)| < 100
  {
    var p := Purge(q, now);
    var ids := Page(p, recipient, cursor, 1, PAGE_LIMIT);
    ListsIds(p, ids, id);
    DueIsWaiting(q, recipient, cursor, now, id);
    if Due(q, recipient, cursor, now, id) {
      PageCounts(p, recipient, cursor, 1, PAGE_LIMIT, id);
      var older := set other | other in p.rows && Waiting(p, recipient, cursor, other) && 1 <= other < id;
      forall other ensures other in older <==> other in DueBefore(q, recipient, cursor, now, id) {
        DueIsWaiting(q, recipient, cursor, now, other);
      }
      assert older == DueBefore(q, recipient, cursor, now, id);
    }
  }

  lemma PageShowsRows(q: Queue, recipient: ClientId, cursor: int, now: nat, i: nat)
    requires i < |Receive(q, recipient, cursor, now).1|
    ensures var page := Receive(q, recipient, cursor, now).1; var m := page[i];
      && m.serverId in q.rows
      && m.sender == q.rows[m.serverId].sender && m.messageId == q.rows[m.serverId].messageId
      && m.ciphertext == q.rows[m.serverId].ciphertext
      && (m.senderAddress == if m.sender in q.addresses then Some(q.addresses[m.sender]) else None)
      && (forall j :: i < j < |page| ==> m.serverId < page[j].serverId)
  {
    var p := Purge(q, now);
    var ids := Page(p, recipient, cursor, 1, PAGE_LIMIT);
    assert Waiting(p, recipient, cursor, ids[i]);
    PageRises(p, recipient, cursor, 1, PAGE_LIMIT);
  }

  /** A request for a page removes the rows that have expired and nothing else. */
  lemma ReceivePurges(q: Queue, recipient: ClientId, cursor: int, now: nat, id: nat)
    ensures var rows := Receive(q, recipient, cursor, now).0.rows;
      && (id in rows <==> id in q.rows && (q.rows[id].expiresAt == None || q.rows[id].expiresAt.value > now))
      && (id in rows ==> rows[id] == q.rows[id])
  {
    hide Page;
  }

  // ---------------------------------------------------------------- statuses and acknowledgements

  lemma {:induction false} FindSentIsFirst(q: Queue, sender: ClientId, messageId: MessageId, from: nat, id: nat)
    requires from <= id && SentAs(q, sender, messageId, id) && id <= q.last
    ensures FindSent(q, sender, messageId, from).Some? && FindSent(q, sender, messageId, from).value <= id
    decreases q.last + 1 - from
  {
    if from != id && !SentAs(q, sender, messageId, from) { FindSentIsFirst(q, sender, messageId, from + 1, id); }
  }

  /** The row is the sender's, has this message id, and is the oldest such row. */
  ghost predicate Oldest(q: Queue, sender: ClientId, messageId: MessageId, id: nat) {
    && id in q.rows && q.rows[id].sender == sender && q.rows[id].messageId == messageId
    && forall other :: other in q.rows && q.rows[other].sender == sender && q.rows[other].messageId == messageId
         ==> id <= other
  }

  /** A message is reported as read exactly if the oldest row of the sender with its id is acknowledged, as sent exactly
      if that is not, and not found exactly if there is none. */
  lemma StatusIff(q: Queue, sender: ClientId, messageId: MessageId)
    requires Valid(q)
    ensures Status(q, sender, messageId) == Success(true)
       <==> exists id :: Oldest(q, sender, messageId, id) && q.rows[id].acknowledgedAt.Some?
    ensures Status(q, sender, messageId) == Success(false)
       <==> exists id :: Oldest(q, sender, messageId, id) && q.rows[id].acknowledgedAt.None?
    ensures Status(q, sender, messageId) == Failure(NotFound)
       <==> forall id :: id in q.rows && q.rows[id].sender == sender ==> q.rows[id].messageId != messageId
  {
    var found := FindSent(q, sender, messageId, 1);
    forall id | SentAs(q, sender, messageId, id) ensures found.Some? && found.value <= id {
      FindSentIsFirst(q, sender, messageId, 1, id);
    }
    if found.Some? {
      forall other | other in q.rows && q.rows[other].sender == sender && q.rows[other].messageId == messageId
        ensures found.value <= other
      {
        assert SentAs(q, sender, messageId, other);
      }
      assert SentAs(q, sender, messageId, found.value);
      assert Oldest(q, sender, messageId, found.value);
    }
    forall id | id in q.rows && q.rows[id].sender == sender && q.rows[id].messageId == messageId ensures found.Some? {
      assert SentAs(q, sender, messageId, id);
    }
  }

  /** Only the recipient acknowledges, and that fills the time of that row and changes nothing else. */
  lemma AcknowledgeIff(q: Queue, recipient: ClientId, id: nat, now: nat)
    ensures var (q', r) := Acknowledge(q, recipient, id, now);
      && (r.Success? <==> id in q.rows && q.rows[id].recipient == recipient)
      && (r.Failure? ==> q' == q)
      && (r.Success? ==> q' == q.(rows := q.rows[id := q.rows[id].(acknowledgedAt := Some(now))]))
  {
  }
}
