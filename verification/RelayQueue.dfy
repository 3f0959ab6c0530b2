/** The relay's `messages` table and the four request handlers that touch it. Each handler holds the database
    lock for its whole duration, so each is one step. */
module RelayQueue {
  import opened Wrappers

  type ClientId = string
  type MessageId = string

  /** A sealed message. Only its reader learns `id` and `text`; the relay treats the value as opaque. `text` is
      absent when the payload is not UTF-8. */
  datatype Envelope = Envelope(author: ClientId, id: MessageId, text: Option<string>)

  datatype Row = Row(
    sender: ClientId, recipient: ClientId, messageId: MessageId, ciphertext: Envelope,
    acceptedAt: nat, expiresAt: Option<nat>, acknowledgedAt: Option<nat>)

  /** UNIQUE(sender, recipient, client_message_id). */
  datatype Key = Key(sender: ClientId, recipient: ClientId, messageId: MessageId)

  /** `last` is the AUTOINCREMENT counter; `directory` resolves a client id or device address to a client id and
      `addresses` is the device address registered for a client. */
  datatype Queue = Queue(
    rows: map<nat, Row>, index: map<Key, nat>, last: nat,
    directory: map<string, ClientId>, addresses: map<ClientId, string>)

  datatype Message = Message(
    serverId: nat, sender: ClientId, senderAddress: Option<string>, messageId: MessageId, ciphertext: Envelope)

  datatype Refusal = NotFound

  const PAGE_LIMIT: nat := 100

  function KeyOf(row: Row): Key {
    Key(row.sender, row.recipient, row.messageId)
  }

  predicate Acknowledged(row: Row) {
    row.acknowledgedAt.Some?
  }

  predicate Expired(row: Row, now: nat) {
    row.expiresAt.Some? && row.expiresAt.value <= now
  }

  /** The unique index agrees with the table and every id was handed out by the counter. */
  ghost predicate Valid(q: Queue) {
    && (forall id :: id in q.rows ==> 0 < id <= q.last)
    && (forall id :: id in q.rows ==> KeyOf(q.rows[id]) in q.index && q.index[KeyOf(q.rows[id])] == id)
    && (forall key :: key in q.index ==> q.index[key] in q.rows && KeyOf(q.rows[q.index[key]]) == key)
  }

  /** A fresh table on a relay whose devices are already registered. */
  function Empty(directory: map<string, ClientId>, addresses: map<ClientId, string>): Queue {
    Queue(map[], map[], 0, directory, addresses)
  }

  function Send(
    q: Queue, sender: ClientId, name: string, messageId: MessageId, ciphertext: Envelope,
    expiresAt: Option<nat>, now: nat
  ): (Queue, Result<nat, Refusal>)
  {
    if name !in q.directory then
      (q, Failure(NotFound))
    else
      var key := Key(sender, q.directory[name], messageId);
      if key in q.index then
        (q, Success(q.index[key]))
      else
        var id := q.last + 1;
        var row := Row(sender, q.directory[name], messageId, ciphertext, now, expiresAt, None);
        (q.(rows := q.rows[id := row], index := q.index[key := id], last := id), Success(id))
  }

  /** DELETE FROM messages WHERE expires_at IS NOT NULL AND expires_at <= now. */
  function Purge(q: Queue, now: nat): Queue {
    var rows := map id | id in q.rows && !Expired(q.rows[id], now) :: q.rows[id];
    var index := map key | key in q.index && q.index[key] in rows :: q.index[key];
    q.(rows := rows, index := index)
  }

  /** The WHERE clause of the page query. */
  predicate Waiting(q: Queue, recipient: ClientId, cursor: int, id: nat) {
    id in q.rows && q.rows[id].recipient == recipient && id > cursor && !Acknowledged(q.rows[id])
  }

  /** The page query: waiting ids from `from` on in rising order, at most `room` of them. */
  function Page(q: Queue, recipient: ClientId, cursor: int, from: nat, room: nat): (ids: seq<nat>)
    ensures |ids| <= room
    ensures forall i :: 0 <= i < |ids| ==> from <= ids[i] && Waiting(q, recipient, cursor, ids[i])
    decreases q.last + 1 - from
  {
    if room == 0 || from > q.last then
      []
    else if Waiting(q, recipient, cursor, from) then
      [from] + Page(q, recipient, cursor, from + 1, room - 1)
    else
      Page(q, recipient, cursor, from + 1, room)
  }

  predicate Rising(ids: seq<nat>) {
    forall i, j :: 0 <= i < j < |ids| ==> ids[i] < ids[j]
  }

  lemma {:induction false} PageRises(q: Queue, recipient: ClientId, cursor: int, from: nat, room: nat)
    ensures Rising(Page(q, recipient, cursor, from, room))
    decreases q.last + 1 - from
  {
    if room == 0 || from > q.last {
    } else if Waiting(q, recipient, cursor, from) {
      PageRises(q, recipient, cursor, from + 1, room - 1);
    } else {
      PageRises(q, recipient, cursor, from + 1, room);
    }
  }

  /** A page leaves out a waiting row only when it is full and every row on it is older. */
  lemma {:induction false} PageCovers(q: Queue, recipient: ClientId, cursor: int, from: nat, room: nat, id: nat)
    requires from <= id <= q.last && Waiting(q, recipient, cursor, id)
    ensures var ids := Page(q, recipient, cursor, from, room);
      id in ids || (|ids| == room && forall other :: other in ids ==> other < id)
    decreases q.last + 1 - from
  {
    if room == 0 {
    } else if Waiting(q, recipient, cursor, from) {
      if id != from {
        PageCovers(q, recipient, cursor, from + 1, room - 1, id);
      }
    } else {
      PageCovers(q, recipient, cursor, from + 1, room, id);
    }
  }

  function Render(q: Queue, id: nat): Message
    requires id in q.rows
  {
    var row := q.rows[id];
    Message(id, row.sender, if row.sender in q.addresses then Some(q.addresses[row.sender]) else None,
            row.messageId, row.ciphertext)
  }

  function RenderAll(q: Queue, ids: seq<nat>): seq<Message>
    requires forall i :: 0 <= i < |ids| ==> ids[i] in q.rows
  {
    seq(|ids|, i requires 0 <= i < |ids| => Render(q, ids[i]))
  }

  function Receive(q: Queue, recipient: ClientId, cursor: int, now: nat): (Queue, seq<Message>) {
    var purged := Purge(q, now);
    (purged, RenderAll(purged, Page(purged, recipient, cursor, 1, PAGE_LIMIT)))
  }

  predicate SentAs(q: Queue, sender: ClientId, messageId: MessageId, id: nat) {
    id in q.rows && q.rows[id].sender == sender && q.rows[id].messageId == messageId
  }

  /** The first row of this sender with this message id, whoever its recipient is. */
  function FindSent(q: Queue, sender: ClientId, messageId: MessageId, from: nat): (found: Option<nat>)
    ensures found.Some? ==> from <= found.value && SentAs(q, sender, messageId, found.value)
    ensures found.None? ==> forall id: nat :: from <= id <= q.last ==> !SentAs(q, sender, messageId, id)
    decreases q.last + 1 - from
  {
    if from > q.last then None
    else if SentAs(q, sender, messageId, from) then Some(from)
    else FindSent(q, sender, messageId, from + 1)
  }

  /** Success(true) is the reply "read", Success(false) the reply "sent". */
  function Status(q: Queue, sender: ClientId, messageId: MessageId): Result<bool, Refusal> {
    match FindSent(q, sender, messageId, 1)
    case None => Failure(NotFound)
    case Some(id) => Success(Acknowledged(q.rows[id]))
  }

  function Acknowledge(q: Queue, recipient: ClientId, id: nat, now: nat): (Queue, Result<(), Refusal>) {
    if id in q.rows && q.rows[id].recipient == recipient then
      (q.(rows := q.rows[id := q.rows[id].(acknowledgedAt := Some(now))]), Success(()))
    else
      (q, Failure(NotFound))
  }

  // ---------------------------------------------------------------- what every handler keeps

  /** How the table may change under one client while others use it: ids only rise, a surviving row keeps every
      field but its acknowledgement, acknowledgements are never withdrawn, rows without an expiry never leave. */
  ghost predicate Evolves(q: Queue, q': Queue) {
    && q.last <= q'.last
    && q'.directory == q.directory && q'.addresses == q.addresses
    && (forall id :: id in q'.rows && id <= q.last ==>
          && id in q.rows
          && q'.rows[id].(acknowledgedAt := q.rows[id].acknowledgedAt) == q.rows[id]
          && (Acknowledged(q.rows[id]) ==> Acknowledged(q'.rows[id])))
    && (forall id :: id in q.rows && q.rows[id].expiresAt.None? ==> id in q'.rows)
  }

  /** No row is stored already acknowledged. */
  ghost predicate AddsUnread(q: Queue, q': Queue) {
    forall id :: id in q'.rows && id !in q.rows ==> !Acknowledged(q'.rows[id])
  }

  lemma EvolvesTransitive(a: Queue, b: Queue, c: Queue)
    requires Valid(a) && Evolves(a, b) && Evolves(b, c)
    ensures Evolves(a, c)
  {
  }

  lemma SendKeepsValid(
    q: Queue, sender: ClientId, name: string, messageId: MessageId, c: Envelope, e: Option<nat>, now: nat)
    requires Valid(q)
    ensures Valid(Send(q, sender, name, messageId, c, e, now).0)
  {
    var q' := Send(q, sender, name, messageId, c, e, now).0;
    if q' != q {
      var key := Key(sender, q.directory[name], messageId);
      assert q'.index == q.index[key := q.last + 1];
      forall k | k in q'.index ensures q'.index[k] in q'.rows && KeyOf(q'.rows[q'.index[k]]) == k {
        if k != key { assert q'.index[k] == q.index[k] != q.last + 1; }
      }
    }
  }

  /** A submission stores at most one new row, under an id never used before, with the submitted ciphertext; every
      other row is left as it was. */
  lemma SendKeeps(
    q: Queue, sender: ClientId, name: string, messageId: MessageId, c: Envelope, e: Option<nat>, now: nat)
    requires Valid(q)
    ensures var q' := Send(q, sender, name, messageId, c, e, now).0;
      && Evolves(q, q') && AddsUnread(q, q')
      && (forall id :: id in q.rows ==> id in q'.rows && q'.rows[id] == q.rows[id])
      && (forall id :: id in q'.rows && id !in q.rows ==>
            && id == q.last + 1
            && name in q.directory
            && q'.rows[id] == Row(sender, q.directory[name], messageId, c, now, e, None))
  {
  }

  /** Repeating a submission of the same (sender, recipient, message id) changes nothing, whatever bytes it
      carries, and is answered with the row stored first. */
  lemma SendIsIdempotent(
    q: Queue, sender: ClientId, name: string, messageId: MessageId, c: Envelope, e: Option<nat>, now: nat,
    c2: Envelope, e2: Option<nat>, later: nat)
    requires Valid(q)
    ensures var (q', r) := Send(q, sender, name, messageId, c, e, now);
      && (r.Success? <==> name in q.directory)
      && (r.Success? ==> r.value in q'.rows && KeyOf(q'.rows[r.value]) == Key(sender, q.directory[name], messageId))
      && Send(q', sender, name, messageId, c2, e2, later) == (q', r)
  {
  }

  lemma PurgeKeeps(q: Queue, now: nat)
    requires Valid(q)
    ensures Valid(Purge(q, now)) && Evolves(q, Purge(q, now)) && AddsUnread(q, Purge(q, now))
    ensures forall id :: id in Purge(q, now).rows <==> id in q.rows && !Expired(q.rows[id], now)
  {
  }

  /** An acknowledgement is accepted from the row's recipient only, marks that row and no other. */
  lemma AcknowledgeKeeps(q: Queue, recipient: ClientId, id: nat, now: nat)
    requires Valid(q)
    ensures var (q', r) := Acknowledge(q, recipient, id, now);
      && Evolves(q, q') && AddsUnread(q, q') && q'.rows.Keys == q.rows.Keys
      && (r.Success? <==> id in q.rows && q.rows[id].recipient == recipient)
      && (r.Success? ==> Acknowledged(q'.rows[id]))
      && (forall other :: other in q.rows && (other != id || r.Failure?) ==> q'.rows[other] == q.rows[other])
  {
    hide Valid;
  }

  lemma AcknowledgeKeepsValid(q: Queue, recipient: ClientId, id: nat, now: nat)
    requires Valid(q)
    ensures Valid(Acknowledge(q, recipient, id, now).0)
  {
    var q' := Acknowledge(q, recipient, id, now).0;
    forall other | other in q'.rows
      ensures KeyOf(q'.rows[other]) == KeyOf(q.rows[other])
    {
    }
  }

  /** The handlers over the table they share. */
  class Relay {
    var rows: map<nat, Row>
    var index: map<Key, nat>
    var last: nat
    const directory: map<string, ClientId>
    const addresses: map<ClientId, string>

    function Value(): Queue
      reads this
    {
      Queue(rows, index, last, directory, addresses)
    }

    constructor (directory: map<string, ClientId>, addresses: map<ClientId, string>)
      ensures Value() == Empty(directory, addresses)
    {
      rows, index, last := map[], map[], 0;
      this.directory, this.addresses := directory, addresses;
    }

    method SubmitMessage(
      sender: ClientId, name: string, messageId: MessageId, ciphertext: Envelope, expiresAt: Option<nat>, now: nat)
      returns (r: Result<nat, Refusal>)
      modifies this
      ensures (Value(), r) == Send(old(Value()), sender, name, messageId, ciphertext, expiresAt, now)
    {
      if name !in directory {
        return Failure(NotFound);
      }
      var recipient := directory[name];
      var key := Key(sender, recipient, messageId);
      if key in index {
        return Success(index[key]);
      }
      last := last + 1;
      rows := rows[last := Row(sender, recipient, messageId, ciphertext, now, expiresAt, None)];
      index := index[key := last];
      r := Success(last);
    }

    method ReceiveMessages(recipient: ClientId, cursor: int, now: nat) returns (page: seq<Message>)
      modifies this
      ensures (Value(), page) == Receive(old(Value()), recipient, cursor, now)
    {
      rows := map id | id in rows && !Expired(rows[id], now) :: rows[id];
      index := map key | key in index && index[key] in rows :: index[key];
      ghost var purged := Purge(old(Value()), now);
      assert Value() == purged;
      var ids: seq<nat> := [];
      var id: nat := 1;
      while id <= last && |ids| < PAGE_LIMIT
        invariant 1 <= id <= last + 1
        invariant Value() == purged
        invariant |ids| <= PAGE_LIMIT
        invariant Page(purged, recipient, cursor, 1, PAGE_LIMIT)
               == ids + Page(purged, recipient, cursor, id, PAGE_LIMIT - |ids|)
      {
        if id in rows && rows[id].recipient == recipient && id > cursor && !Acknowledged(rows[id]) {
          ids := ids + [id];
        }
        id := id + 1;
      }
      assert ids == Page(purged, recipient, cursor, 1, PAGE_LIMIT);
      page := RenderAll(Value(), ids);
    }

    method MessageStatus(sender: ClientId, messageId: MessageId) returns (r: Result<bool, Refusal>)
      ensures r == Status(Value(), sender, messageId)
    {
      var id: nat := 1;
      while id <= last
        invariant 1 <= id <= last + 1
        invariant FindSent(Value(), sender, messageId, 1) == FindSent(Value(), sender, messageId, id)
      {
        if id in rows && rows[id].sender == sender && rows[id].messageId == messageId {
          return Success(Acknowledged(rows[id]));
        }
        id := id + 1;
      }
      r := Failure(NotFound);
    }

    method AcknowledgeMessage(recipient: ClientId, id: nat, now: nat) returns (r: Result<(), Refusal>)
      modifies this
      ensures (Value(), r) == Acknowledge(old(Value()), recipient, id, now)
    {
      if id !in rows || rows[id].recipient != recipient {
        return Failure(NotFound);
      }
      rows := rows[id := rows[id].(acknowledgedAt := Some(now))];
      r := Success(());
    }
  }
}
