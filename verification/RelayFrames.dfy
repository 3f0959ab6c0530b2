/** The relay's binary frames as values: how each field is written and read, and that reading inverts writing. */
module RelayFrames {
  import opened Wrappers
  import opened Bytes
  import opened Utf8
  import opened Fields

  datatype Submit = Submit(recipient: Text, messageId: Text, expiresAt: Option<U64>, ciphertext: seq<byte>)

  datatype Message = Message(
    serverId: I64, sender: Text, senderAddress: Option<Text>, messageId: Text,
    acceptedAt: U64, expiresAt: Option<U64>, ciphertext: seq<byte>)

  const VERSION: nat := 1
  const SCHEMA: nat := 1
  const KIND_SUBMIT: byte := 1
  const KIND_MESSAGES: byte := 2
  const MAX_MESSAGES: nat := 100
  const MAX_BODY: nat := 16 * 1024 * 1024
  const MAX_RECIPIENT: nat := 256
  const MAX_MESSAGE_ID: nat := 256
  const MAX_ADDRESS: nat := 256
  const MAX_CIPHERTEXT: nat := MAX_BODY

  // ---------------------------------------------------------------- writing

  function PutHeader(kind: byte): seq<byte> {
    BigEndian(VERSION, 2) + BigEndian(SCHEMA, 2) + [kind]
  }

  function PutExpiry(value: Option<U64>): seq<byte> {
    match value case Some(at) => [1] + BigEndian(at, 8) case None => [0]
  }

  function PutAddress(value: Option<Text>): seq<byte> {
    match value case Some(address) => [1] + PutBytes(address) case None => [0]
  }

  /** Two's complement. */
  function Unsigned(n: I64): U64 {
    if n < 0 then n + TWO_64 else n
  }

  function Signed(n: U64): I64 {
    if n >= TWO_63 then n - TWO_64 else n
  }

  predicate SubmitInLimits(v: Submit) {
    |v.recipient| <= MAX_RECIPIENT && |v.messageId| <= MAX_MESSAGE_ID && |v.ciphertext| <= MAX_CIPHERTEXT
  }

  predicate InLimits(m: Message) {
    && |m.sender| <= MAX_ADDRESS && (m.senderAddress.Some? ==> |m.senderAddress.value| <= MAX_ADDRESS)
    && |m.messageId| <= MAX_MESSAGE_ID && |m.ciphertext| <= MAX_CIPHERTEXT
  }

  function PutSubmit(v: Submit): seq<byte> {
    PutHeader(KIND_SUBMIT) + PutBytes(v.recipient) + PutBytes(v.messageId) + PutExpiry(v.expiresAt) + PutBytes(v.ciphertext)
  }

  function PutMessage(m: Message): seq<byte> {
    BigEndian(Unsigned(m.serverId), 8) + PutBytes(m.sender) + PutAddress(m.senderAddress) + PutBytes(m.messageId)
    + BigEndian(m.acceptedAt, 8) + PutExpiry(m.expiresAt) + PutBytes(m.ciphertext)
  }

  function PutAll(messages: seq<Message>): seq<byte> {
    if messages == [] then [] else PutMessage(messages[0]) + PutAll(messages[1..])
  }

  function PutMessages(messages: seq<Message>): seq<byte> {
    PutHeader(KIND_MESSAGES) + BigEndian(|messages|, 4) + PutAll(messages)
  }

  function EncodeSubmit(v: Submit): Result<seq<byte>, Malformed> {
    if !SubmitInLimits(v) then Failure(TooLong)
    else if |PutSubmit(v)| > MAX_BODY then Failure(TooLarge)
    else Success(PutSubmit(v))
  }

  function EncodeMessages(messages: seq<Message>): Result<seq<byte>, Malformed> {
    if |messages| > MAX_MESSAGES then Failure(TooMany)
    else if exists i :: 0 <= i < |messages| && !InLimits(messages[i]) then Failure(TooLong)
    else if |PutMessages(messages)| > MAX_BODY then Failure(TooLarge)
    else Success(PutMessages(messages))
  }

  // ---------------------------------------------------------------- reading

  function ParseExpiry(s: seq<byte>): Result<Parsed<Option<U64>>, Malformed> {
    var flag :- ParseByte(s);
    if flag.value == 0 then Success(Parsed(None, flag.rest))
    else if flag.value == 1 then
      var at :- ParseU64(flag.rest);
      Success(Parsed(Some(at.value), at.rest))
    else Failure(UnknownFlag)
  }

  function ParseAddress(s: seq<byte>): Result<Parsed<Option<Text>>, Malformed> {
    var flag :- ParseByte(s);
    if flag.value == 0 then Success(Parsed(None, flag.rest))
    else if flag.value == 1 then
      var address :- ParseText(flag.rest, MAX_ADDRESS);
      Success(Parsed(Some(address.value), address.rest))
    else Failure(UnknownFlag)
  }

  function ParseHeader(s: seq<byte>, kind: byte): Result<seq<byte>, Malformed> {
    if |s| > MAX_BODY then Failure(TooLarge)
    else if |s| < 5 then Failure(ShortHeader)
    else if FromBigEndian(s[..2]) != VERSION || FromBigEndian(s[2..4]) != SCHEMA then Failure(WrongVersion)
    else if s[4] != kind then Failure(WrongKind)
    else Success(s[5..])
  }

  function ParseSubmit(s: seq<byte>): Result<Parsed<Submit>, Malformed> {
    var recipient :- ParseText(s, MAX_RECIPIENT);
    var messageId :- ParseText(recipient.rest, MAX_MESSAGE_ID);
    var expiresAt :- ParseExpiry(messageId.rest);
    var ciphertext :- ParseBytes(expiresAt.rest, MAX_CIPHERTEXT);
    Success(Parsed(Submit(recipient.value, messageId.value, expiresAt.value, ciphertext.value), ciphertext.rest))
  }

  function ParseMessage(s: seq<byte>): Result<Parsed<Message>, Malformed> {
    var serverId :- ParseU64(s);
    var sender :- ParseText(serverId.rest, MAX_ADDRESS);
    var address :- ParseAddress(sender.rest);
    var messageId :- ParseText(address.rest, MAX_MESSAGE_ID);
    var acceptedAt :- ParseU64(messageId.rest);
    var expiresAt :- ParseExpiry(acceptedAt.rest);
    var ciphertext :- ParseBytes(expiresAt.rest, MAX_CIPHERTEXT);
    Success(Parsed(
      Message(Signed(serverId.value), sender.value, address.value, messageId.value, acceptedAt.value,
              expiresAt.value, ciphertext.value),
      ciphertext.rest))
  }

  function ParseAll(s: seq<byte>, count: nat): Result<Parsed<seq<Message>>, Malformed>
    decreases count
  {
    if count == 0 then Success(Parsed([], s))
    else
      var first :- ParseMessage(s);
      var others :- ParseAll(first.rest, count - 1);
      Success(Parsed([first.value] + others.value, others.rest))
  }

  function DecodeSubmit(input: seq<byte>): Result<Submit, Malformed> {
    var body :- ParseHeader(input, KIND_SUBMIT);
    var v :- ParseSubmit(body);
    if v.rest != [] then Failure(Trailing) else Success(v.value)
  }

  function DecodeMessages(input: seq<byte>): Result<seq<Message>, Malformed> {
    var body :- ParseHeader(input, KIND_MESSAGES);
    var count :- ParseInt(body, 4);
    if count.value > MAX_MESSAGES then Failure(TooMany)
    else
      var all :- ParseAll(count.rest, count.value);
      if all.rest != [] then Failure(Trailing) else Success(all.value)
  }

  // ---------------------------------------------------------------- one field: reading inverts writing

  lemma ExpiryRoundTrip(v: Option<U64>, rest: seq<byte>)
    ensures ParseExpiry(PutExpiry(v) + rest) == Success(Parsed(v, rest))
  {
    hide BigEndian, ParseU64, ParseByte;
    if v.Some? {
      Regroup([1], BigEndian(v.value, 8), rest);
      ByteRoundTrip(1, BigEndian(v.value, 8) + rest);
      U64RoundTrip(v.value, rest);
    } else {
      ByteRoundTrip(0, rest);
    }
  }

  lemma ExpiryCanonical(s: seq<byte>)
    requires ParseExpiry(s).Success?
    ensures var p := ParseExpiry(s).value; s == PutExpiry(p.value) + p.rest
  {
    hide BigEndian, ParseU64, ParseByte;
    ByteCanonical(s);
    var flag := ParseByte(s).value;
    if flag.value == 1 {
      U64Canonical(flag.rest);
      var at := ParseU64(flag.rest).value;
      Regroup([1], BigEndian(at.value, 8), at.rest);
    }
  }

  lemma AddressRoundTrip(v: Option<Text>, rest: seq<byte>)
    requires v.Some? ==> |v.value| <= MAX_ADDRESS
    ensures ParseAddress(PutAddress(v) + rest) == Success(Parsed(v, rest))
  {
    hide PutBytes, ParseText, ParseByte, IsUtf8;
    if v.Some? {
      Regroup([1], PutBytes(v.value), rest);
      ByteRoundTrip(1, PutBytes(v.value) + rest);
      TextRoundTrip(v.value, MAX_ADDRESS, rest);
    } else {
      ByteRoundTrip(0, rest);
    }
  }

  lemma AddressCanonical(s: seq<byte>)
    requires ParseAddress(s).Success?
    ensures var p := ParseAddress(s).value;
      s == PutAddress(p.value) + p.rest && (p.value.Some? ==> |p.value.value| <= MAX_ADDRESS)
  {
    hide PutBytes, ParseText, ParseByte, IsUtf8;
    ByteCanonical(s);
    var flag := ParseByte(s).value;
    if flag.value == 1 {
      TextCanonical(flag.rest, MAX_ADDRESS);
      var address := ParseText(flag.rest, MAX_ADDRESS).value;
      Regroup([1], PutBytes(address.value), address.rest);
    }
  }

  // ---------------------------------------------------------------- one message

  lemma MessageNested(m: Message, rest: seq<byte>)
    ensures PutMessage(m) + rest
         == BigEndian(Unsigned(m.serverId), 8) + (PutBytes(m.sender) + (PutAddress(m.senderAddress)
          + (PutBytes(m.messageId) + (BigEndian(m.acceptedAt, 8) + (PutExpiry(m.expiresAt)
          + (PutBytes(m.ciphertext) + rest))))))
  {
    hide BigEndian, PutBytes, PutAddress, PutExpiry, IsUtf8;
    var a, b, c := BigEndian(Unsigned(m.serverId), 8), PutBytes(m.sender), PutAddress(m.senderAddress);
    var d, e, f := PutBytes(m.messageId), BigEndian(m.acceptedAt, 8), PutExpiry(m.expiresAt);
    var g := PutBytes(m.ciphertext);
    Regroup(a + b + c + d + e + f, g, rest);
    Regroup(a + b + c + d + e, f, g + rest);
    Regroup(a + b + c + d, e, f + (g + rest));
    Regroup(a + b + c, d, e + (f + (g + rest)));
    Regroup(a + b, c, d + (e + (f + (g + rest))));
    Regroup(a, b, c + (d + (e + (f + (g + rest)))));
  }

  lemma MessageRoundTrip(m: Message, rest: seq<byte>)
    requires InLimits(m)
    ensures ParseMessage(PutMessage(m) + rest) == Success(Parsed(m, rest))
  {
    hide BigEndian, PutBytes, PutAddress, PutExpiry, IsUtf8, PutMessage;
    hide ParseU64, ParseText, ParseAddress, ParseExpiry, ParseBytes;
    MessageNested(m, rest);
    var g := PutBytes(m.ciphertext) + rest;
    var f := PutExpiry(m.expiresAt) + g;
    var e := BigEndian(m.acceptedAt, 8) + f;
    var d := PutBytes(m.messageId) + e;
    var c := PutAddress(m.senderAddress) + d;
    var b := PutBytes(m.sender) + c;
    U64RoundTrip(Unsigned(m.serverId), b);
    TextRoundTrip(m.sender, MAX_ADDRESS, c);
    AddressRoundTrip(m.senderAddress, d);
    TextRoundTrip(m.messageId, MAX_MESSAGE_ID, e);
    U64RoundTrip(m.acceptedAt, f);
    ExpiryRoundTrip(m.expiresAt, g);
    BytesRoundTrip(m.ciphertext, MAX_CIPHERTEXT, rest);
  }

  lemma MessageCanonical(s: seq<byte>)
    requires ParseMessage(s).Success?
    ensures var p := ParseMessage(s).value; InLimits(p.value) && s == PutMessage(p.value) + p.rest
  {
    hide BigEndian, PutBytes, PutAddress, PutExpiry, IsUtf8, PutMessage;
    hide ParseU64, ParseText, ParseAddress, ParseExpiry, ParseBytes;
    var serverId := ParseU64(s).value;
    U64Canonical(s);
    var sender := ParseText(serverId.rest, MAX_ADDRESS).value;
    TextCanonical(serverId.rest, MAX_ADDRESS);
    var address := ParseAddress(sender.rest).value;
    AddressCanonical(sender.rest);
    var messageId := ParseText(address.rest, MAX_MESSAGE_ID).value;
    TextCanonical(address.rest, MAX_MESSAGE_ID);
    var acceptedAt := ParseU64(messageId.rest).value;
    U64Canonical(messageId.rest);
    var expiresAt := ParseExpiry(acceptedAt.rest).value;
    ExpiryCanonical(acceptedAt.rest);
    BytesCanonical(expiresAt.rest, MAX_CIPHERTEXT);
    var p := ParseMessage(s).value;
    assert Unsigned(Signed(serverId.value)) == serverId.value;
    MessageNested(p.value, p.rest);
  }

  // ---------------------------------------------------------------- whole frames

  lemma HeaderRoundTrip(kind: byte, rest: seq<byte>)
    requires 5 + |rest| <= MAX_BODY
    ensures ParseHeader(PutHeader(kind) + rest, kind) == Success(rest)
  {
    BigEndianRoundTrip(VERSION, 2);
    BigEndianRoundTrip(SCHEMA, 2);
    Powers();
    hide BigEndian, FromBigEndian, Power256;
    var s := PutHeader(kind) + rest;
    assert s[..2] == BigEndian(VERSION, 2) && s[2..4] == BigEndian(SCHEMA, 2);
    assert s[4] == kind && s[5..] == rest;
  }

  lemma HeaderCanonical(s: seq<byte>, kind: byte)
    requires ParseHeader(s, kind).Success?
    ensures s == PutHeader(kind) + ParseHeader(s, kind).value && |s| <= MAX_BODY
  {
    FromBigEndianRoundTrip(s[..2]);
    FromBigEndianRoundTrip(s[2..4]);
    hide BigEndian, FromBigEndian, Power256;
    assert s == s[..2] + s[2..4] + [s[4]] + s[5..];
  }

  lemma {:induction false} AllRoundTrip(messages: seq<Message>, rest: seq<byte>)
    requires forall i :: 0 <= i < |messages| ==> InLimits(messages[i])
    ensures ParseAll(PutAll(messages) + rest, |messages|) == Success(Parsed(messages, rest))
  {
    hide PutMessage, ParseMessage, IsUtf8;
    if messages == [] {
      assert PutAll(messages) + rest == rest;
    } else {
      var others := messages[1..];
      Regroup(PutMessage(messages[0]), PutAll(others), rest);
      MessageRoundTrip(messages[0], PutAll(others) + rest);
      AllRoundTrip(others, rest);
      assert messages == [messages[0]] + others;
    }
  }

  lemma {:induction false} AllCanonical(s: seq<byte>, count: nat)
    requires ParseAll(s, count).Success?
    ensures var p := ParseAll(s, count).value;
      && |p.value| == count && (forall i :: 0 <= i < count ==> InLimits(p.value[i]))
      && s == PutAll(p.value) + p.rest
    decreases count
  {
    hide PutMessage, ParseMessage, IsUtf8, InLimits;
    if count > 0 {
      MessageCanonical(s);
      var first := ParseMessage(s).value;
      AllCanonical(first.rest, count - 1);
      var others := ParseAll(first.rest, count - 1).value;
      var all := [first.value] + others.value;
      assert all[1..] == others.value;
      Regroup(PutMessage(first.value), PutAll(others.value), others.rest);
    }
  }

  lemma SubmitNested(v: Submit, rest: seq<byte>)
    ensures PutSubmit(v) + rest
         == PutHeader(KIND_SUBMIT) + (PutBytes(v.recipient) + (PutBytes(v.messageId) + (PutExpiry(v.expiresAt)
          + (PutBytes(v.ciphertext) + rest))))
  {
    hide BigEndian, PutBytes, PutExpiry, PutHeader, IsUtf8;
    var a, b, c := PutHeader(KIND_SUBMIT), PutBytes(v.recipient), PutBytes(v.messageId);
    var d, e := PutExpiry(v.expiresAt), PutBytes(v.ciphertext);
    Regroup(a + b + c + d, e, rest);
    Regroup(a + b + c, d, e + rest);
    Regroup(a + b, c, d + (e + rest));
    Regroup(a, b, c + (d + (e + rest)));
  }

  /** The fields of a submission after its header. */
  function SubmitBody(v: Submit, rest: seq<byte>): seq<byte> {
    PutBytes(v.recipient) + (PutBytes(v.messageId) + (PutExpiry(v.expiresAt) + (PutBytes(v.ciphertext) + rest)))
  }

  lemma SubmitRoundTrip(v: Submit, rest: seq<byte>)
    requires SubmitInLimits(v)
    ensures ParseSubmit(SubmitBody(v, rest)) == Success(Parsed(v, rest))
  {
    hide PutBytes, PutExpiry, IsUtf8, ParseText, ParseExpiry, ParseBytes;
    var d := PutBytes(v.ciphertext) + rest;
    var c := PutExpiry(v.expiresAt) + d;
    TextRoundTrip(v.recipient, MAX_RECIPIENT, PutBytes(v.messageId) + c);
    TextRoundTrip(v.messageId, MAX_MESSAGE_ID, c);
    ExpiryRoundTrip(v.expiresAt, d);
    BytesRoundTrip(v.ciphertext, MAX_CIPHERTEXT, rest);
  }

  lemma SubmitCanonical(s: seq<byte>)
    requires ParseSubmit(s).Success?
    ensures var p := ParseSubmit(s).value; SubmitInLimits(p.value) && s == SubmitBody(p.value, p.rest)
  {
    hide PutBytes, PutExpiry, IsUtf8, ParseText, ParseExpiry, ParseBytes;
    var recipient := ParseText(s, MAX_RECIPIENT).value;
    TextCanonical(s, MAX_RECIPIENT);
    var messageId := ParseText(recipient.rest, MAX_MESSAGE_ID).value;
    TextCanonical(recipient.rest, MAX_MESSAGE_ID);
    ExpiryCanonical(messageId.rest);
    BytesCanonical(ParseExpiry(messageId.rest).value.rest, MAX_CIPHERTEXT);
  }

  /** What `encode_submit` writes, `decode_submit` reads back; and whatever `decode_submit` accepts is what
      `encode_submit` writes for the value it returns. */
  lemma SubmitBijection(input: seq<byte>, v: Submit)
    ensures DecodeSubmit(input) == Success(v) <==> EncodeSubmit(v) == Success(input)
  {
    hide BigEndian, PutBytes, PutExpiry, PutHeader, IsUtf8, ParseHeader, ParseSubmit;
    SubmitNested(v, []);
    if EncodeSubmit(v) == Success(input) {
      assert input + [] == input;
      HeaderLength(KIND_SUBMIT);
      HeaderRoundTrip(KIND_SUBMIT, SubmitBody(v, []));
      SubmitRoundTrip(v, []);
    }
    if DecodeSubmit(input) == Success(v) {
      HeaderCanonical(input, KIND_SUBMIT);
      SubmitCanonical(ParseHeader(input, KIND_SUBMIT).value);
      assert PutSubmit(v) + [] == PutSubmit(v);
    }
  }

  lemma HeaderLength(kind: byte)
    ensures |PutHeader(kind)| == 5
  {
  }

  /** The messages of a frame after its header. */
  function MessagesBody(messages: seq<Message>, rest: seq<byte>): seq<byte> {
    BigEndian(|messages|, 4) + (PutAll(messages) + rest)
  }

  lemma MessagesNested(messages: seq<Message>, rest: seq<byte>)
    ensures PutMessages(messages) + rest == PutHeader(KIND_MESSAGES) + MessagesBody(messages, rest)
  {
    hide BigEndian, PutHeader, PutAll;
    Regroup(PutHeader(KIND_MESSAGES) + BigEndian(|messages|, 4), PutAll(messages), rest);
    Regroup(PutHeader(KIND_MESSAGES), BigEndian(|messages|, 4), PutAll(messages) + rest);
  }

  /** The same for a batch of messages. */
  lemma MessagesBijection(input: seq<byte>, messages: seq<Message>)
    ensures DecodeMessages(input) == Success(messages) <==> EncodeMessages(messages) == Success(input)
  {
    hide BigEndian, PutHeader, PutAll, IsUtf8, ParseHeader, ParseInt, ParseAll, InLimits, Power256;
    MessagesNested(messages, []);
    assert PutMessages(messages) + [] == PutMessages(messages);
    if EncodeMessages(messages) == Success(input) {
      HeaderLength(KIND_MESSAGES);
      HeaderRoundTrip(KIND_MESSAGES, MessagesBody(messages, []));
      Powers();
      IntRoundTrip(|messages|, 4, PutAll(messages) + []);
      AllRoundTrip(messages, []);
    }
    if DecodeMessages(input) == Success(messages) {
      HeaderCanonical(input, KIND_MESSAGES);
      var body := ParseHeader(input, KIND_MESSAGES).value;
      IntCanonical(body, 4);
      var count := ParseInt(body, 4).value;
      AllCanonical(count.rest, count.value);
    }
  }

  // ---------------------------------------------------------------- no accepted frame is a prefix of another

  lemma SubmitPrefixFree(a: seq<byte>, more: seq<byte>)
    requires DecodeSubmit(a).Success? && DecodeSubmit(a + more).Success?
    ensures more == []
  {
    hide BigEndian, PutBytes, PutExpiry, PutHeader, IsUtf8, ParseHeader, ParseSubmit, PutSubmit;
    var v := DecodeSubmit(a).value;
    SubmitBijection(a, v);
    SubmitNested(v, more);
    HeaderCanonical(a + more, KIND_SUBMIT);
    HeaderLength(KIND_SUBMIT);
    HeaderRoundTrip(KIND_SUBMIT, SubmitBody(v, more));
    SubmitRoundTrip(v, more);
  }

  lemma MessagesPrefixFree(a: seq<byte>, more: seq<byte>)
    requires DecodeMessages(a).Success? && DecodeMessages(a + more).Success?
    ensures more == []
  {
    hide BigEndian, PutHeader, PutAll, IsUtf8, ParseHeader, ParseInt, ParseAll, InLimits, Power256, PutMessages;
    var messages := DecodeMessages(a).value;
    MessagesBijection(a, messages);
    MessagesNested(messages, more);
    HeaderCanonical(a + more, KIND_MESSAGES);
    HeaderLength(KIND_MESSAGES);
    HeaderRoundTrip(KIND_MESSAGES, MessagesBody(messages, more));
    Powers();
    IntRoundTrip(|messages|, 4, PutAll(messages) + more);
    AllRoundTrip(messages, more);
  }

  /** A frame of one kind is never read as the other. */
  lemma KindsAreDisjoint(input: seq<byte>)
    ensures !(DecodeSubmit(input).Success? && DecodeMessages(input).Success?)
  {
    hide ParseSubmit, ParseInt, ParseAll, FromBigEndian;
  }

  // ---------------------------------------------------------------- sizes

  const OVERHEAD: nat := 810

  function MessageSize(m: Message): nat {
    30 + |m.sender| + (if m.senderAddress.Some? then 4 + |m.senderAddress.value| else 0) + |m.messageId|
    + (if m.expiresAt.Some? then 8 else 0) + |m.ciphertext|
  }

  function TotalSize(messages: seq<Message>): nat {
    if messages == [] then 0 else MessageSize(messages[0]) + TotalSize(messages[1..])
  }

  function TotalCiphertext(messages: seq<Message>): nat {
    if messages == [] then 0 else |messages[0].ciphertext| + TotalCiphertext(messages[1..])
  }

  lemma {:induction false} AllSize(messages: seq<Message>)
    ensures |PutAll(messages)| == TotalSize(messages)
  {
    hide BigEndian, IsUtf8;
    if messages != [] { AllSize(messages[1..]); }
  }

  /** A batch encodes exactly when it has at most 100 messages, each within its limits, and 9 bytes plus the sizes
      of the messages fit the body. */
  lemma MessagesEncodeIff(messages: seq<Message>)
    ensures EncodeMessages(messages).Success?
      <==> (&& |messages| <= MAX_MESSAGES
            && (forall i :: 0 <= i < |messages| ==> InLimits(messages[i]))
            && 9 + TotalSize(messages) <= MAX_BODY)
    ensures EncodeMessages(messages).Success? ==> |EncodeMessages(messages).value| == 9 + TotalSize(messages)
  {
    hide BigEndian, PutAll, TotalSize, InLimits, IsUtf8;
    AllSize(messages);
  }

  lemma {:induction false} OverheadBound(messages: seq<Message>)
    requires forall i :: 0 <= i < |messages| ==> InLimits(messages[i])
    ensures TotalSize(messages) <= TotalCiphertext(messages) + OVERHEAD * |messages|
  {
    hide IsUtf8;
    if messages != [] {
      assert InLimits(messages[0]);
      OverheadBound(messages[1..]);
    }
  }

  /** Any 100 messages within their limits encode, if their ciphertexts together leave room for the overhead. */
  lemma BoundedBatchEncodes(messages: seq<Message>)
    requires |messages| <= MAX_MESSAGES && forall i :: 0 <= i < |messages| ==> InLimits(messages[i])
    requires TotalCiphertext(messages) <= MAX_BODY - 9 - MAX_MESSAGES * OVERHEAD
    ensures EncodeMessages(messages).Success?
  {
    hide TotalSize, TotalCiphertext, InLimits, EncodeMessages, IsUtf8;
    OverheadBound(messages);
    MessagesEncodeIff(messages);
  }
}
