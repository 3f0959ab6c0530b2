/** The frame encoders, which append to an output, and the decoders, which move a reader over the input. */
module RelayProtocol {
  import opened Wrappers
  import opened Bytes
  import opened Utf8
  import opened Fields
  import opened RelayFrames

  // ---------------------------------------------------------------- encoders

  method Header(kind: byte, output: seq<byte>) returns (r: seq<byte>)
    ensures r == output + PutHeader(kind)
  {
    r := output + BigEndian(VERSION, 2);
    r := r + BigEndian(SCHEMA, 2);
    r := r + [kind];
  }

  method AppendBytes(output: seq<byte>, value: seq<byte>, limit: nat) returns (r: Result<seq<byte>, Malformed>)
    ensures r == if |value| > limit then Failure(TooLong) else Success(output + PutBytes(value))
  {
    hide BigEndian;
    if |value| > limit { return Failure(TooLong); }
    var longer := output + BigEndian(|value|, 4);
    longer := longer + value;
    assert longer == output + PutBytes(value);
    r := Success(longer);
  }

  method AppendExpiry(output: seq<byte>, value: Option<U64>) returns (r: seq<byte>)
    ensures r == output + PutExpiry(value)
  {
    hide BigEndian;
    match value
    case Some(at) =>
      r := output + [1];
      r := r + BigEndian(at, 8);
      assert r == output + PutExpiry(value);
    case None => r := output + [0];
  }

  method CheckBody(output: seq<byte>) returns (r: Result<seq<byte>, Malformed>)
    ensures r == if |output| > MAX_BODY then Failure(TooLarge) else Success(output)
  {
    if |output| > MAX_BODY { return Failure(TooLarge); }
    r := Success(output);
  }

  method WriteSubmit(value: Submit) returns (r: Result<seq<byte>, Malformed>)
    ensures r == EncodeSubmit(value)
  {
    hide PutHeader, PutBytes, PutExpiry, IsUtf8;
    var output := Header(KIND_SUBMIT, []);
    output :- AppendBytes(output, value.recipient, MAX_RECIPIENT);
    output :- AppendBytes(output, value.messageId, MAX_MESSAGE_ID);
    output := AppendExpiry(output, value.expiresAt);
    output :- AppendBytes(output, value.ciphertext, MAX_CIPHERTEXT);
    assert output == PutSubmit(value);
    r := CheckBody(output);
  }

  method AppendMessage(output: seq<byte>, m: Message) returns (r: Result<seq<byte>, Malformed>)
    ensures r == if InLimits(m) then Success(output + PutMessage(m)) else Failure(TooLong)
  {
    hide PutBytes, PutExpiry, BigEndian, IsUtf8;
    var longer := output + BigEndian(Unsigned(m.serverId), 8);
    longer :- AppendBytes(longer, m.sender, MAX_ADDRESS);
    match m.senderAddress {
      case Some(address) =>
        longer := longer + [1];
        longer :- AppendBytes(longer, address, MAX_ADDRESS);
      case None => longer := longer + [0];
    }
    assert longer
      == output + (BigEndian(Unsigned(m.serverId), 8) + PutBytes(m.sender) + PutAddress(m.senderAddress));
    longer :- AppendBytes(longer, m.messageId, MAX_MESSAGE_ID);
    longer := longer + BigEndian(m.acceptedAt, 8);
    longer := AppendExpiry(longer, m.expiresAt);
    longer :- AppendBytes(longer, m.ciphertext, MAX_CIPHERTEXT);
    hide PutAddress;
    assert longer == output + PutMessage(m);
    r := Success(longer);
  }

  lemma {:induction false} PutAllExtended(messages: seq<Message>, m: Message)
    ensures PutAll(messages + [m]) == PutAll(messages) + PutMessage(m)
  {
    hide PutMessage, IsUtf8;
    if messages == [] {
      assert messages + [m] == [m] && [m][1..] == [];
    } else {
      PutAllExtended(messages[1..], m);
      assert (messages + [m])[1..] == messages[1..] + [m];
    }
  }

  method WriteMessages(messages: seq<Message>) returns (r: Result<seq<byte>, Malformed>)
    ensures r == EncodeMessages(messages)
  {
    hide PutHeader, PutMessage, InLimits, BigEndian, IsUtf8, PutAll;
    if |messages| > MAX_MESSAGES { return Failure(TooMany); }
    var output := Header(KIND_MESSAGES, []);
    output := output + BigEndian(|messages|, 4);
    ghost var start := output;
    assert PutAll(messages[..0]) == [] by { NoMessages(); }
    for i := 0 to |messages|
      invariant output == start + PutAll(messages[..i])
      invariant forall k :: 0 <= k < i ==> InLimits(messages[k])
    {
      PutAllExtended(messages[..i], messages[i]);
      assert messages[..i] + [messages[i]] == messages[..i + 1];
      output :- AppendMessage(output, messages[i]);
    }
    assert messages[..|messages|] == messages;
    assert output == PutMessages(messages);
    r := CheckBody(output);
  }

  lemma NoMessages()
    ensures PutAll([]) == []
  {
  }

  // ---------------------------------------------------------------- the reader

  class Reader {
    const input: seq<byte>
    var offset: nat

    ghost predicate Valid()
      reads this
    {
      offset <= |input|
    }

    ghost function Rest(): seq<byte>
      requires Valid()
      reads this
    {
      input[offset..]
    }

    /** Success yields the parsed value and leaves the rest of the input; the reader of a failure is not used again. */
    ghost predicate Reads<T>(parsed: Result<Parsed<T>, Malformed>, r: Result<T, Malformed>)
      reads this
    {
      && Valid()
      && match parsed
         case Success(p) => r == Success(p.value) && Rest() == p.rest
         case Failure(e) => r == Failure(e)
    }

    constructor At(input: seq<byte>, offset: nat)
      requires offset <= |input|
      ensures Valid() && Rest() == input[offset..]
    {
      this.input := input;
      this.offset := offset;
    }

    method Take(length: nat) returns (r: Result<seq<byte>, Malformed>)
      requires Valid()
      modifies this
      ensures Valid()
      ensures if |old(Rest())| < length then r == Failure(Truncated)
              else r == Success(old(Rest())[..length]) && Rest() == old(Rest())[length..]
    {
      var end := offset + length;
      if end > |input| { return Failure(Truncated); }
      ghost var rest := Rest();
      r := Success(input[offset..end]);
      offset := end;
      assert r.value == rest[..length] && Rest() == rest[length..];
    }

    method U8() returns (r: Result<byte, Malformed>)
      requires Valid()
      modifies this
      ensures Reads(ParseByte(old(Rest())), r)
    {
      var taken :- Take(1);
      r := Success(taken[0]);
    }

    method U32() returns (r: Result<nat, Malformed>)
      requires Valid()
      modifies this
      ensures Reads(ParseInt(old(Rest()), 4), r)
    {
      hide FromBigEndian;
      var taken :- Take(4);
      r := Success(FromBigEndian(taken));
    }

    method U64() returns (r: Result<U64, Malformed>)
      requires Valid()
      modifies this
      ensures Reads(ParseU64(old(Rest())), r)
    {
      hide FromBigEndian, Power256;
      var taken :- Take(8);
      FromBigEndianBound(taken);
      Powers();
      r := Success(FromBigEndian(taken));
    }

    method I64() returns (r: Result<I64, Malformed>)
      requires Valid()
      modifies this
      ensures var parsed := ParseU64(old(Rest()));
        && Valid()
        && (parsed.Success? ==> r == Success(Signed(parsed.value.value)) && Rest() == parsed.value.rest)
        && (parsed.Failure? ==> r == Failure(parsed.error))
    {
      var n :- U64();
      r := Success(Signed(n));
    }

    method ReadBytes(limit: nat) returns (r: Result<seq<byte>, Malformed>)
      requires Valid()
      modifies this
      ensures Reads(ParseBytes(old(Rest()), limit), r)
    {
      hide FromBigEndian;
      var length :- U32();
      if length > limit { return Failure(TooLong); }
      r := Take(length);
    }

    method ReadString(limit: nat) returns (r: Result<Text, Malformed>)
      requires Valid()
      modifies this
      ensures Reads(ParseText(old(Rest()), limit), r)
    {
      hide ParseBytes;
      var bytes :- ReadBytes(limit);
      if !IsUtf8(bytes) { return Failure(NotUtf8); }
      r := Success(bytes);
    }

    method ReadExpiry() returns (r: Result<Option<U64>, Malformed>)
      requires Valid()
      modifies this
      ensures Reads(ParseExpiry(old(Rest())), r)
    {
      hide ParseByte, ParseU64;
      var flag :- U8();
      if flag == 0 { return Success(None); }
      if flag != 1 { return Failure(UnknownFlag); }
      var at :- U64();
      r := Success(Some(at));
    }

    method ReadAddress() returns (r: Result<Option<Text>, Malformed>)
      requires Valid()
      modifies this
      ensures Reads(ParseAddress(old(Rest())), r)
    {
      hide ParseByte, ParseText;
      var flag :- U8();
      if flag == 0 { return Success(None); }
      if flag != 1 { return Failure(UnknownFlag); }
      var address :- ReadString(MAX_ADDRESS);
      r := Success(Some(address));
    }

    method ReadMessage() returns (r: Result<Message, Malformed>)
      requires Valid()
      modifies this
      ensures Reads(ParseMessage(old(Rest())), r)
    {
      hide ParseU64, ParseText, ParseAddress, ParseExpiry, ParseBytes, IsUtf8;
      var serverId :- I64();
      var sender :- ReadString(MAX_ADDRESS);
      var senderAddress :- ReadAddress();
      var messageId :- ReadString(MAX_MESSAGE_ID);
      var acceptedAt :- U64();
      var expiresAt :- ReadExpiry();
      var ciphertext :- ReadBytes(MAX_CIPHERTEXT);
      r := Success(Message(serverId, sender, senderAddress, messageId, acceptedAt, expiresAt, ciphertext));
    }

    method Finish() returns (r: Result<(), Malformed>)
      requires Valid()
      ensures r == if Rest() == [] then Success(()) else Failure(Trailing)
    {
      if offset != |input| { return Failure(Trailing); }
      r := Success(());
    }
  }

  method NewReader(input: seq<byte>, kind: byte) returns (r: Result<Reader, Malformed>)
    ensures match ParseHeader(input, kind)
            case Success(body) => r.Success? && fresh(r.value) && r.value.Valid() && r.value.Rest() == body
            case Failure(e) => r == Failure(e)
  {
    if |input| > MAX_BODY { return Failure(TooLarge); }
    if |input| < 5 { return Failure(ShortHeader); }
    var version := FromBigEndian(input[..2]);
    var schema := FromBigEndian(input[2..4]);
    if version != VERSION || schema != SCHEMA { return Failure(WrongVersion); }
    if input[4] != kind { return Failure(WrongKind); }
    var reader := new Reader.At(input, 5);
    r := Success(reader);
  }

  method ReadSubmit(input: seq<byte>) returns (r: Result<Submit, Malformed>)
    ensures r == DecodeSubmit(input)
  {
    hide ParseHeader, ParseText, ParseExpiry, ParseBytes, IsUtf8;
    var reader :- NewReader(input, KIND_SUBMIT);
    var recipient :- reader.ReadString(MAX_RECIPIENT);
    var messageId :- reader.ReadString(MAX_MESSAGE_ID);
    var expiresAt :- reader.ReadExpiry();
    var ciphertext :- reader.ReadBytes(MAX_CIPHERTEXT);
    var _ :- reader.Finish();
    r := Success(Submit(recipient, messageId, expiresAt, ciphertext));
  }

  /** Reading a batch, message by message. */
  lemma {:induction false} ParseAllStep(s: seq<byte>, done: nat, count: nat)
    requires done < count && ParseAll(s, done).Success?
    ensures var p := ParseAll(s, done).value; var next := ParseMessage(p.rest);
      && (next.Success? ==> ParseAll(s, done + 1) == Success(Parsed(p.value + [next.value.value], next.value.rest)))
      && (next.Failure? ==> ParseAll(s, count) == Failure(next.error))
    decreases done
  {
    hide ParseMessage;
    if done == 0 {
      if ParseMessage(s).Success? {
        var first := ParseMessage(s).value;
        assert ParseAll(first.rest, 0) == Success(Parsed([], first.rest));
        assert ParseAll(s, 1) == Success(Parsed([first.value] + [], first.rest));
        assert [first.value] + [] == [] + [first.value];
      }
    } else {
      var first := ParseMessage(s).value;
      ParseAllStep(first.rest, done - 1, count - 1);
      var others := ParseAll(first.rest, done - 1).value;
      assert ParseAll(s, done) == Success(Parsed([first.value] + others.value, others.rest));
      var next := ParseMessage(others.rest);
      if next.Success? {
        assert [first.value] + (others.value + [next.value.value]) == [first.value] + others.value + [next.value.value];
      }
    }
  }

  method ReadMessages(input: seq<byte>) returns (r: Result<seq<Message>, Malformed>)
    ensures r == DecodeMessages(input)
  {
    hide ParseHeader, ParseInt, ParseMessage, ParseAll, IsUtf8;
    var reader :- NewReader(input, KIND_MESSAGES);
    var count :- reader.U32();
    if count > MAX_MESSAGES { return Failure(TooMany); }
    ghost var body := reader.Rest();
    var messages: seq<Message> := [];
    assert ParseAll(body, 0) == Success(Parsed([], body)) by { NoneParsed(body); }
    for i := 0 to count
      invariant reader.Valid() && ParseAll(body, i) == Success(Parsed(messages, reader.Rest()))
      modifies reader
    {
      ParseAllStep(body, i, count);
      var message :- reader.ReadMessage();
      messages := messages + [message];
    }
    var _ :- reader.Finish();
    r := Success(messages);
  }

  lemma NoneParsed(s: seq<byte>)
    ensures ParseAll(s, 0) == Success(Parsed([], s))
  {
  }
}
