/** The adapter's encoders, which extend a buffer field by field, and its decoders, which move a bundle reader over
    the input and judge each field as it comes. */
module SignalCodecs {
  import opened Wrappers
  import opened Bytes
  import opened Utf8
  import opened Fields
  import opened SignalFrames

  // ---------------------------------------------------------------- encoders

  method AppendField(output: seq<byte>, bytes: seq<byte>) returns (r: Result<seq<byte>, Malformed>)
    ensures r == if |bytes| > MAX_FIELD then Failure(TooLong) else Success(output + PutBytes(bytes))
  {
    hide BigEndian;
    if |bytes| > MAX_FIELD { return Failure(TooLong); }
    var longer := output + BigEndian(|bytes|, 4);
    longer := longer + bytes;
    assert longer == output + PutBytes(bytes);
    r := Success(longer);
  }

  method AppendTail(output: seq<byte>, b: Bundle) returns (r: Result<seq<byte>, Malformed>)
    ensures r == if |b.signedKey| <= MAX_FIELD && |b.signedSignature| <= MAX_FIELD && |b.kyberKey| <= MAX_FIELD
                    && |b.kyberSignature| <= MAX_FIELD && |b.identity| <= MAX_FIELD
                 then Success(output + PutTail(RawOf(b))) else Failure(TooLong)
  {
    hide PutBytes, PutU32, IsUtf8;
    var out := output + PutU32(b.signedId);
    out :- AppendField(out, b.signedKey);
    out :- AppendField(out, b.signedSignature);
    out := out + PutU32(b.kyberId);
    out :- AppendField(out, b.kyberKey);
    out :- AppendField(out, b.kyberSignature);
    out :- AppendField(out, b.identity);
    assert out == output + PutTail(RawOf(b));
    r := Success(out);
  }

  method WriteBundle(b: Bundle) returns (r: Result<seq<byte>, Malformed>)
    ensures r == EncodeBundle(b)
  {
    hide PutBytes, PutU32, PutTail, IsUtf8;
    var out := [FORMAT_VERSION, FRAME_BUNDLE];
    out :- AppendField(out, b.name);
    out := out + PutU32(b.device);
    out := out + PutU32(b.registration);
    ghost var head := out;
    match b.prekey {
      case Some(prekey) =>
        out := out + [1];
        out := out + PutU32(prekey.id);
        out :- AppendField(out, prekey.key);
      case None => out := out + [0];
    }
    assert out + PutTail(RawOf(b)) == head + ([RawOf(b).flag] + PutPrekey(b.prekey, PutTail(RawOf(b))));
    hide PutPrekey;
    out :- AppendTail(out, b);
    assert out == PutRaw(RawOf(b));
    r := Success(out);
  }

  method WritePayload(record: Record) returns (r: Result<seq<byte>, Malformed>)
    ensures r == Payload(record)
  {
    hide PutBytes, EncodeBundle, BigEndian, IsUtf8;
    var bundle :- WriteBundle(record.bundle);
    var payload := [FORMAT_VERSION, FRAME_RECOVERY];
    payload :- AppendField(payload, record.oldIdentity);
    payload :- AppendField(payload, bundle);
    payload := payload + BigEndian(record.effectiveAt, 8);
    payload := payload + [if record.confirmation then 1 else 0];
    assert payload == PutPayload(record.oldIdentity, bundle, record.effectiveAt, record.confirmation, []);
    r := Success(payload);
  }

  method WriteRecord(record: Record) returns (r: Result<seq<byte>, Malformed>)
    ensures r == EncodeRecord(record)
  {
    hide Payload, PutBytes;
    var output :- WritePayload(record);
    r := AppendField(output, record.signature);
  }

  /** Whether the signature in a record is the old identity's over the record's payload. */
  method VerifyRecord(record: Record, verified: (seq<byte>, seq<byte>, seq<byte>) -> bool)
    returns (r: Result<bool, Malformed>)
    ensures r == if Payload(record).Failure? then Failure(Payload(record).error)
                 else Success(verified(record.oldIdentity, Payload(record).value, record.signature))
  {
    hide Payload;
    var payload :- WritePayload(record);
    r := Success(verified(record.oldIdentity, payload, record.signature));
  }

  method WriteEnvelope(e: Envelope) returns (r: Result<seq<byte>, Malformed>)
    ensures r == EncodeEnvelope(e)
  {
    hide BigEndian;
    if e.messageType != WHISPER && e.messageType != PREKEY { return Failure(UnknownType); }
    if |e.ciphertext| > MAX_CIPHERTEXT { return Failure(TooLong); }
    var output := [FORMAT_VERSION, FRAME_ENVELOPE];
    output := output + [e.messageType];
    output := output + BigEndian(|e.ciphertext|, 4);
    output := output + e.ciphertext;
    assert output == [FORMAT_VERSION, FRAME_ENVELOPE, e.messageType] + BigEndian(|e.ciphertext|, 4) + e.ciphertext;
    r := Success(output);
  }

  method WriteMessage(m: ChatMessage, zlib: Zlib) returns (r: Result<seq<byte>, Malformed>)
    ensures r == EncodeMessage(m, zlib)
  {
    hide BigEndian;
    if |m.plaintext| > MAX_MESSAGE { return Failure(TooLarge); }
    var compressed := zlib.deflate(m.plaintext);
    if |m.plaintext| >= MIN_COMPRESSIBLE && |compressed| < |m.plaintext| {
      var output := [FORMAT_VERSION, FRAME_COMPRESSED];
      output := output + m.id;
      output := output + BigEndian(|m.plaintext|, 4);
      output := output + BigEndian(|compressed|, 4);
      output := output + compressed;
      assert output == PutMessage(FRAME_COMPRESSED, m.id, |m.plaintext|, compressed);
      return Success(output);
    }
    var output := [FORMAT_VERSION, FRAME_MESSAGE];
    output := output + m.id;
    output := output + BigEndian(|m.plaintext|, 4);
    output := output + BigEndian(|m.plaintext|, 4);
    output := output + m.plaintext;
    assert output == PutMessage(FRAME_MESSAGE, m.id, |m.plaintext|, m.plaintext);
    r := Success(output);
  }

  // ---------------------------------------------------------------- the bundle reader

  class BundleReader {
    const input: seq<byte>
    var offset: nat

    ghost predicate Valid()
      reads this
    {
      offset <= |input|
    }

    ghost function Rest(): seq<byte>
      requires Valid()
      reads this
    {
      input[offset..]
    }

    /** Success yields the parsed value and leaves the rest of the input; the reader of a failure is not used again. */
    ghost predicate Reads<T>(parsed: Result<Parsed<T>, Malformed>, r: Result<T, Malformed>)
      reads this
    {
      && Valid()
      && match parsed
         case Success(p) => r == Success(p.value) && Rest() == p.rest
         case Failure(e) => r == Failure(e)
    }

    constructor (input: seq<byte>)
      ensures this.input == input && Valid() && Rest() == input
    {
      this.input := input;
      this.offset := 0;
    }

    method ReadByte() returns (r: Result<byte, Malformed>)
      requires Valid()
      modifies this
      ensures Reads(ParseByte(old(Rest())), r)
    {
      if offset >= |input| { return Failure(Truncated); }
      r := Success(input[offset]);
      offset := offset + 1;
    }

    method ExpectFrame(frame: byte) returns (r: Result<(), Malformed>)
      requires Valid()
      modifies this
      ensures Valid()
      ensures match ParseFrame(old(Rest()), frame)
              case Success(rest) => r == Success(()) && Rest() == rest
              case Failure(e) => r == Failure(e)
    {
      hide ParseByte;
      var version :- ReadByte();
      if version != FORMAT_VERSION { return Failure(WrongFrame); }
      var kind :- ReadByte();
      if kind != frame { return Failure(WrongFrame); }
      r := Success(());
    }

    method ReadU32() returns (r: Result<U32, Malformed>)
      requires Valid()
      modifies this
      ensures Reads(ParseU32(old(Rest())), r)
    {
      hide FromBigEndian, Power256;
      ghost var rest := Rest();
      if offset + 4 > |input| { return Failure(Truncated); }
      var bytes := input[offset..offset + 4];
      offset := offset + 4;
      FromBigEndianBound(bytes);
      Powers();
      assert bytes == rest[..4] && Rest() == rest[4..];
      r := Success(FromBigEndian(bytes));
    }

    method ReadU64() returns (r: Result<U64, Malformed>)
      requires Valid()
      modifies this
      ensures Reads(ParseU64(old(Rest())), r)
    {
      hide FromBigEndian, Power256;
      ghost var rest := Rest();
      if offset + 8 > |input| { return Failure(Truncated); }
      var bytes := input[offset..offset + 8];
      offset := offset + 8;
      FromBigEndianBound(bytes);
      Powers();
      assert bytes == rest[..8] && Rest() == rest[8..];
      r := Success(FromBigEndian(bytes));
    }

    method ReadBytes() returns (r: Result<seq<byte>, Malformed>)
      requires Valid()
      modifies this
      ensures Reads(ParseBytes(old(Rest()), MAX_FIELD), r)
    {
      hide FromBigEndian, Power256;
      var length :- ReadU32();
      if length > MAX_FIELD { return Failure(TooLong); }
      ghost var rest := Rest();
      if offset + length > |input| { return Failure(Truncated); }
      var bytes := input[offset..offset + length];
      offset := offset + length;
      assert bytes == rest[..length] && Rest() == rest[length..];
      r := Success(bytes);
    }
  }

  method ReadKey(reader: BundleReader, key: seq<byte> -> Option<seq<byte>>) returns (r: Result<seq<byte>, Malformed>)
    requires reader.Valid()
    modifies reader
    ensures reader.Reads(ParseKey(old(reader.Rest()), key), r)
  {
    hide ParseBytes;
    var bytes :- reader.ReadBytes();
    if key(bytes).None? { return Failure(NotAKey); }
    r := Success(key(bytes).value);
  }

  method ReadPrekey(reader: BundleReader, flag: byte, checks: Checks) returns (r: Result<Option<Prekey>, Malformed>)
    requires reader.Valid()
    modifies reader
    ensures reader.Reads(DecodePrekey(old(reader.Rest()), flag, checks), r)
  {
    hide ParseU32, ParseKey;
    if flag != 1 { return Success(None); }
    var id :- reader.ReadU32();
    var key :- ReadKey(reader, checks.curve);
    r := Success(Some(Prekey(id, key)));
  }

  method ReadTail(reader: BundleReader, checks: Checks) returns (r: Result<Tail, Malformed>)
    requires reader.Valid()
    modifies reader
    ensures r == DecodeTail(old(reader.Rest()), checks)
  {
    hide ParseU32, ParseBytes, ParseKey;
    var signedId :- reader.ReadU32();
    var signedKey :- ReadKey(reader, checks.curve);
    var signedSignature :- reader.ReadBytes();
    var kyberId :- reader.ReadU32();
    var kyberKey :- ReadKey(reader, checks.kyber);
    var kyberSignature :- reader.ReadBytes();
    var identity :- ReadKey(reader, checks.identity);
    if reader.offset != |reader.input| { return Failure(Trailing); }
    r := Success(Tail(signedId, signedKey, signedSignature, kyberId, kyberKey, kyberSignature, identity));
  }

  method ReadBundleFields(reader: BundleReader, checks: Checks) returns (r: Result<Bundle, Malformed>)
    requires reader.Valid()
    modifies reader
    ensures r == DecodeBundle(old(reader.Rest()), checks)
  {
    hide ParseFrame, ParseByte, ParseU32, ParseBytes, DecodePrekey, DecodeTail, IsUtf8;
    var _ :- reader.ExpectFrame(FRAME_BUNDLE);
    var name :- reader.ReadBytes();
    if !IsUtf8(name) { return Failure(NotUtf8); }
    var device :- reader.ReadU32();
    if !checks.device(device) { return Failure(NotADevice); }
    var registration :- reader.ReadU32();
    var flag :- reader.ReadByte();
    var prekey :- ReadPrekey(reader, flag, checks);
    var t :- ReadTail(reader, checks);
    r := Success(Bundle(
      name, device, registration, prekey, t.signedId, t.signedKey, t.signedSignature,
      t.kyberId, t.kyberKey, t.kyberSignature, t.identity));
  }

  method ReadBundle(input: seq<byte>, checks: Checks) returns (r: Result<Bundle, Malformed>)
    ensures r == DecodeBundle(input, checks)
  {
    hide DecodeBundle;
    var reader := new BundleReader(input);
    r := ReadBundleFields(reader, checks);
  }

  method ReadRecordFields(reader: BundleReader, checks: Checks) returns (r: Result<Record, Malformed>)
    requires reader.Valid()
    modifies reader
    ensures r == DecodeRecord(old(reader.Rest()), checks)
  {
    hide ParseFrame, ParseByte, ParseU64, ParseBytes, ParseKey, DecodeBundle, IsUtf8;
    var _ :- reader.ExpectFrame(FRAME_RECOVERY);
    var identity :- ReadKey(reader, checks.identity);
    var inner :- reader.ReadBytes();
    var bundle :- ReadBundle(inner, checks);
    var effectiveAt :- reader.ReadU64();
    var flag :- reader.ReadByte();
    if flag > 1 { return Failure(UnknownFlag); }
    var signature :- reader.ReadBytes();
    if reader.offset != |reader.input| { return Failure(Trailing); }
    r := Success(Record(identity, bundle, effectiveAt, flag == 1, signature));
  }

  method ReadRecord(input: seq<byte>, checks: Checks) returns (r: Result<Record, Malformed>)
    ensures r == DecodeRecord(input, checks)
  {
    hide DecodeRecord;
    var reader := new BundleReader(input);
    r := ReadRecordFields(reader, checks);
  }
}
