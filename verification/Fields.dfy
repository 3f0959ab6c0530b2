/** Fields of binary frames: big-endian integers, length-prefixed bytes and text, read from the front of the input.
    Reading inverts writing, and whatever is accepted is what would have been written. */
module Fields {
  import opened Wrappers
  import opened Bytes
  import opened Utf8

  const TWO_64: int := 0x1_0000_0000_0000_0000
  const TWO_63: int := 0x8000_0000_0000_0000

  type U64 = n: nat | n < TWO_64
  type I64 = n: int | -TWO_63 <= n < TWO_63
  type U32 = n: nat | n < 0x1_0000_0000

  datatype Malformed =
    | TooLarge | ShortHeader | WrongVersion | WrongKind | Truncated | TooLong | NotUtf8 | UnknownFlag | Trailing | TooMany
    | WrongFrame | NotAKey | NotADevice | UnknownType | WrongLength | NotCompressed

  /** A value read from the front of the input, and the input after it. */
  datatype Parsed<+T> = Parsed(value: T, rest: seq<byte>)

  function PutBytes(value: seq<byte>): seq<byte> {
    BigEndian(|value|, 4) + value
  }

  lemma FromBigEndianBound(s: seq<byte>)
    ensures FromBigEndian(s) < Power256(|s|)
  {
    FromBigEndianRoundTrip(s);
  }

  lemma Powers()
    ensures Power256(2) == 0x1_0000 && Power256(4) == 0x1_0000_0000 && Power256(8) == TWO_64
  {
    assert Power256(1) == 256;
    assert Power256(3) == 256 * Power256(2);
    assert Power256(5) == 256 * Power256(4);
    assert Power256(7) == 256 * Power256(6);
  }

  function ParseInt(s: seq<byte>, width: nat): Result<Parsed<nat>, Malformed> {
    if |s| < width then Failure(Truncated) else Success(Parsed(FromBigEndian(s[..width]), s[width..]))
  }

  function ParseByte(s: seq<byte>): Result<Parsed<byte>, Malformed> {
    if s == [] then Failure(Truncated) else Success(Parsed(s[0], s[1..]))
  }

  function ParseU64(s: seq<byte>): Result<Parsed<U64>, Malformed> {
    var n :- ParseInt(s, 8);
    FromBigEndianBound(s[..8]);
    Powers();
    var v: U64 := n.value;
    Success(Parsed(v, n.rest))
  }

  function ParseBytes(s: seq<byte>, limit: nat): Result<Parsed<seq<byte>>, Malformed> {
    var n :- ParseInt(s, 4);
    if n.value > limit then Failure(TooLong)
    else if |n.rest| < n.value then Failure(Truncated)
    else Success(Parsed(n.rest[..n.value], n.rest[n.value..]))
  }

  function ParseText(s: seq<byte>, limit: nat): Result<Parsed<Text>, Malformed> {
    var b :- ParseBytes(s, limit);
    if IsUtf8(b.value) then
      var text: Text := b.value;
      Success(Parsed(text, b.rest))
    else Failure(NotUtf8)
  }

  lemma IntRoundTrip(n: nat, width: nat, rest: seq<byte>)
    requires n < Power256(width)
    ensures ParseInt(BigEndian(n, width) + rest, width) == Success(Parsed(n, rest))
  {
    BigEndianRoundTrip(n, width);
    var s := BigEndian(n, width) + rest;
    assert s[..width] == BigEndian(n, width) && s[width..] == rest;
  }

  lemma IntCanonical(s: seq<byte>, width: nat)
    requires ParseInt(s, width).Success?
    ensures var p := ParseInt(s, width).value; s == BigEndian(p.value, width) + p.rest && p.value < Power256(width)
  {
    FromBigEndianRoundTrip(s[..width]);
    assert s == s[..width] + s[width..];
  }

  lemma U64RoundTrip(n: U64, rest: seq<byte>)
    ensures ParseU64(BigEndian(n, 8) + rest) == Success(Parsed(n, rest))
  {
    hide Power256, BigEndian, FromBigEndian;
    Powers();
    IntRoundTrip(n, 8, rest);
  }

  lemma U64Canonical(s: seq<byte>)
    requires ParseU64(s).Success?
    ensures var p := ParseU64(s).value; s == BigEndian(p.value, 8) + p.rest
  {
    hide BigEndian, FromBigEndian;
    IntCanonical(s, 8);
  }

  lemma BytesRoundTrip(v: seq<byte>, limit: nat, rest: seq<byte>)
    requires |v| <= limit < 0x1_0000_0000
    ensures ParseBytes(PutBytes(v) + rest, limit) == Success(Parsed(v, rest))
  {
    hide Power256, BigEndian, FromBigEndian;
    Powers();
    IntRoundTrip(|v|, 4, v + rest);
    assert PutBytes(v) + rest == BigEndian(|v|, 4) + (v + rest);
    assert (v + rest)[..|v|] == v && (v + rest)[|v|..] == rest;
  }

  lemma BytesCanonical(s: seq<byte>, limit: nat)
    requires ParseBytes(s, limit).Success?
    ensures var p := ParseBytes(s, limit).value; |p.value| <= limit && s == PutBytes(p.value) + p.rest
  {
    hide BigEndian, FromBigEndian;
    IntCanonical(s, 4);
    var n := ParseInt(s, 4).value;
    assert n.rest == n.rest[..n.value] + n.rest[n.value..];
    assert BigEndian(n.value, 4) + (n.rest[..n.value] + n.rest[n.value..])
        == BigEndian(n.value, 4) + n.rest[..n.value] + n.rest[n.value..];
  }

  lemma TextRoundTrip(v: Text, limit: nat, rest: seq<byte>)
    requires |v| <= limit < 0x1_0000_0000
    ensures ParseText(PutBytes(v) + rest, limit) == Success(Parsed(v, rest))
  {
    hide PutBytes, IsUtf8;
    BytesRoundTrip(v, limit, rest);
  }

  lemma TextCanonical(s: seq<byte>, limit: nat)
    requires ParseText(s, limit).Success?
    ensures var p := ParseText(s, limit).value; |p.value| <= limit && s == PutBytes(p.value) + p.rest
  {
    hide PutBytes, IsUtf8;
    BytesCanonical(s, limit);
  }

  lemma ByteRoundTrip(b: byte, rest: seq<byte>)
    ensures ParseByte([b] + rest) == Success(Parsed(b, rest))
  {
    assert ([b] + rest)[1..] == rest;
  }

  lemma ByteCanonical(s: seq<byte>)
    requires ParseByte(s).Success?
    ensures var p := ParseByte(s).value; s == [p.value] + p.rest
  {
  }

  lemma Regroup(a: seq<byte>, b: seq<byte>, c: seq<byte>)
    ensures a + b + c == a + (b + c)
  {
  }
}
