/** Where the fields of the relay's and the adapter's frames stand, byte by byte. Encoding and decoding agree on any
    layout; this is the one other programs must use. */
module FrameLayouts {
  import opened Wrappers
  import opened Bytes
  import opened Utf8
  import opened Fields
  import RelayFrames
  import SignalFrames

  // ---------------------------------------------------------------- integers

  /** A big-endian integer has its most significant base-256 digit first. */
  lemma {:induction false} BigEndianDigits(n: nat, width: nat, i: nat)
    requires i < width
    ensures BigEndian(n, width)[i] == n / Power256(width - 1 - i) % 256
  {
    if i < width - 1 {
      BigEndianDigits(n / 256, width - 1, i);
      var p := Power256(width - 2 - i);
      assert Power256(width - 1 - i) == 256 * p;
      DivideTwice(n, 256, p);
    } else {
      assert Power256(0) == 1;
    }
  }

  lemma DivideTwice(n: nat, a: nat, b: nat)
    requires a > 0 && b > 0
    ensures a * b > 0 && n / a / b == n / (a * b)
  {
    var q, r, z := n / a / b, n / a % b, n % a;
    assert n / a == b * q + r;
    assert n == a * (n / a) + z;
    Expand(n, a, b, q, r, z);
    DivisionIsUnique(n, a * b, q, a * r + z);
  }

  lemma Expand(n: nat, a: nat, b: nat, q: nat, r: nat, z: nat)
    requires n == a * (b * q + r) + z && r < b && z < a
    ensures n == (a * b) * q + (a * r + z) && a * r + z < a * b
  {
    assert a * (b * q + r) == a * (b * q) + a * r;
    assert a * (b * q) == (a * b) * q;
    Bounded(a, r, b);
  }

  lemma Bounded(a: nat, r: nat, b: nat)
    requires r + 1 <= b
    ensures a * r + a <= a * b
  {
    assert a * (r + 1) <= a * b;
  }

  lemma DivisionIsUnique(n: nat, d: nat, q: nat, r: nat)
    requires d > 0 && n == d * q + r && r < d
    ensures n / d == q
  {
    var k := n / d;
    assert n == d * k + n % d;
    if k < q { Bounded(d, k, q); }
    if k > q { Bounded(d, q, k); }
  }

  /** The field's four-byte length and its bytes stand at this place. */
  predicate FieldAt(s: seq<byte>, at: nat, value: seq<byte>) {
    at + 4 + |value| <= |s| && s[at..at + 4] == BigEndian(|value|, 4) && s[at + 4..at + 4 + |value|] == value
  }

  predicate IntAt(s: seq<byte>, at: nat, width: nat, n: nat) {
    at + width <= |s| && s[at..at + width] == BigEndian(n, width)
  }

  /** The bytes from `at` on begin with this part. */
  lemma Walk(s: seq<byte>, at: nat, part: seq<byte>, rest: seq<byte>)
    requires at <= |s| && s[at..] == part + rest
    ensures at + |part| <= |s| && s[at..at + |part|] == part && s[at + |part|..] == rest
  {
    assert |s[at..]| == |part| + |rest|;
    assert s[at..at + |part|] == s[at..][..|part|] && s[at + |part|..] == s[at..][|part|..];
  }

  lemma WalkInt(s: seq<byte>, at: nat, width: nat, n: nat, rest: seq<byte>)
    requires at <= |s| && s[at..] == BigEndian(n, width) + rest
    ensures IntAt(s, at, width, n) && at + width <= |s| && s[at + width..] == rest
  {
    Walk(s, at, BigEndian(n, width), rest);
    hide BigEndian;
  }

  lemma WalkByte(s: seq<byte>, at: nat, b: byte, rest: seq<byte>)
    requires at <= |s| && s[at..] == [b] + rest
    ensures at < |s| && s[at] == b && s[at + 1..] == rest
  {
    Walk(s, at, [b], rest);
    assert s[at] == s[at..at + 1][0];
  }

  lemma WalkField(s: seq<byte>, at: nat, value: seq<byte>, rest: seq<byte>)
    requires at <= |s| && s[at..] == PutBytes(value) + rest
    ensures FieldAt(s, at, value) && at + 4 + |value| <= |s| && s[at + 4 + |value|..] == rest
  {
    assert PutBytes(value) + rest == BigEndian(|value|, 4) + (value + rest);
    hide BigEndian, PutBytes;
    Walk(s, at, BigEndian(|value|, 4), value + rest);
    Walk(s, at + 4, value, rest);
  }

  // ---------------------------------------------------------------- the relay's frames

  /** A submission: version 1, schema 1, kind 1; recipient; message id; 1 and the expiry, or 0; ciphertext; no more. */
  lemma SubmitLayout(v: RelayFrames.Submit)
    requires RelayFrames.EncodeSubmit(v).Success?
    ensures var s := RelayFrames.EncodeSubmit(v).value;
      var a := 9 + |v.recipient|; var b := a + 4 + |v.messageId|; var c := b + if v.expiresAt.Some? then 9 else 1;
      && |s| == c + 4 + |v.ciphertext| && s[..5] == [0, 1, 0, 1, 1]
      && FieldAt(s, 5, v.recipient) && FieldAt(s, a, v.messageId)
      && s[b] == (if v.expiresAt.Some? then 1 else 0) && (v.expiresAt.Some? ==> IntAt(s, b + 1, 8, v.expiresAt.value))
      && FieldAt(s, c, v.ciphertext)
  {
    SubmitStarts(v);
    hide RelayFrames.PutSubmit, PutBytes, BigEndian, RelayFrames.PutExpiry, FieldAt, IntAt;
    WalkSubmit(RelayFrames.PutSubmit(v), v);
  }

  /** A submission after its header. */
  function SubmitRest(v: RelayFrames.Submit): seq<byte> {
    PutBytes(v.recipient)
    + (PutBytes(v.messageId) + (RelayFrames.PutExpiry(v.expiresAt) + (PutBytes(v.ciphertext) + [])))
  }

  lemma SubmitStarts(v: RelayFrames.Submit)
    ensures var s := RelayFrames.PutSubmit(v); |s| >= 5 && s[..5] == [0, 1, 0, 1, 1] && s[5..] == SubmitRest(v)
  {
    SubmitNests(v);
    hide RelayFrames.PutSubmit, SubmitRest;
    var s := RelayFrames.PutSubmit(v);
    assert s[0..] == s && s[0..5] == s[..5];
    Walk(s, 0, [0, 1, 0, 1, 1], SubmitRest(v));
  }

  lemma SubmitNests(v: RelayFrames.Submit)
    ensures RelayFrames.PutSubmit(v) == [0, 1, 0, 1, 1] + SubmitRest(v)
  {
    Headers();
    hide PutBytes, BigEndian, RelayFrames.PutExpiry, RelayFrames.PutHeader;
  }

  lemma WalkSubmit(s: seq<byte>, v: RelayFrames.Submit)
    requires |s| >= 5 && s[5..] == SubmitRest(v)
    ensures var a := 9 + |v.recipient|; var b := a + 4 + |v.messageId|; var c := b + if v.expiresAt.Some? then 9 else 1;
      && |s| == c + 4 + |v.ciphertext|
      && FieldAt(s, 5, v.recipient) && FieldAt(s, a, v.messageId)
      && s[b] == (if v.expiresAt.Some? then 1 else 0) && (v.expiresAt.Some? ==> IntAt(s, b + 1, 8, v.expiresAt.value))
      && FieldAt(s, c, v.ciphertext)
  {
    hide PutBytes, BigEndian, RelayFrames.PutExpiry, FieldAt, IntAt;
    var x := PutBytes(v.ciphertext) + [];
    var e := RelayFrames.PutExpiry(v.expiresAt) + x;
    var m := PutBytes(v.messageId) + e;
    WalkField(s, 5, v.recipient, m);
    var a := 9 + |v.recipient|;
    WalkField(s, a, v.messageId, e);
    var b := a + 4 + |v.messageId|;
    WalkExpiry(s, b, v.expiresAt, x);
    WalkField(s, b + if v.expiresAt.Some? then 9 else 1, v.ciphertext, []);
  }

  /** A submission is encoded exactly if recipient and message id have at most 256 bytes and the frame at most 16 MiB. */
  lemma SubmitEncodesIff(v: RelayFrames.Submit)
    ensures RelayFrames.EncodeSubmit(v).Success?
       <==> && |v.recipient| <= 256 && |v.messageId| <= 256
            && 17 + |v.recipient| + |v.messageId| + (if v.expiresAt.Some? then 9 else 1) + |v.ciphertext| <= 16777216
  {
    assert |PutBytes(v.recipient)| == 4 + |v.recipient| && |PutBytes(v.messageId)| == 4 + |v.messageId|;
    assert |PutBytes(v.ciphertext)| == 4 + |v.ciphertext|;
    assert |RelayFrames.PutExpiry(v.expiresAt)| == if v.expiresAt.Some? then 9 else 1;
    hide PutBytes, BigEndian, RelayFrames.PutExpiry;
  }

  /** A batch is encoded exactly if it has at most 100 messages, each with fields of at most 256 bytes, and the frame at
      most 16 MiB. */
  lemma BatchEncodesIff(messages: seq<RelayFrames.Message>)
    ensures RelayFrames.EncodeMessages(messages).Success?
       <==> && |messages| <= 100 && 9 + |RelayFrames.PutAll(messages)| <= 16777216
            && forall i :: 0 <= i < |messages| ==> Short(messages[i])
  {
    hide BigEndian;
    forall i | 0 <= i < |messages| && 9 + |RelayFrames.PutAll(messages)| <= 16777216
      ensures |messages[i].ciphertext| <= 16777216
    {
      AllSplits(messages, i);
      MessageLayout(messages[i]);
    }
    hide RelayFrames.PutAll;
  }

  predicate Short(m: RelayFrames.Message) {
    && |m.sender| <= 256 && |m.messageId| <= 256
    && (m.senderAddress.Some? ==> |m.senderAddress.value| <= 256)
  }

  lemma Headers()
    ensures RelayFrames.PutHeader(RelayFrames.KIND_SUBMIT) == [0, 1, 0, 1, 1]
    ensures RelayFrames.PutHeader(RelayFrames.KIND_MESSAGES) == [0, 1, 0, 1, 2]
  {
    assert BigEndian(0, 0) == [] && BigEndian(0, 1) == [0] && BigEndian(1, 2) == [0, 1];
  }

  lemma WalkExpiry(s: seq<byte>, at: nat, expiry: Option<U64>, rest: seq<byte>)
    requires at <= |s| && s[at..] == RelayFrames.PutExpiry(expiry) + rest
    ensures at < |s| && s[at] == (if expiry.Some? then 1 else 0)
    ensures expiry.Some? ==> IntAt(s, at + 1, 8, expiry.value)
    ensures var end := at + if expiry.Some? then 9 else 1; end <= |s| && s[end..] == rest
  {
    hide BigEndian;
    if expiry.Some? {
      assert RelayFrames.PutExpiry(expiry) + rest == [1] + (BigEndian(expiry.value, 8) + rest);
      WalkByte(s, at, 1, BigEndian(expiry.value, 8) + rest);
      WalkInt(s, at + 1, 8, expiry.value, rest);
    } else {
      WalkByte(s, at, 0, rest);
    }
  }

  lemma WalkAddress(s: seq<byte>, at: nat, address: Option<Text>, rest: seq<byte>)
    requires at <= |s| && s[at..] == RelayFrames.PutAddress(address) + rest
    ensures at < |s| && s[at] == (if address.Some? then 1 else 0)
    ensures address.Some? ==> FieldAt(s, at + 1, address.value)
    ensures var end := at + if address.Some? then 5 + |address.value| else 1; end <= |s| && s[end..] == rest
  {
    hide PutBytes;
    if address.Some? {
      assert RelayFrames.PutAddress(address) + rest == [1] + (PutBytes(address.value) + rest);
      WalkByte(s, at, 1, PutBytes(address.value) + rest);
      WalkField(s, at + 1, address.value, rest);
    } else {
      WalkByte(s, at, 0, rest);
    }
  }

  /** A batch: version 1, schema 1, kind 2; the count in four bytes; then the messages one after the other. */
  lemma BatchLayout(messages: seq<RelayFrames.Message>, i: nat)
    requires RelayFrames.EncodeMessages(messages).Success? && i < |messages|
    ensures var s := RelayFrames.EncodeMessages(messages).value; var at := 9 + |RelayFrames.PutAll(messages[..i])|;
      && |s| >= 9 && s[..5] == [0, 1, 0, 1, 2] && IntAt(s, 5, 4, |messages|)
      && at + |RelayFrames.PutMessage(messages[i])| <= |s|
      && s[at..at + |RelayFrames.PutMessage(messages[i])|] == RelayFrames.PutMessage(messages[i])
  {
    Headers();
    hide BigEndian, RelayFrames.PutMessage;
    AllSplits(messages, i);
    var h, n := RelayFrames.PutHeader(RelayFrames.KIND_MESSAGES), BigEndian(|messages|, 4);
    var a, z := RelayFrames.PutAll(messages[..i]), RelayFrames.PutAll(messages[i + 1..]);
    var m := RelayFrames.PutMessage(messages[i]);
    assert RelayFrames.PutMessages(messages) == h + n + (a + m + z);
    hide RelayFrames.PutAll, RelayFrames.PutHeader;
    var s := h + n + (a + m + z);
    assert s[5..9] == n && s[9 + |a|..9 + |a| + |m|] == m;
  }

  lemma {:induction false} AllSplits(messages: seq<RelayFrames.Message>, i: nat)
    requires i < |messages|
    ensures RelayFrames.PutAll(messages)
         == RelayFrames.PutAll(messages[..i]) + RelayFrames.PutMessage(messages[i]) + RelayFrames.PutAll(messages[i + 1..])
  {
    hide RelayFrames.PutMessage;
    if i > 0 {
      AllSplits(messages[1..], i - 1);
      assert messages[1..][..i - 1] == messages[..i][1..] && messages[1..][i..] == messages[i + 1..];
    } else {
      assert messages[..0] == [];
    }
  }

  /** A message of a batch: the row id in two's complement; sender; 1 and the sender's address, or 0; message id; the
      time of acceptance; 1 and the expiry, or 0; ciphertext. */
  lemma MessageLayout(m: RelayFrames.Message)
    ensures var s := RelayFrames.PutMessage(m);
      var a := 12 + |m.sender|;
      var b := a + if m.senderAddress.Some? then 5 + |m.senderAddress.value| else 1;
      var c := b + 4 + |m.messageId|;
      var d := c + 8 + if m.expiresAt.Some? then 9 else 1;
      && IntAt(s, 0, 8, if m.serverId < 0 then m.serverId + 0x1_0000_0000_0000_0000 else m.serverId)
      && FieldAt(s, 8, m.sender)
      && a < |s| && s[a] == (if m.senderAddress.Some? then 1 else 0)
      && (m.senderAddress.Some? ==> FieldAt(s, a + 1, m.senderAddress.value))
      && FieldAt(s, b, m.messageId)
      && IntAt(s, c, 8, m.acceptedAt)
      && c + 8 < |s| && s[c + 8] == (if m.expiresAt.Some? then 1 else 0)
      && (m.expiresAt.Some? ==> IntAt(s, c + 9, 8, m.expiresAt.value))
      && FieldAt(s, d, m.ciphertext) && |s| == d + 4 + |m.ciphertext|
  {
    MessageHead(m);
    hide RelayFrames.PutMessage, MessageRest, FieldAt, IntAt;
    var b := 12 + |m.sender| + if m.senderAddress.Some? then 5 + |m.senderAddress.value| else 1;
    WalkRest(RelayFrames.PutMessage(m), b, m);
  }

  /** A message up to its id. */
  lemma MessageHead(m: RelayFrames.Message)
    ensures var s := RelayFrames.PutMessage(m);
      var a := 12 + |m.sender|;
      var b := a + if m.senderAddress.Some? then 5 + |m.senderAddress.value| else 1;
      && IntAt(s, 0, 8, if m.serverId < 0 then m.serverId + 0x1_0000_0000_0000_0000 else m.serverId)
      && FieldAt(s, 8, m.sender)
      && a < |s| && s[a] == (if m.senderAddress.Some? then 1 else 0)
      && (m.senderAddress.Some? ==> FieldAt(s, a + 1, m.senderAddress.value))
      && b <= |s| && s[b..] == MessageRest(m)
  {
    var s := RelayFrames.PutMessage(m);
    SenderStands(m);
    hide RelayFrames.PutMessage, MessageRest, FieldAt, IntAt, RelayFrames.PutAddress;
    WalkAddress(s, 12 + |m.sender|, m.senderAddress, MessageRest(m));
  }

  lemma SenderStands(m: RelayFrames.Message)
    ensures var s := RelayFrames.PutMessage(m); var a := 12 + |m.sender|;
      && IntAt(s, 0, 8, if m.serverId < 0 then m.serverId + 0x1_0000_0000_0000_0000 else m.serverId)
      && FieldAt(s, 8, m.sender)
      && a <= |s| && s[a..] == RelayFrames.PutAddress(m.senderAddress) + MessageRest(m)
  {
    MessageNests(m);
    hide RelayFrames.PutMessage, PutBytes, BigEndian, MessageRest, FieldAt, IntAt, RelayFrames.PutAddress;
    WalkSender(RelayFrames.PutMessage(m), m);
  }

  lemma WalkSender(s: seq<byte>, m: RelayFrames.Message)
    requires s == BigEndian(RelayFrames.Unsigned(m.serverId), 8)
                  + (PutBytes(m.sender) + (RelayFrames.PutAddress(m.senderAddress) + MessageRest(m)))
    ensures IntAt(s, 0, 8, if m.serverId < 0 then m.serverId + 0x1_0000_0000_0000_0000 else m.serverId)
    ensures FieldAt(s, 8, m.sender)
    ensures 12 + |m.sender| <= |s| && s[12 + |m.sender|..] == RelayFrames.PutAddress(m.senderAddress) + MessageRest(m)
  {
    var id := RelayFrames.Unsigned(m.serverId);
    var o := RelayFrames.PutAddress(m.senderAddress) + MessageRest(m);
    hide PutBytes, BigEndian, RelayFrames.PutAddress, MessageRest, FieldAt, IntAt;
    assert s[0..] == s;
    WalkInt(s, 0, 8, id, PutBytes(m.sender) + o);
    WalkField(s, 8, m.sender, o);
  }

  /** A message from its id on. */
  function MessageRest(m: RelayFrames.Message): seq<byte> {
    PutBytes(m.messageId)
    + (BigEndian(m.acceptedAt, 8) + (RelayFrames.PutExpiry(m.expiresAt) + (PutBytes(m.ciphertext) + [])))
  }

  lemma WalkRest(s: seq<byte>, b: nat, m: RelayFrames.Message)
    requires b <= |s| && s[b..] == MessageRest(m)
    ensures var c := b + 4 + |m.messageId|; var d := c + 8 + if m.expiresAt.Some? then 9 else 1;
      && |s| == d + 4 + |m.ciphertext|
      && FieldAt(s, b, m.messageId) && IntAt(s, c, 8, m.acceptedAt)
      && s[c + 8] == (if m.expiresAt.Some? then 1 else 0)
      && (m.expiresAt.Some? ==> IntAt(s, c + 9, 8, m.expiresAt.value))
      && FieldAt(s, d, m.ciphertext)
  {
    hide PutBytes, BigEndian, RelayFrames.PutExpiry, FieldAt, IntAt;
    var x := PutBytes(m.ciphertext) + [];
    var e := RelayFrames.PutExpiry(m.expiresAt) + x;
    var t := BigEndian(m.acceptedAt, 8) + e;
    WalkField(s, b, m.messageId, t);
    var c := b + 4 + |m.messageId|;
    WalkInt(s, c, 8, m.acceptedAt, e);
    WalkExpiry(s, c + 8, m.expiresAt, x);
    WalkField(s, c + 8 + if m.expiresAt.Some? then 9 else 1, m.ciphertext, []);
  }

  lemma MessageNests(m: RelayFrames.Message)
    ensures RelayFrames.PutMessage(m)
         == BigEndian(RelayFrames.Unsigned(m.serverId), 8)
            + (PutBytes(m.sender) + (RelayFrames.PutAddress(m.senderAddress) + MessageRest(m)))
  {
    hide PutBytes, BigEndian, RelayFrames.PutAddress, RelayFrames.PutExpiry, RelayFrames.Unsigned;
  }

  // ---------------------------------------------------------------- the adapter's frames

  /** An envelope: version 1, frame 3, the message type, 2 or 3, the length in four bytes, the ciphertext, at most 16
      MiB of it. */
  lemma EnvelopeLayout(e: SignalFrames.Envelope)
    ensures SignalFrames.EncodeEnvelope(e).Success?
       <==> (e.messageType == 2 || e.messageType == 3) && |e.ciphertext| <= 16777216
    ensures SignalFrames.EncodeEnvelope(e).Success? ==>
      var s := SignalFrames.EncodeEnvelope(e).value;
      s[..3] == [1, 3, e.messageType] && FieldAt(s, 3, e.ciphertext) && |s| == 7 + |e.ciphertext|
  {
    hide BigEndian;
    if SignalFrames.EncodeEnvelope(e).Success? {
      var s := SignalFrames.EncodeEnvelope(e).value;
      assert s[3..7] == BigEndian(|e.ciphertext|, 4) && s[7..] == e.ciphertext;
      assert s[7..7 + |e.ciphertext|] == e.ciphertext;
    }
  }

  /** A message: version 1, frame 4 or, compressed, 5; the 16 bytes of the id; the length of the text; the length of what
      follows; the text or its compressed form. It is compressed exactly if it has at least 256 bytes and gets shorter,
      and refused exactly above 8 MiB. */
  lemma ChatMessageLayout(m: SignalFrames.ChatMessage, zlib: SignalFrames.Zlib)
    ensures var packed := |m.plaintext| >= 256 && |zlib.deflate(m.plaintext)| < |m.plaintext|;
      if |m.plaintext| > 8388608 then SignalFrames.EncodeMessage(m, zlib).Failure?
      else
        SignalFrames.EncodeMessage(m, zlib).Success?
        && var s := SignalFrames.EncodeMessage(m, zlib).value;
          && s[..2] == [1, if packed then 5 else 4] && s[2..18] == m.id && IntAt(s, 18, 4, |m.plaintext|)
          && FieldAt(s, 22, if packed then zlib.deflate(m.plaintext) else m.plaintext)
          && |s| == 26 + (if packed then |zlib.deflate(m.plaintext)| else |m.plaintext|)
  {
    if |m.plaintext| <= 8388608 {
      var packed := |m.plaintext| >= 256 && |zlib.deflate(m.plaintext)| < |m.plaintext|;
      PutMessageParts(
        if packed then 5 else 4, m.id, |m.plaintext|, if packed then zlib.deflate(m.plaintext) else m.plaintext);
      hide SignalFrames.PutMessage, FieldAt, IntAt;
    }
  }

  lemma PutMessageParts(frame: byte, id: SignalFrames.MessageId, length: nat, stored: seq<byte>)
    ensures var s := SignalFrames.PutMessage(frame, id, length, stored);
      && s[..2] == [1, frame] && s[2..18] == id && IntAt(s, 18, 4, length) && FieldAt(s, 22, stored)
      && |s| == 26 + |stored|
  {
    hide BigEndian;
    var s := SignalFrames.PutMessage(frame, id, length, stored);
    assert s[18..22] == BigEndian(length, 4) && s[22..26] == BigEndian(|stored|, 4);
    assert s[26..26 + |stored|] == stored;
  }

  /** A bundle: version 1, frame 2; name; device and registration in four bytes each; 1, the one-time prekey's id and key,
      or 0; the signed prekey's id, key and signature; the Kyber prekey's; the identity. */
  lemma BundleLayout(b: SignalFrames.Bundle)
    requires SignalFrames.EncodeBundle(b).Success?
    ensures var s := SignalFrames.EncodeBundle(b).value;
      var d := 6 + |b.name|;
      var p := d + 9 + if b.prekey.Some? then 8 + |b.prekey.value.key| else 0;
      var q := p + 8 + |b.signedKey|;
      var k := q + 4 + |b.signedSignature|;
      var u := k + 8 + |b.kyberKey|;
      var i := u + 4 + |b.kyberSignature|;
      && s[..2] == [1, 2] && FieldAt(s, 2, b.name) && IntAt(s, d, 4, b.device) && IntAt(s, d + 4, 4, b.registration)
      && d + 8 < |s| && s[d + 8] == (if b.prekey.Some? then 1 else 0)
      && (b.prekey.Some? ==> IntAt(s, d + 9, 4, b.prekey.value.id) && FieldAt(s, d + 13, b.prekey.value.key))
      && IntAt(s, p, 4, b.signedId) && FieldAt(s, p + 4, b.signedKey) && FieldAt(s, q, b.signedSignature)
      && IntAt(s, k, 4, b.kyberId) && FieldAt(s, k + 4, b.kyberKey) && FieldAt(s, u, b.kyberSignature)
      && FieldAt(s, i, b.identity) && |s| == i + 4 + |b.identity|
  {
    var r := SignalFrames.RawOf(b);
    var s := SignalFrames.PutRaw(r);
    hide PutBytes, BigEndian, SignalFrames.PutTail, FieldAt, IntAt;
    var o := SignalFrames.PutPrekey(r.prekey, SignalFrames.PutTail(r));
    var f := [r.flag] + o;
    var g := BigEndian(b.registration, 4) + f;
    var e := BigEndian(b.device, 4) + g;
    assert s[0..] == [1] + ([2] + (PutBytes(b.name) + e));
    WalkByte(s, 0, 1, [2] + (PutBytes(b.name) + e));
    WalkByte(s, 1, 2, PutBytes(b.name) + e);
    WalkField(s, 2, b.name, e);
    var d := 6 + |b.name|;
    WalkInt(s, d, 4, b.device, g);
    WalkInt(s, d + 4, 4, b.registration, f);
    WalkByte(s, d + 8, r.flag, o);
    if b.prekey.Some? {
      var k := PutBytes(b.prekey.value.key) + SignalFrames.PutTail(r);
      WalkInt(s, d + 9, 4, b.prekey.value.id, k);
      WalkField(s, d + 13, b.prekey.value.key, SignalFrames.PutTail(r));
    }
    WalkTail(s, d + 9 + if b.prekey.Some? then 8 + |b.prekey.value.key| else 0, r);
    assert s[..2] == [s[0], s[1]];
  }

  /** A bundle is encoded exactly if each of its fields has at most 16 KiB. */
  lemma BundleEncodesIff(b: SignalFrames.Bundle)
    ensures SignalFrames.EncodeBundle(b).Success?
       <==> && |b.name| <= 16384 && |b.signedKey| <= 16384 && |b.signedSignature| <= 16384
            && |b.kyberKey| <= 16384 && |b.kyberSignature| <= 16384 && |b.identity| <= 16384
            && (b.prekey.Some? ==> |b.prekey.value.key| <= 16384)
  {
    hide SignalFrames.PutRaw;
  }

  lemma WalkTail(s: seq<byte>, p: nat, r: SignalFrames.Raw)
    requires p <= |s| && s[p..] == SignalFrames.PutTail(r)
    ensures var q := p + 8 + |r.signedKey|;
      var k := q + 4 + |r.signedSignature|;
      var u := k + 8 + |r.kyberKey|;
      var i := u + 4 + |r.kyberSignature|;
      && IntAt(s, p, 4, r.signedId) && FieldAt(s, p + 4, r.signedKey) && FieldAt(s, q, r.signedSignature)
      && IntAt(s, k, 4, r.kyberId) && FieldAt(s, k + 4, r.kyberKey) && FieldAt(s, u, r.kyberSignature)
      && FieldAt(s, i, r.identity) && |s| == i + 4 + |r.identity|
  {
    hide PutBytes, BigEndian, FieldAt, IntAt;
    var own := PutBytes(r.identity);
    var g := PutBytes(r.kyberSignature) + own;
    var e := PutBytes(r.kyberKey) + g;
    var d := BigEndian(r.kyberId, 4) + e;
    var c := PutBytes(r.signedSignature) + d;
    var b := PutBytes(r.signedKey) + c;
    WalkInt(s, p, 4, r.signedId, b);
    WalkField(s, p + 4, r.signedKey, c);
    var q := p + 8 + |r.signedKey|;
    WalkField(s, q, r.signedSignature, d);
    var k := q + 4 + |r.signedSignature|;
    WalkInt(s, k, 4, r.kyberId, e);
    WalkField(s, k + 4, r.kyberKey, g);
    var u := k + 8 + |r.kyberKey|;
    WalkField(s, u, r.kyberSignature, own);
    var i := u + 4 + |r.kyberSignature|;
    assert own == own + [];
    WalkField(s, i, r.identity, []);
  }

  /** A recovery record: version 1, frame 1; the old identity; the bundle's frame; the time in eight bytes; 1 if it is
      confirmed, or 0; the signature. What is signed is all before the signature. */
  lemma RecordLayout(r: SignalFrames.Record)
    requires SignalFrames.EncodeRecord(r).Success?
    ensures SignalFrames.EncodeBundle(r.bundle).Success? && SignalFrames.Payload(r).Success?
    ensures var s := SignalFrames.EncodeRecord(r).value; var bundle := SignalFrames.EncodeBundle(r.bundle).value;
      var b := 6 + |r.oldIdentity|; var t := b + 4 + |bundle|;
      && s[..2] == [1, 1] && FieldAt(s, 2, r.oldIdentity) && FieldAt(s, b, bundle) && IntAt(s, t, 8, r.effectiveAt)
      && |s| == t + 13 + |r.signature| && s[t + 8] == (if r.confirmation then 1 else 0)
      && FieldAt(s, t + 9, r.signature) && SignalFrames.Payload(r).value == s[..t + 9]
  {
    RecordStarts(r);
    var s := SignalFrames.EncodeRecord(r).value;
    var bundle := SignalFrames.EncodeBundle(r.bundle).value;
    hide PutBytes, BigEndian, SignalFrames.EncodeBundle, SignalFrames.EncodeRecord, SignalFrames.Payload;
    hide FieldAt, IntAt, RecordRest;
    WalkRecord(s, r.oldIdentity, bundle, r.effectiveAt, if r.confirmation then 1 else 0, r.signature);
    RecordSigned(r, 19 + |r.oldIdentity| + |bundle|);
  }

  lemma RecordStarts(r: SignalFrames.Record)
    requires SignalFrames.EncodeRecord(r).Success?
    ensures SignalFrames.EncodeBundle(r.bundle).Success?
    ensures var s := SignalFrames.EncodeRecord(r).value;
      && |s| >= 2 && s[..2] == [1, 1]
      && s[2..] == RecordRest(
           r.oldIdentity, SignalFrames.EncodeBundle(r.bundle).value, r.effectiveAt,
           if r.confirmation then 1 else 0, r.signature)
  {
    RecordNests(r);
    hide RecordRest, PutBytes, SignalFrames.EncodeBundle, SignalFrames.EncodeRecord, SignalFrames.Payload;
    WalkFrame(SignalFrames.EncodeRecord(r).value, RecordRest(
      r.oldIdentity, SignalFrames.EncodeBundle(r.bundle).value, r.effectiveAt,
      if r.confirmation then 1 else 0, r.signature));
  }

  lemma RecordSigned(r: SignalFrames.Record, at: nat)
    requires SignalFrames.EncodeRecord(r).Success? && |SignalFrames.EncodeRecord(r).value| == at + 4 + |r.signature|
    ensures SignalFrames.Payload(r).Success? && SignalFrames.Payload(r).value == SignalFrames.EncodeRecord(r).value[..at]
  {
    RecordNests(r);
    assert |PutBytes(r.signature)| == 4 + |r.signature|;
    hide RecordRest, PutBytes, SignalFrames.EncodeBundle, SignalFrames.EncodeRecord, SignalFrames.Payload;
  }

  lemma WalkFrame(s: seq<byte>, rest: seq<byte>)
    requires s == [1] + ([1] + rest)
    ensures |s| >= 2 && s[..2] == [1, 1] && s[2..] == rest
  {
  }

  /** A record after its frame byte. */
  function RecordRest(identity: seq<byte>, bundle: seq<byte>, at: U64, flag: byte, signature: seq<byte>): seq<byte> {
    PutBytes(identity) + (PutBytes(bundle) + (BigEndian(at, 8) + ([flag] + (PutBytes(signature) + []))))
  }

  lemma WalkRecord(
    s: seq<byte>, identity: seq<byte>, bundle: seq<byte>, at: U64, flag: byte, signature: seq<byte>)
    requires |s| >= 2 && s[2..] == RecordRest(identity, bundle, at, flag, signature)
    ensures var b := 6 + |identity|; var t := b + 4 + |bundle|;
      && |s| == t + 13 + |signature| && FieldAt(s, 2, identity) && FieldAt(s, b, bundle)
      && IntAt(s, t, 8, at) && s[t + 8] == flag && FieldAt(s, t + 9, signature)
      && s[t + 9..] == PutBytes(signature) + []
  {
    hide PutBytes, BigEndian, FieldAt, IntAt;
    var sig := PutBytes(signature) + [];
    var f := [flag] + sig;
    var t := BigEndian(at, 8) + f;
    WalkField(s, 2, identity, PutBytes(bundle) + t);
    var b := 6 + |identity|;
    WalkField(s, b, bundle, t);
    WalkInt(s, b + 4 + |bundle|, 8, at, f);
    WalkByte(s, b + 12 + |bundle|, flag, sig);
    WalkField(s, b + 13 + |bundle|, signature, []);
  }

  lemma RecordNests(r: SignalFrames.Record)
    requires SignalFrames.EncodeRecord(r).Success?
    ensures SignalFrames.EncodeBundle(r.bundle).Success? && SignalFrames.Payload(r).Success?
    ensures var s := SignalFrames.EncodeRecord(r).value; var sig := PutBytes(r.signature) + [];
      && s == SignalFrames.Payload(r).value + sig
      && s == [1] + ([1] + RecordRest(
           r.oldIdentity, SignalFrames.EncodeBundle(r.bundle).value, r.effectiveAt,
           if r.confirmation then 1 else 0, r.signature))
  {
    var bundle := SignalFrames.EncodeBundle(r.bundle).value;
    SignalFrames.PayloadExtends(r.oldIdentity, bundle, r.effectiveAt, r.confirmation, PutBytes(r.signature));
    assert PutBytes(r.signature) + [] == PutBytes(r.signature);
    hide PutBytes, BigEndian, SignalFrames.EncodeBundle;
  }

  // ---------------------------------------------------------------- text

  /** Two lower-case hexadecimal digits for each byte, the upper four bits first. */
  lemma {:induction false} HexDigits(s: seq<byte>, i: nat)
    requires i < |s|
    ensures Hex(s)[2 * i] == "0123456789abcdef"[s[i] / 16] && Hex(s)[2 * i + 1] == "0123456789abcdef"[s[i] % 16]
  {
    if i > 0 { HexDigits(s[1..], i - 1); }
  }
}
