/** The adapter's own frames as values: prekey bundles, recovery records around them, envelopes and application
    messages. */
module SignalFrames {
  import opened Wrappers
  import opened Bytes
  import opened Utf8
  import opened Fields

  const FORMAT_VERSION: byte := 1
  const FRAME_RECOVERY: byte := 1
  const FRAME_BUNDLE: byte := 2
  const FRAME_ENVELOPE: byte := 3
  const FRAME_MESSAGE: byte := 4
  const FRAME_COMPRESSED: byte := 5
  const WHISPER: byte := 2
  const PREKEY: byte := 3
  const MAX_FIELD: nat := 16 * 1024
  const MAX_CIPHERTEXT: nat := 16 * 1024 * 1024
  const MAX_MESSAGE: nat := 8 * 1024 * 1024
  const MIN_COMPRESSIBLE: nat := 256
  const ENVELOPE_HEADER: nat := 7
  const MESSAGE_HEADER: nat := 26

  /** libsignal's readers of serialized keys, which return a key as it serializes it, and its range of device ids. */
  datatype Checks = Checks(
    identity: seq<byte> -> Option<seq<byte>>, curve: seq<byte> -> Option<seq<byte>>,
    kyber: seq<byte> -> Option<seq<byte>>, device: nat -> bool)

  datatype Prekey = Prekey(id: U32, key: seq<byte>)

  datatype Bundle = Bundle(
    name: Text, device: U32, registration: U32, prekey: Option<Prekey>,
    signedId: U32, signedKey: seq<byte>, signedSignature: seq<byte>,
    kyberId: U32, kyberKey: seq<byte>, kyberSignature: seq<byte>, identity: seq<byte>)

  /** A bundle's fields as they stand in a frame, before any of them is judged. */
  datatype Raw = Raw(
    name: seq<byte>, device: U32, registration: U32, flag: byte, prekey: Option<Prekey>,
    signedId: U32, signedKey: seq<byte>, signedSignature: seq<byte>,
    kyberId: U32, kyberKey: seq<byte>, kyberSignature: seq<byte>, identity: seq<byte>)

  // ---------------------------------------------------------------- bundles

  /** Every field fits, and a prekey is present exactly when the flag is 1. */
  predicate RawOk(r: Raw) {
    && |r.name| <= MAX_FIELD && |r.signedKey| <= MAX_FIELD && |r.signedSignature| <= MAX_FIELD
    && |r.kyberKey| <= MAX_FIELD && |r.kyberSignature| <= MAX_FIELD && |r.identity| <= MAX_FIELD
    && (r.flag == 1 <==> r.prekey.Some?) && (r.prekey.Some? ==> |r.prekey.value.key| <= MAX_FIELD)
  }

  function PutU32(n: U32): seq<byte> {
    BigEndian(n, 4)
  }

  function PutPrekey(prekey: Option<Prekey>, rest: seq<byte>): seq<byte> {
    if prekey.Some? then PutU32(prekey.value.id) + (PutBytes(prekey.value.key) + rest) else rest
  }

  /** The fields from the signed prekey on. */
  function PutTail(r: Raw): seq<byte> {
    PutU32(r.signedId) + (PutBytes(r.signedKey) + (PutBytes(r.signedSignature)
    + (PutU32(r.kyberId) + (PutBytes(r.kyberKey) + (PutBytes(r.kyberSignature) + PutBytes(r.identity))))))
  }

  function PutRaw(r: Raw): seq<byte> {
    [FORMAT_VERSION] + ([FRAME_BUNDLE] + (PutBytes(r.name) + (PutU32(r.device) + (PutU32(r.registration)
    + ([r.flag] + PutPrekey(r.prekey, PutTail(r)))))))
  }

  function ParseU32(s: seq<byte>): Result<Parsed<U32>, Malformed> {
    var n :- ParseInt(s, 4);
    FromBigEndianBound(s[..4]);
    Powers();
    var v: U32 := n.value;
    Success(Parsed(v, n.rest))
  }

  function ParseFrame(s: seq<byte>, frame: byte): Result<seq<byte>, Malformed> {
    var version :- ParseByte(s);
    if version.value != FORMAT_VERSION then Failure(WrongFrame)
    else
      var kind :- ParseByte(version.rest);
      if kind.value != frame then Failure(WrongFrame) else Success(kind.rest)
  }

  function ParsePrekey(s: seq<byte>, flag: byte): Result<Parsed<Option<Prekey>>, Malformed> {
    if flag == 1 then
      var id :- ParseU32(s);
      var key :- ParseBytes(id.rest, MAX_FIELD);
      Success(Parsed(Some(Prekey(id.value, key.value)), key.rest))
    else Success(Parsed(None, s))
  }

  datatype Tail = Tail(
    signedId: U32, signedKey: seq<byte>, signedSignature: seq<byte>,
    kyberId: U32, kyberKey: seq<byte>, kyberSignature: seq<byte>, identity: seq<byte>)

  function ParseTail(s: seq<byte>): Result<Tail, Malformed> {
    var signedId :- ParseU32(s);
    var signedKey :- ParseBytes(signedId.rest, MAX_FIELD);
    var signedSignature :- ParseBytes(signedKey.rest, MAX_FIELD);
    var kyberId :- ParseU32(signedSignature.rest);
    var kyberKey :- ParseBytes(kyberId.rest, MAX_FIELD);
    var kyberSignature :- ParseBytes(kyberKey.rest, MAX_FIELD);
    var identity :- ParseBytes(kyberSignature.rest, MAX_FIELD);
    if identity.rest != [] then Failure(Trailing)
    else
      Success(Tail(signedId.value, signedKey.value, signedSignature.value,
                   kyberId.value, kyberKey.value, kyberSignature.value, identity.value))
  }

  function ParseRaw(input: seq<byte>): Result<Raw, Malformed> {
    var body :- ParseFrame(input, FRAME_BUNDLE);
    var name :- ParseBytes(body, MAX_FIELD);
    var device :- ParseU32(name.rest);
    var registration :- ParseU32(device.rest);
    var flag :- ParseByte(registration.rest);
    var prekey :- ParsePrekey(flag.rest, flag.value);
    var t :- ParseTail(prekey.rest);
    Success(Raw(name.value, device.value, registration.value, flag.value, prekey.value, t.signedId, t.signedKey,
                t.signedSignature, t.kyberId, t.kyberKey, t.kyberSignature, t.identity))
  }

  lemma U32RoundTrip(n: U32, rest: seq<byte>)
    ensures ParseU32(PutU32(n) + rest) == Success(Parsed(n, rest))
  {
    hide Power256, BigEndian, FromBigEndian;
    Powers();
    IntRoundTrip(n, 4, rest);
  }

  lemma U32Canonical(s: seq<byte>)
    requires ParseU32(s).Success?
    ensures var p := ParseU32(s).value; s == PutU32(p.value) + p.rest
  {
    hide BigEndian, FromBigEndian;
    IntCanonical(s, 4);
  }

  lemma FrameRoundTrip(frame: byte, rest: seq<byte>)
    ensures ParseFrame([FORMAT_VERSION] + ([frame] + rest), frame) == Success(rest)
  {
    ByteRoundTrip(FORMAT_VERSION, [frame] + rest);
    ByteRoundTrip(frame, rest);
    hide ParseByte;
  }

  lemma FrameCanonical(s: seq<byte>, frame: byte)
    requires ParseFrame(s, frame).Success?
    ensures s == [FORMAT_VERSION] + ([frame] + ParseFrame(s, frame).value)
  {
    hide ParseByte;
    ByteCanonical(s);
    ByteCanonical(ParseByte(s).value.rest);
  }

  lemma PrekeyRoundTrip(flag: byte, prekey: Option<Prekey>, rest: seq<byte>)
    requires (flag == 1 <==> prekey.Some?) && (prekey.Some? ==> |prekey.value.key| <= MAX_FIELD)
    ensures ParsePrekey(PutPrekey(prekey, rest), flag) == Success(Parsed(prekey, rest))
  {
    hide PutU32, PutBytes, ParseU32, ParseBytes;
    if prekey.Some? {
      U32RoundTrip(prekey.value.id, PutBytes(prekey.value.key) + rest);
      BytesRoundTrip(prekey.value.key, MAX_FIELD, rest);
    }
  }

  lemma PrekeyCanonical(s: seq<byte>, flag: byte)
    requires ParsePrekey(s, flag).Success?
    ensures var p := ParsePrekey(s, flag).value;
      s == PutPrekey(p.value, p.rest) && (flag == 1 <==> p.value.Some?)
      && (p.value.Some? ==> |p.value.value.key| <= MAX_FIELD)
  {
    hide PutU32, PutBytes, ParseU32, ParseBytes;
    if flag == 1 {
      U32Canonical(s);
      BytesCanonical(ParseU32(s).value.rest, MAX_FIELD);
    }
  }

  function TailOf(r: Raw): Tail {
    Tail(r.signedId, r.signedKey, r.signedSignature, r.kyberId, r.kyberKey, r.kyberSignature, r.identity)
  }

  lemma TailRoundTrip(r: Raw)
    requires RawOk(r)
    ensures ParseTail(PutTail(r)) == Success(TailOf(r))
  {
    hide PutU32, PutBytes, ParseU32, ParseBytes;
    var g := PutBytes(r.identity);
    var f := PutBytes(r.kyberSignature) + g;
    var e := PutBytes(r.kyberKey) + f;
    var d := PutU32(r.kyberId) + e;
    var c := PutBytes(r.signedSignature) + d;
    U32RoundTrip(r.signedId, PutBytes(r.signedKey) + c);
    BytesRoundTrip(r.signedKey, MAX_FIELD, c);
    BytesRoundTrip(r.signedSignature, MAX_FIELD, d);
    U32RoundTrip(r.kyberId, e);
    BytesRoundTrip(r.kyberKey, MAX_FIELD, f);
    BytesRoundTrip(r.kyberSignature, MAX_FIELD, g);
    BytesRoundTrip(r.identity, MAX_FIELD, []);
    assert g + [] == g;
  }

  lemma TailCanonical(s: seq<byte>, r: Raw)
    requires ParseTail(s) == Success(TailOf(r))
    ensures s == PutTail(r)
    ensures |r.signedKey| <= MAX_FIELD && |r.signedSignature| <= MAX_FIELD && |r.kyberKey| <= MAX_FIELD
         && |r.kyberSignature| <= MAX_FIELD && |r.identity| <= MAX_FIELD
  {
    hide PutU32, PutBytes, ParseU32, ParseBytes;
    U32Canonical(s);
    var s1 := ParseU32(s).value.rest;
    BytesCanonical(s1, MAX_FIELD);
    var s2 := ParseBytes(s1, MAX_FIELD).value.rest;
    BytesCanonical(s2, MAX_FIELD);
    var s3 := ParseBytes(s2, MAX_FIELD).value.rest;
    U32Canonical(s3);
    var s4 := ParseU32(s3).value.rest;
    BytesCanonical(s4, MAX_FIELD);
    var s5 := ParseBytes(s4, MAX_FIELD).value.rest;
    BytesCanonical(s5, MAX_FIELD);
    var s6 := ParseBytes(s5, MAX_FIELD).value.rest;
    BytesCanonical(s6, MAX_FIELD);
    assert PutBytes(r.identity) + [] == PutBytes(r.identity);
  }

  /** Frames and raw bundles correspond one to one. */
  lemma RawBijection(input: seq<byte>, r: Raw)
    ensures ParseRaw(input) == Success(r) <==> RawOk(r) && input == PutRaw(r)
  {
    hide PutU32, PutBytes, ParseU32, ParseBytes, ParseFrame, ParseByte, ParsePrekey, ParseTail, PutPrekey, PutTail;
    if RawOk(r) && input == PutRaw(r) {
      var e := PutPrekey(r.prekey, PutTail(r));
      var d := [r.flag] + e;
      var c := PutU32(r.registration) + d;
      var b := PutU32(r.device) + c;
      FrameRoundTrip(FRAME_BUNDLE, PutBytes(r.name) + b);
      BytesRoundTrip(r.name, MAX_FIELD, b);
      U32RoundTrip(r.device, c);
      U32RoundTrip(r.registration, d);
      ByteRoundTrip(r.flag, e);
      PrekeyRoundTrip(r.flag, r.prekey, PutTail(r));
      TailRoundTrip(r);
    }
    if ParseRaw(input) == Success(r) {
      FrameCanonical(input, FRAME_BUNDLE);
      var body := ParseFrame(input, FRAME_BUNDLE).value;
      BytesCanonical(body, MAX_FIELD);
      var s1 := ParseBytes(body, MAX_FIELD).value.rest;
      U32Canonical(s1);
      var s2 := ParseU32(s1).value.rest;
      U32Canonical(s2);
      var s3 := ParseU32(s2).value.rest;
      ByteCanonical(s3);
      var s4 := ParseByte(s3).value.rest;
      PrekeyCanonical(s4, r.flag);
      var s5 := ParsePrekey(s4, r.flag).value.rest;
      TailCanonical(s5, r);
    }
  }

  function RawOf(b: Bundle): Raw {
    Raw(b.name, b.device, b.registration, if b.prekey.Some? then 1 else 0, b.prekey,
        b.signedId, b.signedKey, b.signedSignature, b.kyberId, b.kyberKey, b.kyberSignature, b.identity)
  }

  function EncodeBundle(b: Bundle): Result<seq<byte>, Malformed> {
    if RawOk(RawOf(b)) then Success(PutRaw(RawOf(b))) else Failure(TooLong)
  }

  /** Judges the fields of a frame. A flag other than 1 reads as no prekey. */
  function Interpret(r: Raw, checks: Checks): Result<Bundle, Malformed> {
    if !IsUtf8(r.name) then Failure(NotUtf8)
    else if !checks.device(r.device) then Failure(NotADevice)
    else if r.prekey.Some? && checks.curve(r.prekey.value.key).None? then Failure(NotAKey)
    else if checks.curve(r.signedKey).None? || checks.kyber(r.kyberKey).None? || checks.identity(r.identity).None? then
      Failure(NotAKey)
    else
      var prekey := if r.prekey.None? then None
                    else Some(Prekey(r.prekey.value.id, checks.curve(r.prekey.value.key).value));
      Success(Bundle(
        r.name, r.device, r.registration, prekey, r.signedId, checks.curve(r.signedKey).value, r.signedSignature,
        r.kyberId, checks.kyber(r.kyberKey).value, r.kyberSignature, checks.identity(r.identity).value))
  }

  /** A key is judged as soon as it is read. */
  function ParseKey(s: seq<byte>, key: seq<byte> -> Option<seq<byte>>): Result<Parsed<seq<byte>>, Malformed> {
    var raw :- ParseBytes(s, MAX_FIELD);
    if key(raw.value).None? then Failure(NotAKey) else Success(Parsed(key(raw.value).value, raw.rest))
  }

  function DecodePrekey(s: seq<byte>, flag: byte, checks: Checks): Result<Parsed<Option<Prekey>>, Malformed> {
    if flag == 1 then
      var id :- ParseU32(s);
      var key :- ParseKey(id.rest, checks.curve);
      Success(Parsed(Some(Prekey(id.value, key.value)), key.rest))
    else Success(Parsed(None, s))
  }

  function DecodeTail(s: seq<byte>, checks: Checks): Result<Tail, Malformed> {
    var signedId :- ParseU32(s);
    var signedKey :- ParseKey(signedId.rest, checks.curve);
    var signedSignature :- ParseBytes(signedKey.rest, MAX_FIELD);
    var kyberId :- ParseU32(signedSignature.rest);
    var kyberKey :- ParseKey(kyberId.rest, checks.kyber);
    var kyberSignature :- ParseBytes(kyberKey.rest, MAX_FIELD);
    var identity :- ParseKey(kyberSignature.rest, checks.identity);
    if identity.rest != [] then Failure(Trailing)
    else
      Success(Tail(signedId.value, signedKey.value, signedSignature.value,
                   kyberId.value, kyberKey.value, kyberSignature.value, identity.value))
  }

  /** `SignalPreKeyBundle::decode`. */
  function DecodeBundle(input: seq<byte>, checks: Checks): Result<Bundle, Malformed> {
    var body :- ParseFrame(input, FRAME_BUNDLE);
    var name :- ParseBytes(body, MAX_FIELD);
    if !IsUtf8(name.value) then Failure(NotUtf8)
    else
      var device :- ParseU32(name.rest);
      if !checks.device(device.value) then Failure(NotADevice)
      else
        var registration :- ParseU32(device.rest);
        var flag :- ParseByte(registration.rest);
        var prekey :- DecodePrekey(flag.rest, flag.value, checks);
        var t :- DecodeTail(prekey.rest, checks);
        Success(Bundle(
          name.value, device.value, registration.value, prekey.value, t.signedId, t.signedKey, t.signedSignature,
          t.kyberId, t.kyberKey, t.kyberSignature, t.identity))
  }

  predicate PrekeyHasKey(prekey: Option<Prekey>, checks: Checks) {
    prekey.Some? ==> checks.curve(prekey.value.key).Some?
  }

  function PrekeyInForm(prekey: Option<Prekey>, checks: Checks): Option<Prekey>
    requires PrekeyHasKey(prekey, checks)
  {
    if prekey.None? then None else Some(Prekey(prekey.value.id, checks.curve(prekey.value.key).value))
  }

  lemma PrekeyJudged(s: seq<byte>, flag: byte, checks: Checks)
    ensures var d := DecodePrekey(s, flag, checks); var p := ParsePrekey(s, flag);
      && (d.Success? <==> p.Success? && PrekeyHasKey(p.value.value, checks))
      && (d.Success? ==> d.value == Parsed(PrekeyInForm(p.value.value, checks), p.value.rest))
  {
    hide ParseU32, ParseBytes;
  }

  predicate TailHasKeys(t: Tail, checks: Checks) {
    checks.curve(t.signedKey).Some? && checks.kyber(t.kyberKey).Some? && checks.identity(t.identity).Some?
  }

  function TailInForm(t: Tail, checks: Checks): Tail
    requires TailHasKeys(t, checks)
  {
    t.(signedKey := checks.curve(t.signedKey).value, kyberKey := checks.kyber(t.kyberKey).value,
       identity := checks.identity(t.identity).value)
  }

  lemma TailJudged(s: seq<byte>, checks: Checks)
    ensures var d := DecodeTail(s, checks); var p := ParseTail(s);
      && (d.Success? <==> p.Success? && TailHasKeys(p.value, checks))
      && (d.Success? ==> d.value == TailInForm(p.value, checks))
  {
    hide ParseU32, ParseBytes;
  }

  /** Judging each field as it is read accepts the same frames as reading all and judging afterwards. */
  lemma DecodeIsJudged(input: seq<byte>, checks: Checks, b: Bundle)
    ensures DecodeBundle(input, checks) == Success(b)
       <==> ParseRaw(input).Success? && Interpret(ParseRaw(input).value, checks) == Success(b)
  {
    hide ParseU32, ParseBytes, ParseByte, ParseFrame, ParsePrekey, ParseTail, DecodePrekey, DecodeTail, IsUtf8;
    var body := ParseFrame(input, FRAME_BUNDLE);
    if body.Success? {
      var name := ParseBytes(body.value, MAX_FIELD);
      if name.Success? {
        var device := ParseU32(name.value.rest);
        if device.Success? {
          var registration := ParseU32(device.value.rest);
          if registration.Success? {
            var flag := ParseByte(registration.value.rest);
            if flag.Success? {
              PrekeyJudged(flag.value.rest, flag.value.value, checks);
              var prekey := ParsePrekey(flag.value.rest, flag.value.value);
              if prekey.Success? { TailJudged(prekey.value.rest, checks); }
            }
          }
        }
      }
    }
  }

  /** The keys in a bundle are keys, in the form libsignal writes them. */
  predicate WellKeyed(b: Bundle, checks: Checks) {
    && checks.device(b.device)
    && (b.prekey.Some? ==> checks.curve(b.prekey.value.key) == Some(b.prekey.value.key))
    && checks.curve(b.signedKey) == Some(b.signedKey)
    && checks.kyber(b.kyberKey) == Some(b.kyberKey)
    && checks.identity(b.identity) == Some(b.identity)
  }

  /** What a bundle's encoding decodes to. */
  lemma BundleRoundTrip(b: Bundle, checks: Checks)
    requires WellKeyed(b, checks) && EncodeBundle(b).Success?
    ensures DecodeBundle(EncodeBundle(b).value, checks) == Success(b)
  {
    hide PutRaw, ParseRaw, DecodeBundle;
    RawBijection(EncodeBundle(b).value, RawOf(b));
    DecodeIsJudged(EncodeBundle(b).value, checks, b);
  }

  /** The prekey flag is 0 or 1, and every key stands as libsignal would write it. */
  predicate CanonicalFields(r: Raw, checks: Checks) {
    && r.flag <= 1
    && (r.prekey.Some? ==> checks.curve(r.prekey.value.key) == Some(r.prekey.value.key))
    && checks.curve(r.signedKey) == Some(r.signedKey)
    && checks.kyber(r.kyberKey) == Some(r.kyberKey)
    && checks.identity(r.identity) == Some(r.identity)
  }

  /** An accepted bundle is what encoding its value would give exactly when its flag is 0 or 1 and its keys are in
      the form libsignal writes. */
  lemma BundleReencodesIff(input: seq<byte>, checks: Checks)
    requires DecodeBundle(input, checks).Success?
    ensures EncodeBundle(DecodeBundle(input, checks).value) == Success(input)
       <==> ParseRaw(input).Success? && CanonicalFields(ParseRaw(input).value, checks)
  {
    hide PutRaw, ParseRaw, DecodeBundle;
    var b := DecodeBundle(input, checks).value;
    DecodeIsJudged(input, checks, b);
    var raw := ParseRaw(input).value;
    RawBijection(input, raw);
    RawBijection(input, RawOf(b));
    assert RawOf(b) == raw <==> CanonicalFields(raw, checks);
  }

  lemma EncodedBundlesDiffer(b: Bundle, c: Bundle)
    requires EncodeBundle(b).Success? && EncodeBundle(b) == EncodeBundle(c)
    ensures b == c
  {
    hide PutRaw, ParseRaw;
    RawBijection(EncodeBundle(b).value, RawOf(b));
    RawBijection(EncodeBundle(c).value, RawOf(c));
  }

  // ---------------------------------------------------------------- recovery records

  datatype Record = Record(
    oldIdentity: seq<byte>, bundle: Bundle, effectiveAt: U64, confirmation: bool, signature: seq<byte>)

  function PutPayload(identity: seq<byte>, bundle: seq<byte>, at: U64, confirmation: bool, rest: seq<byte>): seq<byte> {
    [FORMAT_VERSION] + ([FRAME_RECOVERY] + (PutBytes(identity) + (PutBytes(bundle)
    + (BigEndian(at, 8) + ([if confirmation then 1 else 0] + rest)))))
  }

  /** What the old identity signs. */
  function Payload(r: Record): Result<seq<byte>, Malformed> {
    var bundle :- EncodeBundle(r.bundle);
    if |r.oldIdentity| > MAX_FIELD || |bundle| > MAX_FIELD then Failure(TooLong)
    else Success(PutPayload(r.oldIdentity, bundle, r.effectiveAt, r.confirmation, []))
  }

  function EncodeRecord(r: Record): Result<seq<byte>, Malformed> {
    var payload :- Payload(r);
    if |r.signature| > MAX_FIELD then Failure(TooLong) else Success(payload + PutBytes(r.signature))
  }

  /** The fields of a record's frame. */
  datatype RawRecord = RawRecord(
    identity: seq<byte>, bundle: seq<byte>, at: U64, confirmation: bool, rest: seq<byte>)

  function ParsePayload(input: seq<byte>): Result<RawRecord, Malformed> {
    var body :- ParseFrame(input, FRAME_RECOVERY);
    var identity :- ParseBytes(body, MAX_FIELD);
    var bundle :- ParseBytes(identity.rest, MAX_FIELD);
    var at :- ParseU64(bundle.rest);
    var flag :- ParseByte(at.rest);
    if flag.value > 1 then Failure(UnknownFlag)
    else Success(RawRecord(identity.value, bundle.value, at.value, flag.value == 1, flag.rest))
  }

  /** `IdentityRecoveryRecord::decode`. */
  function DecodeRecord(input: seq<byte>, checks: Checks): Result<Record, Malformed> {
    var body :- ParseFrame(input, FRAME_RECOVERY);
    var identity :- ParseKey(body, checks.identity);
    var inner :- ParseBytes(identity.rest, MAX_FIELD);
    var bundle :- DecodeBundle(inner.value, checks);
    var at :- ParseU64(inner.rest);
    var flag :- ParseByte(at.rest);
    if flag.value > 1 then Failure(UnknownFlag)
    else
      var signature :- ParseBytes(flag.rest, MAX_FIELD);
      if signature.rest != [] then Failure(Trailing)
      else Success(Record(identity.value, bundle, at.value, flag.value == 1, signature.value))
  }

  lemma PayloadRoundTrip(identity: seq<byte>, bundle: seq<byte>, at: U64, confirmation: bool, rest: seq<byte>)
    requires |identity| <= MAX_FIELD && |bundle| <= MAX_FIELD
    ensures ParsePayload(PutPayload(identity, bundle, at, confirmation, rest))
         == Success(RawRecord(identity, bundle, at, confirmation, rest))
  {
    hide PutBytes, BigEndian, ParseBytes, ParseU64, ParseByte, ParseFrame;
    var c := [if confirmation then 1 else 0] + rest;
    var b := BigEndian(at, 8) + c;
    var a := PutBytes(bundle) + b;
    FrameRoundTrip(FRAME_RECOVERY, PutBytes(identity) + a);
    BytesRoundTrip(identity, MAX_FIELD, a);
    BytesRoundTrip(bundle, MAX_FIELD, b);
    U64RoundTrip(at, c);
    ByteRoundTrip(if confirmation then 1 else 0, rest);
  }

  lemma PayloadExtends(identity: seq<byte>, bundle: seq<byte>, at: U64, confirmation: bool, rest: seq<byte>)
    ensures PutPayload(identity, bundle, at, confirmation, []) + rest
         == PutPayload(identity, bundle, at, confirmation, rest)
  {
    hide PutBytes, BigEndian;
    var flag := [if confirmation then 1 else 0];
    var head := [FORMAT_VERSION] + ([FRAME_RECOVERY] + (PutBytes(identity) + (PutBytes(bundle) + BigEndian(at, 8))));
    assert PutPayload(identity, bundle, at, confirmation, []) == head + flag;
    assert PutPayload(identity, bundle, at, confirmation, rest) == head + (flag + rest);
    Regroup(head, flag, rest);
  }

  /** A record decodes to itself, and the bytes its signature covers come back with it. */
  lemma RecordRoundTrip(r: Record, checks: Checks)
    requires WellKeyed(r.bundle, checks) && checks.identity(r.oldIdentity) == Some(r.oldIdentity)
    requires EncodeRecord(r).Success?
    ensures DecodeRecord(EncodeRecord(r).value, checks) == Success(r)
    ensures Payload(r).value <= EncodeRecord(r).value
  {
    hide PutBytes, BigEndian, ParseBytes, ParseU64, ParseByte, ParseFrame, EncodeBundle, DecodeBundle, WellKeyed;
    var bundle := EncodeBundle(r.bundle).value;
    BundleRoundTrip(r.bundle, checks);
    PayloadExtends(r.oldIdentity, bundle, r.effectiveAt, r.confirmation, PutBytes(r.signature));
    var d := PutBytes(r.signature);
    var c := [if r.confirmation then 1 else 0] + d;
    var b := BigEndian(r.effectiveAt, 8) + c;
    var a := PutBytes(bundle) + b;
    FrameRoundTrip(FRAME_RECOVERY, PutBytes(r.oldIdentity) + a);
    BytesRoundTrip(r.oldIdentity, MAX_FIELD, a);
    BytesRoundTrip(bundle, MAX_FIELD, b);
    U64RoundTrip(r.effectiveAt, c);
    ByteRoundTrip(if r.confirmation then 1 else 0, d);
    BytesRoundTrip(r.signature, MAX_FIELD, []);
    assert d + [] == d;
  }

  /** Two records with the same signed bytes say the same thing. */
  lemma PayloadIdentifiesRecord(r: Record, s: Record)
    requires Payload(r).Success? && Payload(r) == Payload(s)
    ensures s.(signature := r.signature) == r
  {
    hide PutPayload, ParsePayload, EncodeBundle;
    PayloadRoundTrip(r.oldIdentity, EncodeBundle(r.bundle).value, r.effectiveAt, r.confirmation, []);
    PayloadRoundTrip(s.oldIdentity, EncodeBundle(s.bundle).value, s.effectiveAt, s.confirmation, []);
    EncodedBundlesDiffer(r.bundle, s.bundle);
  }

  // ---------------------------------------------------------------- envelopes

  datatype Envelope = Envelope(messageType: byte, ciphertext: seq<byte>)

  function EncodeEnvelope(e: Envelope): Result<seq<byte>, Malformed> {
    if e.messageType != WHISPER && e.messageType != PREKEY then Failure(UnknownType)
    else if |e.ciphertext| > MAX_CIPHERTEXT then Failure(TooLong)
    else Success([FORMAT_VERSION, FRAME_ENVELOPE, e.messageType] + BigEndian(|e.ciphertext|, 4) + e.ciphertext)
  }

  function DecodeEnvelope(input: seq<byte>): Result<Envelope, Malformed> {
    if |input| < ENVELOPE_HEADER || input[0] != FORMAT_VERSION || input[1] != FRAME_ENVELOPE then Failure(WrongFrame)
    else if input[2] != WHISPER && input[2] != PREKEY then Failure(UnknownType)
    else
      var length := FromBigEndian(input[3..7]);
      if length > MAX_CIPHERTEXT || |input| != ENVELOPE_HEADER + length then Failure(WrongLength)
      else Success(Envelope(input[2], input[ENVELOPE_HEADER..]))
  }

  /** Envelopes and their frames correspond one to one. */
  lemma EnvelopeBijection(input: seq<byte>, e: Envelope)
    ensures DecodeEnvelope(input) == Success(e) <==> EncodeEnvelope(e) == Success(input)
  {
    Powers();
    hide Power256, BigEndian, FromBigEndian;
    if EncodeEnvelope(e) == Success(input) {
      BigEndianRoundTrip(|e.ciphertext|, 4);
      assert input[3..7] == BigEndian(|e.ciphertext|, 4);
      assert input[7..] == e.ciphertext;
    }
    if DecodeEnvelope(input) == Success(e) {
      FromBigEndianRoundTrip(input[3..7]);
      assert input == [input[0], input[1], input[2]] + input[3..7] + input[7..];
    }
  }

  // ---------------------------------------------------------------- application messages

  type MessageId = id: seq<byte> | |id| == 16 witness [0, 0, 0, 0, 0, 0, 0, 0, 0, 0, 0, 0, 0, 0, 0, 0]

  datatype ChatMessage = ChatMessage(id: MessageId, plaintext: seq<byte>)

  /** A compressor, and a decompressor that stops after the given number of bytes. */
  datatype Zlib = Zlib(deflate: seq<byte> -> seq<byte>, inflate: (seq<byte>, nat) -> Option<seq<byte>>)

  function PutMessage(frame: byte, id: MessageId, length: nat, stored: seq<byte>): seq<byte> {
    [FORMAT_VERSION, frame] + id + BigEndian(length, 4) + BigEndian(|stored|, 4) + stored
  }

  function EncodeMessage(m: ChatMessage, zlib: Zlib): Result<seq<byte>, Malformed> {
    var length := |m.plaintext|;
    if length > MAX_MESSAGE then Failure(TooLarge)
    else
      var compressed := zlib.deflate(m.plaintext);
      if length >= MIN_COMPRESSIBLE && |compressed| < length then
        Success(PutMessage(FRAME_COMPRESSED, m.id, length, compressed))
      else Success(PutMessage(FRAME_MESSAGE, m.id, length, m.plaintext))
  }

  function DecodeMessage(input: seq<byte>, zlib: Zlib): Result<ChatMessage, Malformed> {
    if |input| < 2 then Failure(Truncated)
    else if input[0] != FORMAT_VERSION then Failure(WrongVersion)
    else if input[1] != FRAME_COMPRESSED && input[1] != FRAME_MESSAGE then Failure(WrongFrame)
    else if |input| < MESSAGE_HEADER then Failure(Truncated)
    else
      var length, stored := FromBigEndian(input[18..22]), FromBigEndian(input[22..26]);
      if length > MAX_MESSAGE || stored > MAX_MESSAGE || |input| != MESSAGE_HEADER + stored then Failure(WrongLength)
      else if input[1] == FRAME_MESSAGE then
        if stored != length then Failure(WrongLength) else Success(ChatMessage(input[2..18], input[26..]))
      else
        var plaintext := zlib.inflate(input[26..], length + 1);
        if plaintext.None? then Failure(NotCompressed)
        else if |plaintext.value| != length then Failure(WrongLength)
        else Success(ChatMessage(input[2..18], plaintext.value))
  }

  lemma MessageParts(frame: byte, id: MessageId, length: nat, stored: seq<byte>)
    requires length <= MAX_MESSAGE && |stored| <= MAX_MESSAGE
    ensures var s := PutMessage(frame, id, length, stored);
      && |s| == MESSAGE_HEADER + |stored| && s[0] == FORMAT_VERSION && s[1] == frame
      && s[2..18] == id && FromBigEndian(s[18..22]) == length && FromBigEndian(s[22..26]) == |stored| && s[26..] == stored
  {
    Powers();
    hide Power256, BigEndian, FromBigEndian;
    BigEndianRoundTrip(length, 4);
    BigEndianRoundTrip(|stored|, 4);
    var s := PutMessage(frame, id, length, stored);
    assert s[18..22] == BigEndian(length, 4) && s[22..26] == BigEndian(|stored|, 4);
  }

  /** Any message within the limit survives encoding and decoding, whatever the compressor, as long as it can be
      undone; and encoding adds at most the header. */
  lemma MessageRoundTrip(m: ChatMessage, zlib: Zlib)
    requires |m.plaintext| <= MAX_MESSAGE
    requires zlib.inflate(zlib.deflate(m.plaintext), |m.plaintext| + 1) == Some(m.plaintext)
    ensures EncodeMessage(m, zlib).Success?
    ensures DecodeMessage(EncodeMessage(m, zlib).value, zlib) == Success(m)
    ensures |EncodeMessage(m, zlib).value| <= MESSAGE_HEADER + |m.plaintext|
  {
    hide PutMessage, FromBigEndian;
    var compressed := zlib.deflate(m.plaintext);
    if |m.plaintext| >= MIN_COMPRESSIBLE && |compressed| < |m.plaintext| {
      MessageParts(FRAME_COMPRESSED, m.id, |m.plaintext|, compressed);
    } else {
      MessageParts(FRAME_MESSAGE, m.id, |m.plaintext|, m.plaintext);
    }
  }

  /** Short messages travel as they are, longer ones in whichever form is shorter, and the frame says which. */
  lemma MessageTakesShorterForm(m: ChatMessage, zlib: Zlib)
    requires EncodeMessage(m, zlib).Success?
    ensures var s := EncodeMessage(m, zlib).value; var plain, packed := |m.plaintext|, |zlib.deflate(m.plaintext)|;
      && |s| == MESSAGE_HEADER + (if plain < MIN_COMPRESSIBLE || plain <= packed then plain else packed)
      && s[1] in {FRAME_MESSAGE, FRAME_COMPRESSED}
      && (s[1] == FRAME_COMPRESSED <==> |s| < MESSAGE_HEADER + plain)
  {
    hide FromBigEndian;
    MessageParts(FRAME_MESSAGE, m.id, |m.plaintext|, m.plaintext);
    if |zlib.deflate(m.plaintext)| < |m.plaintext| {
      MessageParts(FRAME_COMPRESSED, m.id, |m.plaintext|, zlib.deflate(m.plaintext));
    }
    hide PutMessage;
  }

  /** Whatever the input and the decompressor, a decoded message has at most 8 MiB and the length its header states;
      and no message over the limit is encoded. */
  lemma MessageIsBounded(input: seq<byte>, m: ChatMessage, zlib: Zlib)
    ensures DecodeMessage(input, zlib) == Success(m) ==>
      |m.plaintext| <= MAX_MESSAGE && |m.plaintext| == FromBigEndian(input[18..22]) && m.id == input[2..18]
    ensures EncodeMessage(m, zlib).Failure? <==> |m.plaintext| > MAX_MESSAGE
  {
    hide FromBigEndian;
  }

  /** The text form of a message id is 32 characters and identifies it. */
  lemma MessageIdText(a: MessageId, b: MessageId)
    ensures |Hex(a)| == 32
    ensures Hex(a) == Hex(b) <==> a == b
  {
    if Hex(a) == Hex(b) { HexInjective(a, b); }
  }
}
