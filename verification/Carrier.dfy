/** Hiding bytes in the least significant bits of an image's colour channels. */
module Carrier {
  import opened Wrappers

  type Octet = bv8

  datatype Refusal = TooLong | Mismatch

  // ---------------------------------------------------------------- bits and bytes

  /** Bit `j` of an octet, most significant first. */
  function BitOf(b: Octet, j: nat): Octet
    requires j < 8
  {
    (b >> (7 - j)) & 1
  }

  /** `bits_from_bytes`. */
  function BitsFromBytes(bytes: seq<Octet>): (bits: seq<Octet>)
    ensures |bits| == 8 * |bytes|
  {
    seq(8 * |bytes|, i requires 0 <= i < 8 * |bytes| => BitOf(bytes[i / 8], i % 8))
  }

  function Push(value: Octet, bit: Octet): Octet {
    (value << 1) | bit
  }

  function Fold(bits: seq<Octet>): Octet {
    if bits == [] then 0 else Push(Fold(bits[..|bits| - 1]), bits[|bits| - 1])
  }

  /** `bytes_from_bits`: a last group of fewer than eight bits is dropped. */
  function BytesFromBits(bits: seq<Octet>): (bytes: seq<Octet>)
    ensures |bytes| == |bits| / 8
  {
    seq(|bits| / 8, k requires 0 <= k < |bits| / 8 => Fold(bits[8 * k..8 * k + 8]))
  }

  lemma FoldFront(bits: seq<Octet>, j: nat)
    requires j < |bits|
    ensures Fold(bits[..j + 1]) == Push(Fold(bits[..j]), bits[j])
  {
    assert bits[..j + 1][..j] == bits[..j];
  }

  lemma EightBits(b: Octet)
    ensures var a0 := Push(0, BitOf(b, 0));
      var a1 := Push(a0, BitOf(b, 1));
      var a2 := Push(a1, BitOf(b, 2));
      var a3 := Push(a2, BitOf(b, 3));
      var a4 := Push(a3, BitOf(b, 4));
      var a5 := Push(a4, BitOf(b, 5));
      var a6 := Push(a5, BitOf(b, 6));
      Push(a6, BitOf(b, 7)) == b
  {
  }

  lemma FoldOfBits(b: Octet, s: seq<Octet>)
    requires |s| == 8 && forall j :: 0 <= j < 8 ==> s[j] == BitOf(b, j)
    ensures Fold(s) == b
  {
    assert Fold(s[..0]) == 0;
    hide BitOf, Fold, Push;
    FoldFront(s, 0);
    FoldFront(s, 1);
    FoldFront(s, 2);
    FoldFront(s, 3);
    FoldFront(s, 4);
    FoldFront(s, 5);
    FoldFront(s, 6);
    FoldFront(s, 7);
    assert s[..8] == s;
    EightBits(b);
  }

  /** Bytes survive being taken apart into bits. */
  lemma BitsRoundTrip(bytes: seq<Octet>)
    ensures BytesFromBits(BitsFromBytes(bytes)) == bytes
  {
    hide BitOf, Fold;
    var bits := BitsFromBytes(bytes);
    forall k | 0 <= k < |bytes| ensures Fold(bits[8 * k..8 * k + 8]) == bytes[k] {
      var s := bits[8 * k..8 * k + 8];
      forall j | 0 <= j < 8 ensures s[j] == BitOf(bytes[k], j) {
        assert s[j] == bits[8 * k + j];
      }
      FoldOfBits(bytes[k], s);
    }
  }

  // ---------------------------------------------------------------- channels

  /** The number of colour channels: three of every four bytes; a last incomplete pixel has none. */
  function Channels(length: nat): nat {
    length / 4 * 3
  }

  /** Where channel `i` is. */
  function Place(i: nat): nat {
    i / 3 * 4 + i % 3
  }

  /** Whether the byte at `k` is a colour channel, not alpha and not beyond the last whole pixel. */
  predicate IsChannel(k: nat, length: nat) {
    k % 4 < 3 && k / 4 < length / 4
  }

  /** The number of the channel at `k`. */
  function ChannelAt(k: nat): nat {
    k / 4 * 3 + k % 4
  }

  lemma PlaceIsInverse(i: nat, length: nat)
    requires i < Channels(length)
    ensures Place(i) < length && IsChannel(Place(i), length) && ChannelAt(Place(i)) == i
  {
  }

  /** `lsb_bits`. */
  function LsbBits(pixels: seq<Octet>): (bits: seq<Octet>)
    ensures |bits| == Channels(|pixels|)
  {
    seq(Channels(|pixels|), i requires 0 <= i < Channels(|pixels|) => Lsb(pixels, i))
  }

  function Lsb(pixels: seq<Octet>, i: nat): Octet
    requires i < Channels(|pixels|)
  {
    PlaceIsInverse(i, |pixels|);
    pixels[Place(i)] & 1
  }

  /** `capacity_bytes`. */
  function Capacity(length: nat): nat {
    length / 4 * 3 / 8
  }

  function SetLsb(b: Octet, bit: Octet): Octet {
    (b & 0xfe) | bit
  }

  function EmbeddedAt(pixels: seq<Octet>, payload: seq<Octet>, k: nat): Octet
    requires k < |pixels|
  {
    if IsChannel(k, |pixels|) && ChannelAt(k) < 8 * |payload| then
      SetLsb(pixels[k], BitsFromBytes(payload)[ChannelAt(k)])
    else pixels[k]
  }

  /** The image after a payload that fits has been embedded. */
  function Embedded(pixels: seq<Octet>, payload: seq<Octet>): (after: seq<Octet>)
    ensures |after| == |pixels|
  {
    seq(|pixels|, k requires 0 <= k < |pixels| => EmbeddedAt(pixels, payload, k))
  }

  function Extracted(pixels: seq<Octet>, length: nat): seq<Octet>
    requires length <= Capacity(|pixels|)
  {
    BytesFromBits(LsbBits(pixels)[..8 * length])
  }

  predicate IsBit(b: Octet) {
    b == 0 || b == 1
  }

  lemma BitsAreBits(bytes: seq<Octet>, i: nat)
    requires i < 8 * |bytes|
    ensures IsBit(BitsFromBytes(bytes)[i])
  {
    var b := bytes[i / 8] >> (7 - i % 8);
    OneBit(b);
  }

  lemma OneBit(b: Octet)
    ensures IsBit(b & 1)
  {
  }

  lemma SetLsbBits(b: Octet, bit: Octet)
    requires IsBit(bit)
    ensures SetLsb(b, bit) & 1 == bit && SetLsb(b, bit) & 0xfe == b & 0xfe
  {
  }

  /** The bits read back are the payload's and, behind them, the image's own. */
  lemma EmbeddedLsb(pixels: seq<Octet>, payload: seq<Octet>, i: nat)
    requires |payload| <= Capacity(|pixels|) && i < Channels(|pixels|)
    ensures LsbBits(Embedded(pixels, payload))[i]
         == if i < 8 * |payload| then BitsFromBytes(payload)[i] else LsbBits(pixels)[i]
  {
    PlaceIsInverse(i, |pixels|);
    if i < 8 * |payload| {
      BitsAreBits(payload, i);
      hide IsBit, SetLsb, BitsFromBytes;
      SetLsbBits(pixels[Place(i)], BitsFromBytes(payload)[i]);
    }
  }

  /** What is embedded can be extracted, from every image with room for it. */
  lemma ExtractAfterEmbed(pixels: seq<Octet>, payload: seq<Octet>)
    requires |payload| <= Capacity(|pixels|)
    ensures Extracted(Embedded(pixels, payload), |payload|) == payload
  {
    hide Embedded, BitsFromBytes, LsbBits, Fold;
    var bits := LsbBits(Embedded(pixels, payload));
    forall i | 0 <= i < 8 * |payload| ensures bits[i] == BitsFromBytes(payload)[i] {
      EmbeddedLsb(pixels, payload, i);
    }
    assert bits[..8 * |payload|] == BitsFromBytes(payload);
    BitsRoundTrip(payload);
  }

  /** Alpha bytes, bytes after the last whole pixel and channels beyond the payload stay as they are; of the
      channels that carry the payload only the lowest bit may change. */
  lemma EmbedTouchesOnlyItsBits(pixels: seq<Octet>, payload: seq<Octet>, k: nat)
    requires |payload| <= Capacity(|pixels|) && k < |pixels|
    ensures Embedded(pixels, payload)[k] & 0xfe == pixels[k] & 0xfe
    ensures !IsChannel(k, |pixels|) || ChannelAt(k) >= 8 * |payload| ==> Embedded(pixels, payload)[k] == pixels[k]
  {
    if IsChannel(k, |pixels|) && ChannelAt(k) < 8 * |payload| {
      BitsAreBits(payload, ChannelAt(k));
      hide IsBit, SetLsb, BitsFromBytes;
      SetLsbBits(pixels[k], BitsFromBytes(payload)[ChannelAt(k)]);
    }
  }

  /** Where a payload's bits are: bit `j` of byte `b`, counted from the most significant, is the lowest bit of colour
      channel `8 * b + j`, counted pixel by pixel in the order red, green, blue. */
  lemma BitIsEmbedded(pixels: seq<Octet>, payload: seq<Octet>, b: nat, j: nat)
    requires |payload| <= Capacity(|pixels|) && b < |payload| && j < 8
    ensures var channel := 8 * b + j;
      && channel / 3 * 4 + channel % 3 < |pixels|
      && Embedded(pixels, payload)[channel / 3 * 4 + channel % 3] & 1 == (payload[b] >> (7 - j)) & 1
  {
    var channel := 8 * b + j;
    assert channel / 8 == b && channel % 8 == j;
    assert channel < Channels(|pixels|);
    PlaceIsInverse(channel, |pixels|);
    EmbeddedLsb(pixels, payload, channel);
    hide Embedded, SetLsb;
  }

  /** The capacity is the largest number of whole bytes for which there are channels. */
  lemma CapacityIsLargest(length: nat, n: nat)
    ensures n <= Capacity(length) <==> 8 * n <= length / 4 * 3
  {
  }

  // ---------------------------------------------------------------- counting changed bits

  /** In how many of the positions both have, `a` and `b` differ. */
  function Differences(a: seq<Octet>, b: seq<Octet>): nat {
    if a == [] || b == [] then 0
    else (if a[0] != b[0] then 1 else 0) + Differences(a[1..], b[1..])
  }

  lemma {:induction false} DifferencesAgree(a: seq<Octet>, b: seq<Octet>, m: nat)
    requires m <= |a| && |a| == |b| && forall i :: m <= i < |a| ==> a[i] == b[i]
    ensures Differences(a, b) == Differences(b[..m], a[..m])
  {
    if |a| > 0 {
      if m == 0 {
        assert a[0] == b[0];
        DifferencesAgree(a[1..], b[1..], 0);
      } else {
        DifferencesAgree(a[1..], b[1..], m - 1);
        assert a[..m][1..] == a[1..][..m - 1] && b[..m][1..] == b[1..][..m - 1];
      }
    }
  }

  datatype Image = Image(width: nat, height: nat, pixels: seq<Octet>)

  /** `changed_lsb_count`. */
  function ChangedLsbCount(reference: Image, candidate: Image): Result<nat, Refusal> {
    if reference.width != candidate.width || reference.height != candidate.height then Failure(Mismatch)
    else Success(Differences(LsbBits(reference.pixels), LsbBits(candidate.pixels)))
  }

  /** The detector counts exactly the payload bits that differ from the bits they replaced. */
  lemma ChangedCountIsHamming(image: Image, payload: seq<Octet>)
    requires |payload| <= Capacity(|image.pixels|)
    ensures ChangedLsbCount(image, image.(pixels := Embedded(image.pixels, payload)))
         == Success(Differences(BitsFromBytes(payload), LsbBits(image.pixels)[..8 * |payload|]))
  {
    hide Embedded, BitsFromBytes, LsbBits, Differences;
    var a, b, m := LsbBits(image.pixels), LsbBits(Embedded(image.pixels, payload)), 8 * |payload|;
    forall i | 0 <= i < |a| ensures b[i] == if i < m then BitsFromBytes(payload)[i] else a[i] {
      EmbeddedLsb(image.pixels, payload, i);
    }
    assert b[..m] == BitsFromBytes(payload);
    DifferencesAgree(a, b, m);
  }

  // ---------------------------------------------------------------- the adapter

  /** The image while the first `done` channels have been visited. */
  predicate Progress(now: seq<Octet>, was: seq<Octet>, payload: seq<Octet>, done: nat) {
    && |now| == |was|
    && forall k :: 0 <= k < |was| ==>
         now[k] == if IsChannel(k, |was|) && ChannelAt(k) < done then EmbeddedAt(was, payload, k) else was[k]
  }

  lemma AllVisited(now: seq<Octet>, was: seq<Octet>, payload: seq<Octet>, done: nat)
    requires Progress(now, was, payload, done)
    requires done >= 8 * |payload| || done >= Channels(|was|)
    ensures now == Embedded(was, payload)
  {
    hide BitsFromBytes, SetLsb;
  }

  method Embed(pixels: array<Octet>, payload: seq<Octet>) returns (r: Result<(), Refusal>)
    modifies pixels
    ensures r == if |payload| > Capacity(pixels.Length) then Failure(TooLong) else Success(())
    ensures pixels[..] == if r.Failure? then old(pixels[..]) else Embedded(old(pixels[..]), payload)
  {
    hide BitsFromBytes, SetLsb, Embedded;
    if |payload| > Capacity(pixels.Length) { return Failure(TooLong); }
    ghost var was := pixels[..];
    var bits := BitsFromBytes(payload);
    for pixel := 0 to pixels.Length / 4
      invariant Progress(pixels[..], was, payload, 3 * pixel)
    {
      for channel := 0 to 3
        invariant Progress(pixels[..], was, payload, 3 * pixel + channel)
      {
        var i, k := 3 * pixel + channel, 4 * pixel + channel;
        if i >= |bits| {
          AllVisited(pixels[..], was, payload, i);
          return Success(());
        }
        assert IsChannel(k, |was|) && ChannelAt(k) == i;
        pixels[k] := SetLsb(pixels[k], bits[i]);
      }
    }
    AllVisited(pixels[..], was, payload, Channels(pixels.Length));
    r := Success(());
  }

  method Extract(pixels: array<Octet>, length: nat) returns (r: Result<seq<Octet>, Refusal>)
    ensures r == if length > Capacity(pixels.Length) then Failure(TooLong) else Success(Extracted(pixels[..], length))
  {
    hide BytesFromBits;
    if length > Capacity(pixels.Length) { return Failure(TooLong); }
    var bitCount := 8 * length;
    var bits: seq<Octet> := [];
    for pixel := 0 to pixels.Length / 4
      invariant |bits| == 3 * pixel <= bitCount && bits == LsbBits(pixels[..])[..|bits|]
    {
      for channel := 0 to 3
        invariant |bits| == 3 * pixel + channel <= bitCount && bits == LsbBits(pixels[..])[..|bits|]
      {
        if |bits| == bitCount { return Success(BytesFromBits(bits)); }
        assert Place(|bits|) == 4 * pixel + channel;
        bits := bits + [pixels[4 * pixel + channel] & 1];
      }
    }
    r := Success(BytesFromBits(bits));
  }
}
