/** Well-formed UTF-8, as section 4 of RFC 3629 defines it. */
module Utf8 {
  import opened Bytes

  predicate IsTail(b: byte) {
    0x80 <= b <= 0xbf
  }

  /** The length of the character that `s` starts with, 0 if `s` does not start with one. */
  function CharLength(s: seq<byte>): (n: nat)
    ensures n <= |s|
  {
    if s == [] then 0
    else if s[0] <= 0x7f then 1
    else if |s| < 2 || !IsTail(s[1]) then 0
    else if 0xc2 <= s[0] <= 0xdf then 2
    else if |s| < 3 || !IsTail(s[2]) then 0
    else if (s[0] == 0xe0 && 0xa0 <= s[1]) || 0xe1 <= s[0] <= 0xec || (s[0] == 0xed && s[1] <= 0x9f)
      || 0xee <= s[0] <= 0xef then 3
    else if |s| < 4 || !IsTail(s[3]) then 0
    else if (s[0] == 0xf0 && 0x90 <= s[1]) || 0xf1 <= s[0] <= 0xf3 || (s[0] == 0xf4 && s[1] <= 0x8f) then 4
    else 0
  }

  predicate IsUtf8(s: seq<byte>)
    decreases |s|
  {
    s == [] || (CharLength(s) > 0 && IsUtf8(s[CharLength(s)..]))
  }

  /** The bytes of a Rust `String`. */
  type Text = s: seq<byte> | IsUtf8(s)
}
