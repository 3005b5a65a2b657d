/** Bytes and the UTF-8 grammar of section 4 of RFC 3629. */
module Utf8 {
  type byte = x: int | 0 <= x < 256

  predicate Tail(b: byte) {
    0x80 <= b <= 0xBF
  }

  /** Length of the character `s` begins with, or 0 when it begins with none. */
  function CharLength(s: seq<byte>): (n: nat)
    ensures n <= |s| && n <= 4
  {
    if |s| == 0 then 0
    else if s[0] <= 0x7F then 1
    else if 0xC2 <= s[0] <= 0xDF && |s| >= 2 && Tail(s[1]) then 2
    else if s[0] == 0xE0 && |s| >= 3 && 0xA0 <= s[1] <= 0xBF && Tail(s[2]) then 3
    else if 0xE1 <= s[0] <= 0xEC && |s| >= 3 && Tail(s[1]) && Tail(s[2]) then 3
    else if s[0] == 0xED && |s| >= 3 && 0x80 <= s[1] <= 0x9F && Tail(s[2]) then 3
    else if 0xEE <= s[0] <= 0xEF && |s| >= 3 && Tail(s[1]) && Tail(s[2]) then 3
    else if s[0] == 0xF0 && |s| >= 4 && 0x90 <= s[1] <= 0xBF && Tail(s[2]) && Tail(s[3]) then 4
    else if 0xF1 <= s[0] <= 0xF3 && |s| >= 4 && Tail(s[1]) && Tail(s[2]) && Tail(s[3]) then 4
    else if s[0] == 0xF4 && |s| >= 4 && 0x80 <= s[1] <= 0x8F && Tail(s[2]) && Tail(s[3]) then 4
    else 0
  }

  /** `str::from_utf8` accepts exactly the sequences of such characters. */
  predicate Valid(s: seq<byte>)
    decreases |s|
  {
    s == [] || (CharLength(s) > 0 && Valid(s[CharLength(s)..]))
  }

  type Text = s: seq<byte> | Valid(s)

  /** No byte above 0xF4 occurs in UTF-8 text. */
  lemma {:induction false} NoHighBytes(s: seq<byte>, i: nat)
    requires Valid(s) && i < |s|
    ensures s[i] <= 0xF4
    decreases |s|
  {
    var n := CharLength(s);
    if i >= n {
      NoHighBytes(s[n..], i - n);
    }
  }

  lemma {:induction false} AsciiIsValid(s: seq<byte>)
    requires forall i | 0 <= i < |s| :: s[i] <= 0x7F
    ensures Valid(s)
  {
    if s != [] {
      AsciiIsValid(s[1..]);
    }
  }
}
