/** The extractive summary of conversation.rs. */
module Summaries {
  import opened Messages

  const CAP := 800

  predicate EndsSentence(c: char) {
    c == '.' || c == '!' || c == '?'
  }

  /** `char::is_whitespace`. */
  predicate IsSpace(c: char) {
    || '\t' <= c <= '\r' || c == ' ' || c == '\U{85}' || c == '\U{A0}' || c == '\U{1680}' || '\U{2000}' <= c <= '\U{200A}'
    || c == '\U{2028}' || c == '\U{2029}' || c == '\U{202F}' || c == '\U{205F}' || c == '\U{3000}'
  }

  function FirstSentence(s: string): (r: string)
    ensures r <= s
  {
    if s == [] || EndsSentence(s[0]) then [] else [s[0]] + FirstSentence(s[1..])
  }

  function TrimLeft(s: string): string {
    if s != [] && IsSpace(s[0]) then TrimLeft(s[1..]) else s
  }

  function TrimRight(s: string): (r: string)
    ensures r <= s
  {
    if s != [] && IsSpace(s[|s| - 1]) then TrimRight(s[..|s| - 1]) else s
  }

  function Part(content: string): string {
    TrimRight(TrimLeft(FirstSentence(content)))
  }

  /** A turn contributes its text up to the first sentence end, without the white space around it. */
  lemma PartIs(content: string) returns (before: string, after: string, rest: string)
    ensures content == before + Part(content) + after + rest
    ensures forall c | c in before + Part(content) + after :: !EndsSentence(c)
    ensures rest != [] ==> EndsSentence(rest[0])
    ensures forall c | c in before + after :: IsSpace(c)
    ensures var p := Part(content); p != [] ==> !IsSpace(p[0]) && !IsSpace(p[|p| - 1])
  {
    hide IsSpace, EndsSentence;
    var sentence := FirstSentence(content);
    SentenceEnds(content);
    before := LeftTrimmed(sentence);
    after := RightTrimmed(TrimLeft(sentence));
    rest := content[|sentence|..];
    assert sentence == before + Part(content) + after;
  }

  lemma {:induction false} SentenceEnds(s: string)
    ensures forall c | c in FirstSentence(s) :: !EndsSentence(c)
    ensures |FirstSentence(s)| < |s| ==> EndsSentence(s[|FirstSentence(s)|])
  {
    hide EndsSentence;
    if s != [] && !EndsSentence(s[0]) {
      SentenceEnds(s[1..]);
    }
  }

  lemma {:induction false} LeftTrimmed(s: string) returns (spaces: string)
    ensures s == spaces + TrimLeft(s) && forall c | c in spaces :: IsSpace(c)
    ensures TrimLeft(s) != [] ==> !IsSpace(TrimLeft(s)[0])
  {
    hide IsSpace;
    spaces := [];
    if s != [] && IsSpace(s[0]) {
      spaces := LeftTrimmed(s[1..]);
      spaces := [s[0]] + spaces;
    }
  }

  lemma {:induction false} RightTrimmed(s: string) returns (spaces: string)
    ensures s == TrimRight(s) + spaces && forall c | c in spaces :: IsSpace(c)
    ensures TrimRight(s) != [] ==> !IsSpace(TrimRight(s)[|TrimRight(s)| - 1])
  {
    hide IsSpace;
    spaces := [];
    if s != [] && IsSpace(s[|s| - 1]) {
      spaces := RightTrimmed(s[..|s| - 1]);
      spaces := spaces + [s[|s| - 1]];
    }
  }

  function Parts(turns: seq<Message>): seq<string> {
    if turns == [] then []
    else
      var init, last := Parts(turns[..|turns| - 1]), Part(turns[|turns| - 1].content);
      if last != [] then init + [last] else init
  }

  function Join(parts: seq<string>): string {
    if parts == [] then [] else if |parts| == 1 then parts[0] else parts[0] + " | " + Join(parts[1..])
  }

  /** Length of a character in UTF-8. */
  function Utf8Length(c: char): nat {
    if c as int < 0x80 then 1 else if c as int < 0x800 then 2 else if c as int < 0x10000 then 3 else 4
  }

  function ByteLength(s: string): nat {
    if s == [] then 0 else Utf8Length(s[0]) + ByteLength(s[1..])
  }

  /** The longest prefix of at most `max` bytes. */
  function CutBytes(s: string, max: nat): (r: string)
    ensures r <= s
  {
    if s == [] || Utf8Length(s[0]) > max then [] else [s[0]] + CutBytes(s[1..], max - Utf8Length(s[0]))
  }

  /** The cut fits, and no longer prefix would. */
  lemma {:induction false} CutIsTheLongestThatFits(s: string, max: nat, n: nat)
    requires n <= |s|
    ensures ByteLength(s[..n]) <= max <==> n <= |CutBytes(s, max)|
  {
    if n > 0 {
      var rest := s[1..];
      assert s[..n][1..] == rest[..n - 1] && s[..n][0] == s[0];
      if Utf8Length(s[0]) <= max {
        CutIsTheLongestThatFits(rest, max - Utf8Length(s[0]), n - 1);
      }
    }
  }

  function Summarise(turns: seq<Message>): string {
    var joined := Join(Parts(turns));
    if ByteLength(joined) > CAP then CutBytes(joined, CAP) + "\U{2026}" else joined
  }

  method SummariseTurns(turns: seq<Message>) returns (summary: string)
    ensures summary == Summarise(turns)
  {
    var parts: seq<string> := [];
    for i := 0 to |turns|
      invariant parts == Parts(turns[..i])
    {
      assert turns[..i + 1][..i] == turns[..i];
      var sentence := Part(turns[i].content);
      if sentence != [] {
        parts := parts + [sentence];
      }
    }
    assert turns[..|turns|] == turns;
    var joined := Join(parts);
    summary := if ByteLength(joined) > CAP then CutBytes(joined, CAP) + "\U{2026}" else joined;
  }
}
