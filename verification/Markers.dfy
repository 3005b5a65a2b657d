/** `<<ccr:ID>>` markers in text, as ccr/mod.rs and compact.rs read them. */
module Markers {
  import opened Options
  import opened Messages

  const OPEN := "<<ccr:"
  const CLOSE := ">>"

  predicate MatchesAt(s: string, p: string, i: nat) {
    i + |p| <= |s| && forall k | 0 <= k < |p| :: s[i + k] == p[k]
  }

  /** `str::find`: the first match of `p`, or -1. */
  function Find(s: string, p: string): (r: int)
    ensures r >= 0 ==> MatchesAt(s, p, r) && forall j: nat | j < r :: !MatchesAt(s, p, j)
    ensures r < 0 ==> r == -1 && forall j: nat :: !MatchesAt(s, p, j)
  {
    if MatchesAt(s, p, 0) then 0
    else if s == [] then -1
    else
      var r := Find(s[1..], p);
      assert forall j: nat | j > 0 :: MatchesAt(s, p, j) <==> MatchesAt(s[1..], p, j - 1);
      if r < 0 then -1 else r + 1
  }

  lemma FindIs(s: string, p: string, i: nat)
    requires MatchesAt(s, p, i) && forall j: nat | j < i :: !MatchesAt(s, p, j)
    ensures Find(s, p) == i
  {
  }

  predicate Contains(s: string, p: string) {
    Find(s, p) >= 0
  }

  /** Every id enclosed in a marker, scanning left to right. */
  function MarkerIds(s: string): set<string>
    decreases |s|
  {
    var start := Find(s, OPEN);
    if start < 0 then {}
    else
      var after := s[start + |OPEN|..];
      var end := Find(after, CLOSE);
      if end < 0 then {} else {after[..end]} + MarkerIds(after[end + |CLOSE|..])
  }

  /** Every marker the text opens, scanning left to right, it also closes. */
  predicate Closed(s: string)
    decreases |s|
  {
    var start := Find(s, OPEN);
    start >= 0 ==>
      var after := s[start + |OPEN|..];
      var end := Find(after, CLOSE);
      end >= 0 && Closed(after[end + |CLOSE|..])
  }

  method CollectMarkers(content: string) returns (ids: set<string>)
    ensures ids == MarkerIds(content)
  {
    ids := {};
    var rest := content;
    while true
      invariant MarkerIds(content) == ids + MarkerIds(rest)
      decreases |rest|
    {
      var start := Find(rest, OPEN);
      if start < 0 {
        break;
      }
      var after := rest[start + |OPEN|..];
      var end := Find(after, CLOSE);
      if end < 0 {
        break;
      }
      MarkerStep(rest, start, end);
      ids := ids + {after[..end]};
      rest := after[end + |CLOSE|..];
    }
  }

  lemma MarkerStep(s: string, start: nat, end: nat)
    requires Find(s, OPEN) == start && Find(s[start + |OPEN|..], CLOSE) == end
    ensures var after := s[start + |OPEN|..];
            MarkerIds(s) == {after[..end]} + MarkerIds(after[end + |CLOSE|..])
  {
    hide Find, MatchesAt;
    FindFits(s, OPEN);
    FindFits(s[start + |OPEN|..], CLOSE);
  }

  lemma ClosedStep(s: string, start: nat, end: nat)
    requires Find(s, OPEN) == start && Find(s[start + |OPEN|..], CLOSE) == end
    ensures Closed(s) <==> Closed(s[start + |OPEN|..][end + |CLOSE|..])
  {
    hide Find, MatchesAt;
    FindFits(s, OPEN);
    FindFits(s[start + |OPEN|..], CLOSE);
  }

  lemma FindFits(s: string, p: string)
    ensures Find(s, p) >= 0 ==> Find(s, p) + |p| <= |s|
  {
  }

  /** The ids one message references, by metadata and by markers in its text. */
  function RefsOf(m: Message): set<string> {
    (if CcrId in m.metadata then {m.metadata[CcrId]} else {}) + MarkerIds(m.content)
  }

  function ReferencedIds(ms: seq<Message>): set<string> {
    set m, id | m in ms && id in RefsOf(m) :: id
  }

  method MessageRefs(m: Message) returns (ids: set<string>)
    ensures ids == RefsOf(m)
  {
    ids := CollectMarkers(m.content);
    if CcrId in m.metadata {
      ids := ids + {m.metadata[CcrId]};
    }
  }

  method ReferencedCcrIds(messages: seq<Message>) returns (ids: set<string>)
    ensures ids == ReferencedIds(messages)
  {
    hide RefsOf;
    ids := {};
    for i := 0 to |messages|
      invariant forall id :: id in ids <==> exists j :: 0 <= j < i && id in RefsOf(messages[j])
    {
      var refs := MessageRefs(messages[i]);
      ids := ids + refs;
    }
    ReferencedByIndex(messages);
  }

  lemma ReferencedByIndex(ms: seq<Message>)
    ensures forall id :: id in ReferencedIds(ms) <==> exists j :: 0 <= j < |ms| && id in RefsOf(ms[j])
  {
    hide RefsOf;
    forall id
      ensures id in ReferencedIds(ms) <==> exists j :: 0 <= j < |ms| && id in RefsOf(ms[j])
    {
      if j :| 0 <= j < |ms| && id in RefsOf(ms[j]) {
        assert ms[j] in ms;
      }
    }
  }

  // ----- the first marker of a text, for fold records -----

  function ExtractMarker(content: string): Option<string> {
    var start := Find(content, OPEN);
    if start < 0 then None
    else
      var rest := content[start..];
      var end := Find(rest, CLOSE);
      if end < 0 then None else Some(rest[..end + |CLOSE|])
  }

  function TrimStart(s: string, p: string): string
    requires |p| > 0
  {
    if p <= s then TrimStart(s[|p|..], p) else s
  }

  function TrimEnd(s: string, p: string): string
    requires |p| > 0
  {
    if |p| <= |s| && s[|s| - |p|..] == p then TrimEnd(s[..|s| - |p|], p) else s
  }

  function MarkerId(marker: string): string {
    TrimEnd(TrimStart(marker, OPEN), CLOSE)
  }
}
