/** Texts that can be cleared, summarised and recorded without inventing references. */
module TidyTexts {
  import opened Messages
  import opened Summaries
  import opened Conversation
  import opened Markers
  import opened MarkerScans
  import opened SummaryMarkers
  import opened Stubs
  import opened Compact
  import Agent

  /** No marker sits directly inside another. */
  ghost predicate Flat(text: string) {
    forall id | id in MarkerIds(text) :: !(OPEN <= id)
  }

  /** The first sentence closes the markers it opens. */
  predicate Calm(text: string) {
    Closed(FirstSentence(text))
  }

  ghost predicate Tidy(text: string) {
    Flat(text) && Calm(text)
  }

  /** A fold record takes its id from a message the way the reference scan would. */
  ghost predicate WellLinked(m: Message) {
    CcrIdOf(m).Some? ==> CcrIdOf(m).value in RefsOf(m)
  }

  // ----- fold ids -----

  /** The closing bracket is never found inside the opening one. */
  lemma CloseAfterOpen(s: string, start: nat)
    requires Find(s, OPEN) == start
    ensures start + |OPEN| <= |s|
    ensures var c, r := Find(s[start + |OPEN|..], CLOSE), Find(s[start..], CLOSE); r == if c < 0 then -1 else |OPEN| + c
  {
    hide Find, MatchesAt;
    FindFits(s, OPEN);
    Opened(s, start);
    var after := s[start + |OPEN|..];
    NoCloseInOpen(after);
    FindSkips(OPEN, after, CLOSE);
  }

  lemma NoCloseInOpen(after: string)
    ensures forall i: nat | i < |OPEN| :: !MatchesAt(OPEN + after, CLOSE, i)
  {
    forall i: nat | i < |OPEN|
      ensures !MatchesAt(OPEN + after, CLOSE, i)
    {
      CloseAt(OPEN + after, i);
    }
  }

  lemma CloseAt(s: string, i: nat)
    ensures MatchesAt(s, CLOSE, i) <==> i + 2 <= |s| && s[i] == '>' && s[i + 1] == '>'
  {
    assert MatchesAt(s, CLOSE, i) ==> s[i + 0] == CLOSE[0] && s[i + 1] == CLOSE[1];
  }

  lemma Opened(s: string, start: nat)
    requires MatchesAt(s, OPEN, start)
    ensures s[start..] == OPEN + s[start + |OPEN|..]
  {
    assert s[start + 0] == OPEN[0] && s[start + 1] == OPEN[1] && s[start + 2] == OPEN[2];
    assert s[start + 3] == OPEN[3] && s[start + 4] == OPEN[4] && s[start + 5] == OPEN[5];
  }

  lemma FirstMarkerId(s: string)
    ensures match ExtractMarker(s)
            case None => true
            case Some(marker) =>
              var start := Find(s, OPEN);
              && start >= 0 && start + |OPEN| <= |s|
              && var after := s[start + |OPEN|..];
                 var c := Find(after, CLOSE);
                 0 <= c <= |after| && marker == OPEN + after[..c] + CLOSE && after[..c] in MarkerIds(s)
  {
    var start := Find(s, OPEN);
    if start >= 0 {
      CloseAfterOpen(s, start);
      var rest, after := s[start..], s[start + |OPEN|..];
      var c := Find(after, CLOSE);
      FindFits(after, CLOSE);
      if c >= 0 {
        MarkerStep(s, start, c);
        MarkerText(s, start, c);
      }
    }
  }

  lemma MarkerText(s: string, start: nat, c: nat)
    requires MatchesAt(s, OPEN, start) && start + |OPEN| <= |s| && MatchesAt(s[start + |OPEN|..], CLOSE, c)
    ensures s[start..][..|OPEN| + c + |CLOSE|] == OPEN + s[start + |OPEN|..][..c] + CLOSE
  {
    var after := s[start + |OPEN|..];
    assert after[c + 0] == CLOSE[0] && after[c + 1] == CLOSE[1];
    assert s[start + 0] == OPEN[0] && s[start + 1] == OPEN[1] && s[start + 2] == OPEN[2];
    assert s[start + 3] == OPEN[3] && s[start + 4] == OPEN[4] && s[start + 5] == OPEN[5];
  }

  /** Trimming the brackets of a marker gives its id back, unless the id starts with an opening bracket. */
  lemma TrimmedMarker(id: string)
    requires !(OPEN <= id) && Find(id + CLOSE, CLOSE) == |id|
    ensures MarkerId(OPEN + id + CLOSE) == id
  {
    hide *;
    OpenAcross(id);
    EndsEarlier(id);
    OpenTrims(id + CLOSE);
    CloseTrims(id);
    MarkerIdIs(OPEN + id + CLOSE);
    assert OPEN + id + CLOSE == OPEN + (id + CLOSE);
  }

  lemma MarkerIdIs(marker: string)
    ensures MarkerId(marker) == TrimEnd(TrimStart(marker, OPEN), CLOSE)
  {
  }

  lemma OpenTrims(inner: string)
    requires !(OPEN <= inner)
    ensures TrimStart(OPEN + inner, OPEN) == inner
  {
    assert (OPEN + inner)[|OPEN|..] == inner;
    assert TrimStart(inner, OPEN) == inner;
  }

  lemma CloseTrims(id: string)
    requires |CLOSE| <= |id| ==> id[|id| - |CLOSE|..] != CLOSE
    ensures TrimEnd(id + CLOSE, CLOSE) == id
  {
    var inner := id + CLOSE;
    assert inner[|inner| - |CLOSE|..] == CLOSE && inner[..|inner| - |CLOSE|] == id;
    assert TrimEnd(id, CLOSE) == id;
  }

  lemma OpenAcross(id: string)
    requires !(OPEN <= id)
    ensures !(OPEN <= id + CLOSE)
  {
    if |OPEN| <= |id| {
      assert (id + CLOSE)[..|OPEN|] == id[..|OPEN|];
    } else if |OPEN| <= |id + CLOSE| {
      assert (id + CLOSE)[|id|] == CLOSE[0] != OPEN[|id|];
    }
  }

  lemma EndsEarlier(id: string)
    requires Find(id + CLOSE, CLOSE) == |id|
    ensures |CLOSE| <= |id| ==> id[|id| - |CLOSE|..] != CLOSE
  {
    if |CLOSE| <= |id| {
      var i := |id| - |CLOSE|;
      CloseAt(id + CLOSE, i);
      hide MatchesAt;
      assert id[i..] == [id[i], id[i + 1]];
    }
  }

  lemma FirstIdCloses(after: string, c: nat)
    requires Find(after, CLOSE) == c
    ensures c <= |after| && Find(after[..c] + CLOSE, CLOSE) == c
  {
    hide Find, MatchesAt;
    FindFits(after, CLOSE);
    var w := after[..c + 2];
    CloseAt(after, c);
    assert w == after[..c] + CLOSE && after == w + after[c + 2..];
    EndsWithClose(after[..c]);
    FindInPrefix(w, after[c + 2..], CLOSE);
  }

  lemma EndsWithClose(s: string)
    ensures Find(s + CLOSE, CLOSE) >= 0
  {
    CloseAt(s + CLOSE, |s|);
    hide MatchesAt;
  }

  lemma FlatIsLinked(m: Message)
    requires Flat(m.content)
    ensures WellLinked(m)
  {
    hide Find, MatchesAt, MarkerIds, ExtractMarker, MarkerId, Closed;
    FirstMarkerId(m.content);
    if CcrId !in m.metadata && ExtractMarker(m.content).Some? {
      var after := m.content[Find(m.content, OPEN) + |OPEN|..];
      FirstIdCloses(after, Find(after, CLOSE));
      TrimmedMarker(after[..Find(after, CLOSE)]);
    }
  }

  // ----- pushed texts -----

  /** A text without references whose first sentence opens no marker. */
  lemma QuietIsTidy(text: string)
    requires MarkerIds(text) == {} && !Contains(FirstSentence(text), OPEN)
    ensures Tidy(text)
  {
  }

  // ----- stubs -----

  lemma {:induction false} FirstSentenceStops(s: string)
    ensures var f := FirstSentence(s);
            && (forall i | 0 <= i < |f| :: !EndsSentence(f[i]))
            && (|f| < |s| ==> EndsSentence(s[|f|]))
  {
    if s != [] && !EndsSentence(s[0]) {
      FirstSentenceStops(s[1..]);
    }
  }

  /** A key that a marker can carry, inside a sentence. */
  ghost predicate KeyFits(id: string) {
    && Find(id + CLOSE, CLOSE) == |id| && !(OPEN <= id)
    && forall i | 0 <= i < |id| :: !EndsSentence(id[i])
  }

  lemma StubHead(tool: string, tokens: nat)
    requires !Contains(tool, OPEN)
    ensures !Contains("[tool:" + tool + Agent.StubMiddle(tokens), OPEN)
  {
    hide Find, MatchesAt, Agent.StubMiddle;
    var mid := Agent.StubMiddle(tokens);
    StubMiddlePlain(tokens);
    NoOpenInside(mid);
    BracketIsBarrier(mid);
    StubOpensNothing(tool);
    BoundaryFind("[tool:" + tool, mid, OPEN);
  }

  lemma StubOpensNothing(tool: string)
    requires !Contains(tool, OPEN)
    ensures !Contains("[tool:" + tool, OPEN)
  {
    var pre := "[tool:";
    forall i: nat | i < |pre|
      ensures !MatchesAt(pre + tool, OPEN, i)
    {
      assert (pre + tool)[i + 0] != OPEN[0];
    }
    FindSkips(pre, tool, OPEN);
  }

  lemma PrefixOpensNothing(f: string, s: string)
    requires f <= s && !Contains(s, OPEN)
    ensures Closed(f)
  {
    if Find(f, OPEN) >= 0 {
      assert s == f + s[|f|..];
      FindInPrefix(f, s[|f|..], OPEN);
    }
  }

  lemma EndingMarkerCloses(head: string, id: string)
    requires !Contains(head, OPEN) && Find(id + CLOSE, CLOSE) == |id|
    ensures Closed(head + OPEN + id + CLOSE)
  {
    hide Find, MatchesAt;
    var s := head + OPEN + id + CLOSE;
    FirstOpen(head, id + CLOSE);
    assert s == head + OPEN + (id + CLOSE);
    assert s[|head| + |OPEN|..] == id + CLOSE && (id + CLOSE)[|id| + |CLOSE|..] == [];
    ClosedStep(s, |head|, |id|);
    NothingContained();
  }

  lemma StubIsTidy(tool: string, tokens: nat, id: string)
    requires !Contains(tool, OPEN) && KeyFits(id)
    ensures Tidy(Agent.StubText(tool, tokens, id)) && MarkerIds(Agent.StubText(tool, tokens, id)) == {id}
  {
    hide Find, MatchesAt, MarkerIds, Closed, FirstSentence, Agent.StubMiddle;
    var head, s := "[tool:" + tool + Agent.StubMiddle(tokens), Agent.StubText(tool, tokens, id);
    StubHead(tool, tokens);
    NameOpensNothing(tool);
    StubReferencesIff(tool, tokens, id);
    FirstSentenceStops(s);
    var f := FirstSentence(s);
    if |f| <= |head| {
      assert f <= head;
      PrefixOpensNothing(f, head);
    } else {
      assert s == head + OPEN + id + CLOSE;
      SentenceRunsOn(head, id, |f|);
      assert f == s;
      EndingMarkerCloses(head, id);
    }
  }

  lemma NameOpensNothing(tool: string)
    requires !Contains(tool, OPEN)
    ensures Closed(tool) && MarkerIds(tool) == {}
  {
  }

  lemma SentenceRunsOn(head: string, id: string, k: nat)
    requires forall i | 0 <= i < |id| :: !EndsSentence(id[i])
    ensures var s := head + OPEN + id + CLOSE; |head| <= k < |s| ==> !EndsSentence(s[k])
  {
    var s := head + OPEN + id + CLOSE;
    if |head| <= k < |head| + |OPEN| {
      assert s[k] == OPEN[k - |head|];
    } else if |head| + |OPEN| + |id| <= k < |s| {
      assert s[k] == CLOSE[k - |head| - |OPEN| - |id|];
    }
  }

  // ----- summaries -----

  /** The byte cap does not fall inside a marker. */
  ghost predicate CutsCleanly(turns: seq<Message>) {
    var joined := Join(Parts(turns));
    ByteLength(joined) <= CAP || Closed(CutBytes(joined, CAP))
  }

  ghost predicate OneSentence(s: string) {
    forall i | 0 <= i < |s| :: !EndsSentence(s[i])
  }

  lemma OneSentenceIsFirst(s: string)
    requires OneSentence(s)
    ensures FirstSentence(s) == s
  {
    FirstSentenceStops(s);
  }

  lemma {:induction false} TrimLeftIsSuffix(s: string)
    ensures |TrimLeft(s)| <= |s| && TrimLeft(s) == s[|s| - |TrimLeft(s)|..]
  {
    if s != [] && IsSpace(s[0]) {
      TrimLeftIsSuffix(s[1..]);
    }
  }

  lemma PartIsOneSentence(content: string)
    ensures OneSentence(Part(content))
  {
    hide EndsSentence, FirstSentence, TrimLeft, TrimRight;
    FirstSentenceStops(content);
    TrimLeftIsSuffix(FirstSentence(content));
    var left := TrimLeft(FirstSentence(content));
    assert forall i | 0 <= i < |left| :: left[i] == FirstSentence(content)[|FirstSentence(content)| - |left| + i];
  }

  lemma {:induction false} JoinIsOneSentence(parts: seq<string>)
    requires forall p | p in parts :: OneSentence(p)
    ensures OneSentence(Join(parts))
  {
    if |parts| > 1 {
      JoinIsOneSentence(parts[1..]);
      assert parts[0] in parts;
    }
  }

  lemma SummaryIsOneSentence(turns: seq<Message>)
    ensures OneSentence(SummaryMessage(turns).content)
  {
    hide Part, OneSentence;
    PartsOf(turns);
    forall p | p in Parts(turns)
      ensures OneSentence(p)
    {
      var m :| m in turns && p == Part(m.content);
      PartIsOneSentence(m.content);
    }
    JoinIsOneSentence(Parts(turns));
    Framed(Join(Parts(turns)));
  }

  lemma Framed(joined: string)
    requires OneSentence(joined)
    ensures OneSentence("[Earlier conversation context]: " + joined)
    ensures OneSentence("[Earlier conversation context]: " + (CutBytes(joined, CAP) + "\U{2026}"))
  {
    hide CutBytes;
    var pre := "[Earlier conversation context]: ";
    assert OneSentence(pre);
    var cut := CutBytes(joined, CAP);
    assert cut <= joined;
    assert OneSentence(cut);
  }

  lemma CalmTurnsDoNotStraddle(turns: seq<Message>)
    requires forall m | m in turns :: Calm(m.content)
    ensures !Straddles(Parts(turns)) && forall i | 0 <= i < |Parts(turns)| :: Closed(Parts(turns)[i])
  {
    hide Part, Closed, MarkerIds, FirstSentence;
    var parts := Parts(turns);
    PartsOf(turns);
    forall i | 0 <= i < |parts|
      ensures Closed(parts[i])
    {
      assert parts[i] in parts;
      var m :| m in turns && parts[i] == Part(m.content);
      PartMarkers(m.content);
    }
  }

  /** However it is cut, the summary of tidy turns is flat and references only what the turns did; it is
      tidy if and only if the byte cap spares its markers. */
  lemma SummaryIsTidyIff(turns: seq<Message>)
    requires forall m | m in turns :: Tidy(m.content)
    ensures Flat(SummaryMessage(turns).content)
    ensures RefsOf(SummaryMessage(turns)) <= ReferencedIds(turns)
    ensures Tidy(SummaryMessage(turns).content) <==> CutsCleanly(turns)
  {
    CalmTurnsDoNotStraddle(turns);
    SummaryReferencesItsTurns(turns);
    SummaryIsOneSentence(turns);
    OneSentenceIsFirst(SummaryMessage(turns).content);
    SummaryIsClosedIff(turns);
    hide Closed, MarkerIds, FirstSentence, Summarise, Parts, PartIds, Straddles, CutsCleanly, OneSentence;
    SummaryPrefix(Summarise(turns));
    SummaryIdsArePartIds(turns);
    forall id | id in MarkerIds(Summarise(turns))
      ensures !(OPEN <= id)
    {
      PartIdsComeFromTurns(turns, id);
      var m :| m in turns && id in MarkerIds(m.content);
      assert Tidy(m.content);
    }
  }

  lemma SummaryIsClosedIff(turns: seq<Message>)
    requires !Straddles(Parts(turns)) && forall i | 0 <= i < |Parts(turns)| :: Closed(Parts(turns)[i])
    ensures Closed(Summarise(turns)) <==> CutsCleanly(turns)
  {
    hide Closed, Straddles, Parts;
    JoinedMarkers(Parts(turns));
    CutMarkers(Join(Parts(turns)));
  }
}
