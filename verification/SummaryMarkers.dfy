/** The markers that survive into the extractive summary, and when it makes up new ones. */
module SummaryMarkers {
  import opened Messages
  import opened Summaries
  import opened Conversation
  import opened Markers
  import opened MarkerScans

  // ----- first sentences and their trimming -----

  lemma {:induction false} TrimLeftMarkers(s: string)
    ensures MarkerIds(TrimLeft(s)) == MarkerIds(s) && (Closed(TrimLeft(s)) <==> Closed(s))
  {
    if s != [] && IsSpace(s[0]) {
      TrimLeftMarkers(s[1..]);
      assert s == [s[0]] + s[1..];
      assert !MatchesAt([s[0]] + s[1..], OPEN, 0) by {
        assert s[0 + 0] != OPEN[0];
      }
      SkipPrefix([s[0]], s[1..]);
    }
  }

  /** A character that ends no bracket can be put at the end of a text. */
  lemma AppendHarmless(s: string, c: char)
    requires c !in OPEN && c !in CLOSE
    ensures MarkerIds(s + [c]) == MarkerIds(s) && (Closed(s + [c]) <==> Closed(s))
  {
    NoBracketIn([c]);
    if Closed(s) {
      JoinMarkers(s, [c]);
      UnclosedHasNoMarkers([c]);
    } else {
      JoinDangling(s, [c]);
    }
  }

  lemma NoBracketIn(s: string)
    requires |s| == 1
    ensures Find(s, OPEN) < 0 && Find(s, CLOSE) < 0 && Closed(s)
  {
  }

  lemma SpaceIsHarmless(c: char)
    requires IsSpace(c)
    ensures c !in OPEN && c !in CLOSE
  {
  }

  lemma {:induction false} TrimRightMarkers(s: string)
    ensures MarkerIds(TrimRight(s)) == MarkerIds(s) && (Closed(TrimRight(s)) <==> Closed(s))
  {
    hide MarkerIds, Closed;
    if s != [] && IsSpace(s[|s| - 1]) {
      var init := s[..|s| - 1];
      TrimRightMarkers(init);
      SpaceIsHarmless(s[|s| - 1]);
      AppendHarmless(init, s[|s| - 1]);
      assert s == init + [s[|s| - 1]];
    }
  }

  /** A part references nothing its turn does not, and is closed when the first sentence is. */
  lemma PartMarkers(content: string)
    ensures MarkerIds(Part(content)) <= MarkerIds(content)
    ensures Closed(Part(content)) <==> Closed(FirstSentence(content))
  {
    hide MarkerIds, Closed, TrimLeft, TrimRight;
    var first := FirstSentence(content);
    PrefixOf(first, content);
    TrimLeftMarkers(first);
    TrimRightMarkers(TrimLeft(first));
  }

  // ----- joining parts -----

  /** An unclosed part comes before one with a closing bracket. */
  ghost predicate Straddles(parts: seq<string>) {
    exists i, j :: 0 <= i < j < |parts| && !Closed(parts[i]) && Contains(parts[j], CLOSE)
  }

  function PartIds(parts: seq<string>): set<string> {
    set i, id | 0 <= i < |parts| && id in MarkerIds(parts[i]) :: id
  }

  lemma PartIdsCons(parts: seq<string>)
    requires parts != []
    ensures PartIds(parts) == MarkerIds(parts[0]) + PartIds(parts[1..])
  {
    hide MarkerIds;
    forall id
      ensures id in PartIds(parts) <==> id in MarkerIds(parts[0]) + PartIds(parts[1..])
    {
      if i :| 0 <= i < |parts| && id in MarkerIds(parts[i]) && i > 0 {
        assert parts[1..][i - 1] == parts[i];
      }
      if i :| 0 <= i < |parts[1..]| && id in MarkerIds(parts[1..][i]) {
        assert parts[i + 1] == parts[1..][i];
      }
    }
  }

  lemma SeparatorMarkers(rest: string)
    ensures Barrier(" | " + rest)
    ensures MarkerIds(" | " + rest) == MarkerIds(rest) && (Closed(" | " + rest) <==> Closed(rest))
    ensures Find(" | " + rest, CLOSE) == if Find(rest, CLOSE) < 0 then -1 else 3 + Find(rest, CLOSE)
  {
    hide *;
    SeparatorIsBarrier(rest);
    SeparatorSkips(rest, OPEN);
    SeparatorSkips(rest, CLOSE);
    SkipPrefix(" | ", rest);
    FindSkips(" | ", rest, CLOSE);
  }

  lemma SeparatorIsBarrier(rest: string)
    ensures Barrier(" | " + rest)
  {
  }

  lemma SeparatorSkips(rest: string, p: string)
    requires p == OPEN || p == CLOSE
    ensures forall i: nat | i < |" | "| :: !MatchesAt(" | " + rest, p, i)
  {
    var sep := " | ";
    forall i: nat | i < 3
      ensures !MatchesAt(sep + rest, p, i)
    {
      assert (sep + rest)[i + 0] == sep[i] != p[0];
    }
  }

  /** Where a closing bracket of the joined text comes from. */
  lemma {:induction false} JoinedCloses(parts: seq<string>)
    ensures Contains(Join(parts), CLOSE) <==> exists j :: 0 <= j < |parts| && Contains(parts[j], CLOSE)
  {
    hide Find;
    if parts == [] {
      NothingContained();
    } else if |parts| == 1 {
      assert Join(parts) == parts[0];
    } else {
      var a, rest := parts[0], Join(parts[1..]);
      JoinedCloses(parts[1..]);
      SeparatorMarkers(rest);
      assert a + " | " + rest == a + (" | " + rest);
      if Contains(a, CLOSE) {
        FindInPrefix(a, " | " + rest, CLOSE);
      } else {
        BoundaryFind(a, " | " + rest, CLOSE);
        assert forall j | 0 < j < |parts| :: parts[j] == parts[1..][j - 1];
        assert forall j | 0 <= j < |parts[1..]| :: parts[1..][j] == parts[j + 1];
      }
    }
  }

  lemma NothingContained()
    ensures !Contains([], CLOSE) && MarkerIds([]) == {} && Closed([])
  {
  }

  lemma StraddlesCons(parts: seq<string>)
    requires parts != []
    ensures Straddles(parts) <==>
            Straddles(parts[1..]) || (!Closed(parts[0]) && exists j :: 0 < j < |parts| && Contains(parts[j], CLOSE))
  {
    hide Closed, Contains;
    var rest := parts[1..];
    if i, j :| 0 <= i < j < |parts| && !Closed(parts[i]) && Contains(parts[j], CLOSE) && i > 0 {
      assert rest[i - 1] == parts[i] && rest[j - 1] == parts[j];
    }
    if i, j :| 0 <= i < j < |rest| && !Closed(rest[i]) && Contains(rest[j], CLOSE) {
      assert parts[i + 1] == rest[i] && parts[j + 1] == rest[j];
    }
  }

  /** Without straddling, the joined text references exactly what its parts reference. */
  lemma {:induction false} JoinedMarkers(parts: seq<string>)
    requires !Straddles(parts)
    ensures MarkerIds(Join(parts)) <= PartIds(parts)
    ensures (forall i | 0 <= i < |parts| :: Closed(parts[i])) ==> Closed(Join(parts))
  {
    hide MarkerIds, Closed, Contains, Straddles, Barrier;
    if parts == [] {
      NothingContained();
    } else if |parts| == 1 {
      PartIdsCons(parts);
      assert Join(parts) == parts[0];
    } else {
      var a, rest := parts[0], Join(parts[1..]);
      PartIdsCons(parts);
      StraddlesCons(parts);
      JoinedMarkers(parts[1..]);
      JoinedCloses(parts[1..]);
      SeparatorMarkers(rest);
      assert a + " | " + rest == a + (" | " + rest);
      if Closed(a) {
        JoinMarkers(a, " | " + rest);
      } else {
        NoLaterClose(parts);
        JoinDangling(a, " | " + rest);
      }
    }
  }

  lemma NoLaterClose(parts: seq<string>)
    requires |parts| > 1 && !Straddles(parts) && !Closed(parts[0])
    ensures Find(Join(parts[1..]), CLOSE) < 0
  {
    hide Closed, Find;
    JoinedCloses(parts[1..]);
    assert forall j | 0 <= j < |parts[1..]| :: parts[1..][j] == parts[j + 1];
  }

  /** With straddling, the joined text has a marker that runs across a separator. */
  lemma {:induction false} StraddlingForges(parts: seq<string>) returns (id: string)
    requires Straddles(parts)
    ensures id in MarkerIds(Join(parts)) && Contains(id, " | ")
  {
    hide MarkerIds, Closed, Contains, Straddles, Barrier;
    StraddlesSize(parts);
    var a, rest := parts[0], Join(parts[1..]);
    StraddlesCons(parts);
    SeparatorMarkers(rest);
    assert a + " | " + rest == a + (" | " + rest);
    if Closed(a) {
      id := StraddlingForges(parts[1..]);
      JoinMarkers(a, " | " + rest);
    } else {
      LaterClose(parts);
      id := ForgedAcross(a, rest);
    }
  }

  lemma ForgedAcross(a: string, rest: string) returns (id: string)
    requires !Closed(a) && Find(rest, CLOSE) >= 0
    ensures id in MarkerIds(a + (" | " + rest)) && Contains(id, " | ")
  {
    hide MarkerIds, Closed, Contains, Barrier, Find;
    SeparatorMarkers(rest);
    FindFits(rest, CLOSE);
    var tail := JoinUnclosed(a, " | " + rest);
    var inside := rest[..Find(rest, CLOSE)];
    id := tail + " | " + inside;
    assert tail + (" | " + rest)[..3 + Find(rest, CLOSE)] == id;
    InTheMiddle(tail, " | ", inside);
  }

  lemma StraddlesSize(parts: seq<string>)
    requires Straddles(parts)
    ensures |parts| > 1
  {
  }

  lemma LaterClose(parts: seq<string>)
    requires |parts| > 1 && Straddles(parts) && !Closed(parts[0])
    ensures Find(Join(parts[1..]), CLOSE) >= 0
  {
    hide Closed, Find;
    var i, j :| 0 <= i < j < |parts| && !Closed(parts[i]) && Contains(parts[j], CLOSE);
    JoinedCloses(parts[1..]);
    assert parts[1..][j - 1] == parts[j];
  }

  lemma InTheMiddle(a: string, b: string, c: string)
    ensures Contains(a + b + c, b)
  {
    var s := a + b + c;
    assert MatchesAt(s, b, |a|);
  }

  // ----- the summary of turns -----

  lemma {:induction false} PartsOf(turns: seq<Message>)
    ensures forall p | p in Parts(turns) :: exists m :: m in turns && p == Part(m.content)
  {
    hide Part;
    if turns != [] {
      var init := turns[..|turns| - 1];
      PartsOf(init);
      forall p | p in Parts(turns)
        ensures exists m :: m in turns && p == Part(m.content)
      {
        if p in Parts(init) {
          var m :| m in init && p == Part(m.content);
          assert m in turns;
        } else {
          assert turns[|turns| - 1] in turns;
        }
      }
    }
  }

  lemma PartIdsComeFromTurns(turns: seq<Message>, id: string)
    requires id in PartIds(Parts(turns))
    ensures exists m :: m in turns && id in MarkerIds(m.content)
  {
    hide MarkerIds, Part;
    var parts := Parts(turns);
    PartsOf(turns);
    var i :| 0 <= i < |parts| && id in MarkerIds(parts[i]);
    assert parts[i] in parts;
    var m :| m in turns && parts[i] == Part(m.content);
    PartMarkers(m.content);
  }

  lemma PartIdsAreReferenced(turns: seq<Message>)
    ensures PartIds(Parts(turns)) <= ReferencedIds(turns)
  {
    hide MarkerIds, PartIds;
    forall id | id in PartIds(Parts(turns))
      ensures id in ReferencedIds(turns)
    {
      PartIdsComeFromTurns(turns, id);
      var m :| m in turns && id in MarkerIds(m.content);
      assert id in RefsOf(m);
    }
  }

  lemma SummaryIdsArePartIds(turns: seq<Message>)
    requires !Straddles(Parts(turns))
    ensures MarkerIds(Summarise(turns)) <= PartIds(Parts(turns))
  {
    hide MarkerIds, Straddles, Parts, PartIds;
    JoinedMarkers(Parts(turns));
    CutMarkers(Join(Parts(turns)));
  }

  /** A summary whose parts do not straddle references only ids its turns referenced, truncated or not. */
  lemma SummaryReferencesItsTurns(turns: seq<Message>)
    requires !Straddles(Parts(turns))
    ensures MarkerIds(Summarise(turns)) <= ReferencedIds(turns)
    ensures RefsOf(SummaryMessage(turns)) == MarkerIds(Summarise(turns))
  {
    hide MarkerIds, Straddles, Parts, PartIds, Summarise;
    SummaryIdsArePartIds(turns);
    PartIdsAreReferenced(turns);
    SummaryPrefix(Summarise(turns));
  }

  lemma CutMarkers(joined: string)
    ensures MarkerIds(CutBytes(joined, CAP) + "\U{2026}") <= MarkerIds(joined)
    ensures Closed(CutBytes(joined, CAP) + "\U{2026}") <==> Closed(CutBytes(joined, CAP))
  {
    PrefixOf(CutBytes(joined, CAP), joined);
    AppendHarmless(CutBytes(joined, CAP), '\U{2026}');
  }

  lemma SummaryPrefix(text: string)
    ensures MarkerIds("[Earlier conversation context]: " + text) == MarkerIds(text)
    ensures Closed("[Earlier conversation context]: " + text) <==> Closed(text)
  {
    var pre := "[Earlier conversation context]: ";
    assert '<' !in pre;
    forall i: nat | i < |pre|
      ensures !MatchesAt(pre + text, OPEN, i)
    {
      assert pre[i] in pre;
      assert (pre + text)[i + 0] != OPEN[0];
    }
    SkipPrefix(pre, text);
  }

  // ----- the summary as it is cut -----

  /** The parts that the first `n` characters of the joined text show, the last one possibly shortened. */
  function Crop(parts: seq<string>, n: nat): seq<string> {
    if parts == [] then []
    else if n < |parts[0]| then [parts[0][..n]]
    else if |parts| == 1 || n <= |parts[0]| + 3 then [parts[0]]
    else [parts[0]] + Crop(parts[1..], n - |parts[0]| - 3)
  }

  /** The parts as the summary shows them. */
  function ShownParts(turns: seq<Message>): seq<string> {
    var parts := Parts(turns);
    if ByteLength(Join(parts)) > CAP then Crop(parts, |CutBytes(Join(parts), CAP)|) else parts
  }

  /** A prefix of the joined text joins the cropped parts, up to a piece of a separator at its end. */
  lemma {:induction false} CropJoins(parts: seq<string>, n: nat) returns (pad: string)
    requires n <= |Join(parts)|
    ensures Join(parts)[..n] == Join(Crop(parts, n)) + pad && pad <= " | "
  {
    var sep := " | ";
    if parts == [] || n < |parts[0]| {
      pad := "";
      assert parts != [] ==> Join(parts)[..n] == parts[0][..n];
      assert Join(Crop(parts, n)) + pad == Join(parts)[..n];
    } else if |parts| == 1 {
      pad := "";
      assert Join(parts)[..n] == parts[0] + pad;
    } else if n <= |parts[0]| + 3 {
      pad := sep[..n - |parts[0]|];
      JoinFirst(parts);
      assert Join(parts)[..n] == parts[0] + pad;
    } else {
      var m := n - |parts[0]| - 3;
      JoinFirst(parts);
      pad := CropJoins(parts[1..], m);
      CropNonempty(parts[1..], m);
      var rest := Crop(parts[1..], m);
      JoinFirst([parts[0]] + rest);
      assert ([parts[0]] + rest)[1..] == rest;
      assert Join(parts)[..n] == parts[0] + sep + Join(parts[1..])[..m];
      assert parts[0] + sep + (Join(rest) + pad) == (parts[0] + sep + Join(rest)) + pad;
    }
  }

  lemma JoinFirst(parts: seq<string>)
    requires |parts| > 1
    ensures Join(parts) == parts[0] + " | " + Join(parts[1..])
  {
  }

  lemma CropNonempty(parts: seq<string>, n: nat)
    requires parts != []
    ensures Crop(parts, n) != []
  {
  }

  lemma {:induction false} PadHarmless(s: string, pad: string)
    requires forall i | 0 <= i < |pad| :: pad[i] !in OPEN && pad[i] !in CLOSE
    ensures MarkerIds(s + pad) == MarkerIds(s) && (Closed(s + pad) <==> Closed(s))
  {
    hide MarkerIds, Closed;
    if pad == [] {
      assert s + pad == s;
    } else {
      var init, last := pad[..|pad| - 1], pad[|pad| - 1];
      PadHarmless(s, init);
      AppendHarmless(s + init, last);
      assert s + pad == (s + init) + [last];
    }
  }

  /** The summary references what its shown parts reference when joined. */
  lemma SummaryShowsParts(turns: seq<Message>)
    ensures MarkerIds(Summarise(turns)) == MarkerIds(Join(ShownParts(turns)))
  {
    hide MarkerIds, Closed, Crop, Parts, Join;
    var parts := Parts(turns);
    var joined := Join(parts);
    if ByteLength(joined) > CAP {
      var cut := CutBytes(joined, CAP);
      var pad := CropJoins(parts, |cut|);
      assert cut == joined[..|cut|];
      assert forall i | 0 <= i < |pad| :: pad[i] == " | "[i];
      PadHarmless(Join(Crop(parts, |cut|)), pad);
      AppendHarmless(cut, '\U{2026}');
    }
  }

  lemma {:induction false} CropReferencesLess(parts: seq<string>, n: nat)
    ensures PartIds(Crop(parts, n)) <= PartIds(parts)
  {
    hide MarkerIds;
    if parts != [] {
      PartIdsCons(parts);
      if n < |parts[0]| {
        PrefixOf(parts[0][..n], parts[0]);
        PartIdsCons([parts[0][..n]]);
        assert [parts[0][..n]][1..] == [];
      } else if |parts| == 1 || n <= |parts[0]| + 3 {
        PartIdsCons([parts[0]]);
        assert [parts[0]][1..] == [];
      } else {
        CropReferencesLess(parts[1..], n - |parts[0]| - 3);
        PartIdsCons(Crop(parts, n));
        assert Crop(parts, n)[1..] == Crop(parts[1..], n - |parts[0]| - 3);
      }
    }
  }

  /** A summary, cut or not, references an id that none of its turns referenced if and only if, among the
      parts it shows, one that leaves a marker open comes before one with a closing bracket. Ids never
      contain the separator. */
  lemma SummaryForgesIff(turns: seq<Message>)
    requires forall id | id in ReferencedIds(turns) :: !Contains(id, " | ")
    ensures MarkerIds(Summarise(turns)) <= ReferencedIds(turns) <==> !Straddles(ShownParts(turns))
  {
    hide MarkerIds, Straddles, PartIds, ReferencedIds, Contains, Summarise, Join, Crop, Parts;
    SummaryShowsParts(turns);
    if Straddles(ShownParts(turns)) {
      var id := StraddlingForges(ShownParts(turns));
    } else {
      JoinedMarkers(ShownParts(turns));
      PartIdsAreReferenced(turns);
      CropReferencesLess(Parts(turns), |CutBytes(Join(Parts(turns)), CAP)|);
    }
  }

  /** It happens: two turns without references join into one. */
  lemma SummaryMayForgeAReference(turns: seq<Message>)
    requires |turns| == 2 && turns[0].content == "<<ccr:a" && turns[1].content == "b>>"
    requires forall m | m in turns :: m.metadata == map[]
    ensures ReferencedIds(turns) == {}
    ensures "a | b" in MarkerIds(Summarise(turns))
  {
    hide MarkerIds, Summarise;
    ForgedParts(turns);
    HalvesReferenceNothing();
    ForgedText();
    assert forall m | m in turns :: RefsOf(m) == {};
  }

  lemma ForgedParts(turns: seq<Message>)
    requires |turns| == 2 && turns[0].content == "<<ccr:a" && turns[1].content == "b>>"
    ensures Summarise(turns) == "<<ccr:a | b>>"
  {
    hide Part, ByteLength, EndsSentence, IsSpace;
    Whole("<<ccr:a");
    Whole("b>>");
    TwoParts(turns);
    SmallText("<<ccr:a | b>>");
    assert ["<<ccr:a", "b>>"][1..] == ["b>>"] && Join(["b>>"]) == "b>>";
    assert "<<ccr:a" + " | " + "b>>" == "<<ccr:a | b>>";
  }

  lemma TwoParts(turns: seq<Message>)
    requires |turns| == 2 && Part(turns[0].content) != [] && Part(turns[1].content) != []
    ensures Parts(turns) == [Part(turns[0].content), Part(turns[1].content)]
  {
    hide Part;
    assert turns[..1][..0] == [] && turns[..1][0] == turns[0];
    assert Parts(turns[..1]) == [Part(turns[0].content)];
  }

  /** A text without sentence ends or spaces is its own part. */
  lemma Whole(s: string)
    requires forall i | 0 <= i < |s| :: '0' <= s[i] <= 'z' && s[i] != '?'
    ensures Part(s) == s
  {
    WholeSentence(s);
  }

  lemma {:induction false} WholeSentence(s: string)
    requires forall i | 0 <= i < |s| :: !EndsSentence(s[i])
    ensures FirstSentence(s) == s
  {
    if s != [] {
      WholeSentence(s[1..]);
    }
  }

  lemma {:induction false} SmallText(s: string)
    ensures ByteLength(s) <= 4 * |s|
  {
    if s != [] {
      SmallText(s[1..]);
    }
  }

  lemma HalvesReferenceNothing()
    ensures MarkerIds("<<ccr:a") == {} && MarkerIds("b>>") == {}
  {
    var half := "<<ccr:a";
    FindIs(half, OPEN, 0);
    assert half[6..] == "a";
    assert forall j: nat :: !MatchesAt("a", CLOSE, j);
    forall j: nat
      ensures !MatchesAt("b>>", OPEN, j)
    {
    }
  }

  lemma ForgedText()
    ensures "a | b" in MarkerIds("<<ccr:a | b>>")
  {
    var s := "<<ccr:a | b>>";
    FindIs(s, OPEN, 0);
    var after := s[6..];
    assert after == "a | b>>";
    forall j: nat | j < 5
      ensures !MatchesAt(after, CLOSE, j)
    {
      assert after[j + 0] != CLOSE[0];
    }
    FindIs(after, CLOSE, 5);
    assert after[..5] == "a | b";
    MarkerStep(s, 0, 5);
  }
}
