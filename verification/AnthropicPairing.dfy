/** Tool calls and their answers in the rendered turns. */
module AnthropicPairing {
  import opened Naturals
  import opened AnthropicRender

  // ----- segments -----

  /** Segments are non-empty, contiguous in the non-system messages, and alternate sides. */
  ghost predicate WellSegmented(ms: seq<RichMessage>, segs: seq<Segment>) {
    && AllInRange(segs, |ms|)
    && (forall k | 0 <= k < |segs| :: segs[k].msgs != [])
    && (forall k | 0 <= k < |segs| - 1 :: segs[k].side != segs[k + 1].side)
  }

  lemma {:induction false} SegmentsAlternate(ms: seq<RichMessage>, n: nat)
    requires n <= |ms|
    ensures WellSegmented(ms, Segments(ms, n))
  {
    if n > 0 {
      SegmentsAlternate(ms, n - 1);
      SegmentsInRange(ms, n);
    }
  }

  // ----- native tool blocks -----

  function NativeUses(blocks: seq<Placed>): set<string> {
    set p | p in blocks && p.block.OutToolUse? :: p.block.id
  }

  function NativeResults(blocks: seq<Placed>): set<string> {
    set p | p in blocks && p.block.OutToolResult? :: p.block.id
  }

  lemma NativesConcat(a: seq<Placed>, b: seq<Placed>)
    ensures NativeUses(a + b) == NativeUses(a) + NativeUses(b)
    ensures NativeResults(a + b) == NativeResults(a) + NativeResults(b)
  {
  }

  lemma MarkLastNatives(blocks: seq<Placed>, cache: bool)
    ensures NativeUses(MarkLast(blocks, cache)) == NativeUses(blocks)
    ensures NativeResults(MarkLast(blocks, cache)) == NativeResults(blocks)
  {
    if cache && blocks != [] {
      var init, last := blocks[..|blocks| - 1], blocks[|blocks| - 1];
      assert blocks == init + [last] && MarkLast(blocks, cache) == init + [last.(cache := true)];
      NativesConcat(init, [last]);
      NativesConcat(init, [last.(cache := true)]);
    }
  }

  lemma AssistantNatives(ss: seq<Source>, answered: set<string>)
    ensures NativeUses(AssistantBlocks(ss, answered)) == UseIds(ss) * answered
    ensures NativeResults(AssistantBlocks(ss, answered)) == {}
  {
    var out := AssistantBlocks(ss, answered);
    forall id
      ensures id in NativeUses(out) <==> id in UseIds(ss) * answered
    {
      if id in NativeUses(out) {
        var p :| p in out && p.block.OutToolUse? && p.block.id == id;
        var k :| 0 <= k < |out| && out[k] == p;
        assert ss[k] in ss;
      }
      if id in UseIds(ss) * answered {
        var s :| s in ss && s.block.ToolUse? && s.block.id == id;
        var k :| 0 <= k < |ss| && ss[k] == s;
        assert out[k] in out;
      }
    }
    forall p | p in out
      ensures !p.block.OutToolResult?
    {
      var k :| 0 <= k < |out| && out[k] == p;
    }
  }

  lemma {:induction false} UserNatives(ss: seq<Source>, pending: set<string>)
    ensures var r := UserSplit(ss, pending);
            && r.pending == pending - ResultIds(ss)
            && NativeResults(r.results) == pending * ResultIds(ss)
            && NativeUses(r.results) == {} && NativeUses(r.others) == {} && NativeResults(r.others) == {}
            && (forall p | p in r.results :: p.block.OutToolResult?)
            && (forall p | p in r.others :: !p.block.OutToolResult?)
            && (forall i, j | 0 <= i < j < |r.results| :: r.results[i].block != r.results[j].block && ResultId(r.results[i]) != ResultId(r.results[j]))
  {
    hide RenderNested, ToolResultText;
    if ss != [] {
      var init, s := ss[..|ss| - 1], ss[|ss| - 1];
      UserNatives(init, pending);
      assert ss == init + [s];
      ResultIdsSnoc(init, s);
      var before := UserSplit(init, pending);
      var placed := Placed(s.origin, s.index, if s.block.ToolResult? && s.block.id in before.pending then RenderBlock(s.block) else OtherBlock(s.block), false);
      NativesConcat(before.results, [placed]);
      NativesConcat(before.others, [placed]);
      if s.block.ToolResult? && s.block.id in before.pending {
        forall i | 0 <= i < |before.results|
          ensures ResultId(before.results[i]) != s.block.id
        {
          assert before.results[i] in before.results;
          assert ResultId(before.results[i]) in NativeResults(before.results);
        }
      }
    }
  }

  function ResultId(p: Placed): string {
    if p.block.OutToolResult? then p.block.id else ""
  }

  /** Native calls of an assistant segment are those the next segment answers; native results of a user
      segment are those answering the previous segment. */
  lemma SegmentNatives(ms: seq<RichMessage>, segs: seq<Segment>, i: nat)
    requires AllInRange(segs, |ms|) && i < |segs|
    ensures var out := SegmentBlocks(ms, segs, i);
            if segs[i].side == AssistantSide then
              NativeUses(out) == SegmentUseIds(ms, segs, i) * SegmentResultIds(ms, segs, i + 1) && NativeResults(out) == {}
            else
              NativeResults(out) == SegmentUseIds(ms, segs, i - 1) * SegmentResultIds(ms, segs, i) && NativeUses(out) == {}
  {
    hide AssistantBlocks, UserSplit, MarkLast, ResultIds, UseIds, NativeUses, NativeResults, SegmentSources;
    assert AllBelow(segs[i].msgs, |ms|);
    var ss := SegmentSources(ms, segs[i].msgs);
    if segs[i].side == AssistantSide {
      var answered := SegmentResultIds(ms, segs, i + 1);
      AssistantNatives(ss, answered);
      MarkLastNatives(AssistantBlocks(ss, answered), segs[i].cache);
    } else {
      var pending := SegmentUseIds(ms, segs, i - 1);
      UserNatives(ss, pending);
      var r := UserSplit(ss, pending);
      NativesConcat(r.results, r.others);
      MarkLastNatives(UserBlocks(ss, pending), segs[i].cache);
    }
  }

  /** A segment that renders to nothing has no tool blocks at all. */
  lemma EmptySegment(ms: seq<RichMessage>, segs: seq<Segment>, i: nat)
    requires AllInRange(segs, |ms|) && i < |segs| && SegmentBlocks(ms, segs, i) == []
    ensures SegmentUseIds(ms, segs, i) == {} && SegmentResultIds(ms, segs, i) == {}
  {
    assert AllBelow(segs[i].msgs, |ms|);
    var ss := SegmentSources(ms, segs[i].msgs);
    UserSplitSize(ss, SegmentUseIds(ms, segs, i - 1));
    assert ss == [];
  }

  lemma {:induction false} UserSplitSize(ss: seq<Source>, pending: set<string>)
    ensures |UserSplit(ss, pending).results| + |UserSplit(ss, pending).others| == |ss|
  {
    if ss != [] {
      UserSplitSize(ss[..|ss| - 1], pending);
    }
  }

  // ----- pairing in the turns -----

  function UsesAt(turns: seq<Turn>, k: int): set<string> {
    if 0 <= k < |turns| && turns[k].side == AssistantSide then NativeUses(turns[k].content) else {}
  }

  function ResultsAt(turns: seq<Turn>, k: int): set<string> {
    if 0 <= k < |turns| && turns[k].side == UserSide then NativeResults(turns[k].content) else {}
  }

  /** Turns alternate, native tool blocks sit on their own side, and every turn but the last is paired. */
  ghost predicate PairedSoFar(turns: seq<Turn>) {
    && (forall k | 0 <= k < |turns| - 1 :: turns[k].side != turns[k + 1].side)
    && (forall k | 0 <= k < |turns| :: turns[k].content != [])
    && (forall k | 0 <= k < |turns| :: if turns[k].side == AssistantSide then NativeResults(turns[k].content) == {} else NativeUses(turns[k].content) == {})
    && (forall k | 0 <= k < |turns| :: AnsweredAt(turns, k))
  }

  /** A user turn answers exactly the calls of the turn before it. */
  ghost predicate AnsweredAt(turns: seq<Turn>, k: nat)
    requires k < |turns|
  {
    turns[k].side == UserSide ==> NativeResults(turns[k].content) == UsesAt(turns, k - 1)
  }

  /** Native calls of the last turn that still wait for an answer. */
  function OpenUses(turns: seq<Turn>): set<string> {
    UsesAt(turns, |turns| - 1)
  }

  lemma PushPaired(turns: seq<Turn>, side: Side, blocks: seq<Placed>)
    requires PairedSoFar(turns) && blocks != []
    requires if side == AssistantSide then NativeResults(blocks) == {} else NativeUses(blocks) == {}
    requires side == UserSide ==> NativeResults(blocks) == OpenUses(turns)
    ensures PairedSoFar(PushTurn(turns, side, blocks))
    ensures OpenUses(PushTurn(turns, side, blocks)) ==
            if side == UserSide then {} else OpenUses(turns) + NativeUses(blocks)
  {
    hide NativeUses, NativeResults;
    var out := PushTurn(turns, side, blocks);
    if turns != [] && turns[|turns| - 1].side == side {
      NativesConcat(turns[|turns| - 1].content, blocks);
      forall k | 0 <= k < |out|
        ensures AnsweredAt(out, k)
      {
        assert AnsweredAt(turns, k);
        assert UsesAt(out, k - 1) == UsesAt(turns, k - 1);
      }
    } else {
      forall k | 0 <= k < |out|
        ensures AnsweredAt(out, k)
      {
        assert UsesAt(out, k - 1) == UsesAt(turns, k - 1);
        if k < |turns| {
          assert AnsweredAt(turns, k);
        }
      }
    }
  }

  /** While segments are processed: what waits for an answer is what the last segment, if it is an
      assistant one, will have answered by the next. */
  lemma {:induction false} TurnsPaired(ms: seq<RichMessage>, segs: seq<Segment>, n: nat)
    requires WellSegmented(ms, segs) && n <= |segs|
    ensures PairedSoFar(Turns(ms, segs, n))
    ensures OpenUses(Turns(ms, segs, n)) == SegmentUseIds(ms, segs, n - 1) * SegmentResultIds(ms, segs, n)
  {
    hide SegmentBlocks, SegmentUseIds, SegmentResultIds, PushTurn, PairedSoFar;
    if n == 0 {
      NothingYet(ms, segs);
    } else {
      TurnsPaired(ms, segs, n - 1);
      SegmentNatives(ms, segs, n - 1);
      SideFacts(ms, segs, n - 1);
      var before, blocks := Turns(ms, segs, n - 1), SegmentBlocks(ms, segs, n - 1);
      if blocks == [] {
        EmptySegment(ms, segs, n - 1);
      } else {
        PushPaired(before, segs[n - 1].side, blocks);
      }
    }
  }

  lemma NothingYet(ms: seq<RichMessage>, segs: seq<Segment>)
    requires WellSegmented(ms, segs)
    ensures PairedSoFar([]) && OpenUses([]) == {} && SegmentUseIds(ms, segs, -1) == {}
  {
  }

  lemma SideFacts(ms: seq<RichMessage>, segs: seq<Segment>, i: nat)
    requires WellSegmented(ms, segs) && i < |segs|
    ensures segs[i].side == AssistantSide ==> SegmentResultIds(ms, segs, i) == {} && SegmentUseIds(ms, segs, i - 1) == {}
    ensures segs[i].side == UserSide ==> SegmentUseIds(ms, segs, i) == {} && SegmentResultIds(ms, segs, i + 1) == {}
  {
    if i > 0 {
      assert segs[i - 1].side != segs[i - 1 + 1].side;
    }
    if i + 1 < |segs| {
      assert segs[i].side != segs[i + 1].side;
    }
  }

  /** In the rendered turns, sides alternate, and the native tool calls of each assistant turn are exactly
      the native tool results of the next turn (none when there is no next turn); a user turn without an
      assistant turn before it has no native result. Skipped empty segments and the merging they force
      change nothing about this. */
  lemma ToolCallsArePaired(ms: seq<RichMessage>, k: nat)
    requires k < |Render(ms).messages|
    ensures var t := Render(ms).messages;
            && t[k].content != []
            && (k + 1 < |t| ==> t[k].side != t[k + 1].side)
            && (t[k].side == AssistantSide ==> NativeUses(t[k].content) == ResultsAt(t, k + 1) && NativeResults(t[k].content) == {})
            && (t[k].side == UserSide ==> NativeResults(t[k].content) == UsesAt(t, k - 1) && NativeUses(t[k].content) == {})
  {
    hide Turns, NativeUses, NativeResults, SegmentUseIds;
    var segs := Segments(ms, |ms|);
    SegmentsAlternate(ms, |ms|);
    TurnsPaired(ms, segs, |segs|);
    assert SegmentResultIds(ms, segs, |segs|) == {};
    var t := Render(ms).messages;
    if k + 1 < |t| {
      assert AnsweredAt(t, k + 1);
    }
    assert AnsweredAt(t, k);
  }
}
