/** Every source block is rendered exactly once and shows what it stands for. */
module AnthropicConservation {
  import opened Naturals
  import opened AnthropicRender

  // ----- nothing lost, nothing twice, order kept -----

  function AllBlocks(turns: seq<Turn>): seq<Placed> {
    if turns == [] then [] else AllBlocks(turns[..|turns| - 1]) + turns[|turns| - 1].content
  }

  lemma FlatPush(turns: seq<Turn>, side: Side, blocks: seq<Placed>)
    ensures AllBlocks(PushTurn(turns, side, blocks)) == AllBlocks(turns) + blocks
  {
    var out := PushTurn(turns, side, blocks);
    if turns != [] && turns[|turns| - 1].side == side {
      assert out[..|out| - 1] == turns[..|turns| - 1];
      var a, b := AllBlocks(turns[..|turns| - 1]), turns[|turns| - 1].content;
      assert a + (b + blocks) == (a + b) + blocks;
    } else {
      assert out[..|out| - 1] == turns;
    }
  }

  /** Blocks of the first `n` segments, one segment after the other. */
  function FlatSegments(ms: seq<RichMessage>, segs: seq<Segment>, n: nat): seq<Placed>
    requires AllInRange(segs, |ms|) && n <= |segs|
  {
    if n == 0 then [] else FlatSegments(ms, segs, n - 1) + SegmentBlocks(ms, segs, n - 1)
  }

  lemma {:induction false} FlatTurns(ms: seq<RichMessage>, segs: seq<Segment>, n: nat)
    requires AllInRange(segs, |ms|) && n <= |segs|
    ensures AllBlocks(Turns(ms, segs, n)) == FlatSegments(ms, segs, n)
  {
    hide SegmentBlocks, PushTurn, AllBlocks;
    if n > 0 {
      FlatTurns(ms, segs, n - 1);
      FlatPush(Turns(ms, segs, n - 1), segs[n - 1].side, SegmentBlocks(ms, segs, n - 1));
    } else {
      FlatNothing();
    }
  }

  lemma FlatNothing()
    ensures AllBlocks([]) == []
  {
  }

  datatype Position = Position(origin: nat, index: nat)

  function PositionOf(p: Placed): Position {
    Position(p.origin, p.index)
  }

  function SourcePosition(s: Source): Position {
    Position(s.origin, s.index)
  }

  function Positions(ps: seq<Placed>): multiset<Position> {
    if ps == [] then multiset{} else Positions(ps[..|ps| - 1]) + multiset{PositionOf(ps[|ps| - 1])}
  }

  function SourcePositions(ss: seq<Source>): multiset<Position> {
    if ss == [] then multiset{} else SourcePositions(ss[..|ss| - 1]) + multiset{SourcePosition(ss[|ss| - 1])}
  }

  lemma {:induction false} PositionsConcat(a: seq<Placed>, b: seq<Placed>)
    ensures Positions(a + b) == Positions(a) + Positions(b)
  {
    if b == [] {
      assert a + b == a;
    } else {
      assert (a + b)[..|a + b| - 1] == a + b[..|b| - 1];
      PositionsConcat(a, b[..|b| - 1]);
    }
  }

  lemma {:induction false} SourcePositionsConcat(a: seq<Source>, b: seq<Source>)
    ensures SourcePositions(a + b) == SourcePositions(a) + SourcePositions(b)
  {
    if b == [] {
      assert a + b == a;
    } else {
      assert (a + b)[..|a + b| - 1] == a + b[..|b| - 1];
      SourcePositionsConcat(a, b[..|b| - 1]);
    }
  }

  lemma MarkLastPositions(blocks: seq<Placed>, cache: bool)
    ensures Positions(MarkLast(blocks, cache)) == Positions(blocks)
  {
    if cache && blocks != [] {
      assert MarkLast(blocks, cache)[..|blocks| - 1] == blocks[..|blocks| - 1];
    }
  }

  lemma {:induction false} AssistantPositions(ss: seq<Source>, answered: set<string>)
    ensures Positions(AssistantBlocks(ss, answered)) == SourcePositions(ss)
  {
    if ss != [] {
      var out := AssistantBlocks(ss, answered);
      assert out[..|out| - 1] == AssistantBlocks(ss[..|ss| - 1], answered);
      AssistantPositions(ss[..|ss| - 1], answered);
    }
  }

  lemma {:induction false} UserPositions(ss: seq<Source>, pending: set<string>)
    ensures var r := UserSplit(ss, pending);
            Positions(r.results) + Positions(r.others) == SourcePositions(ss)
  {
    hide RenderBlock, OtherBlock, Positions;
    if ss == [] {
      NoBlocks();
    } else {
      var init, s := ss[..|ss| - 1], ss[|ss| - 1];
      UserPositions(init, pending);
      var before := UserSplit(init, pending);
      PositionsSnoc(before.results, Placed(s.origin, s.index, RenderBlock(s.block), false));
      PositionsSnoc(before.others, Placed(s.origin, s.index, OtherBlock(s.block), false));
    }
  }

  lemma NoBlocks()
    ensures Positions([]) == multiset{}
  {
  }

  lemma PositionsSnoc(ps: seq<Placed>, p: Placed)
    ensures Positions(ps + [p]) == Positions(ps) + multiset{PositionOf(p)}
  {
    assert (ps + [p])[..|ps|] == ps;
  }

  lemma SegmentPositions(ms: seq<RichMessage>, segs: seq<Segment>, i: nat)
    requires AllInRange(segs, |ms|) && i < |segs|
    ensures AllBelow(segs[i].msgs, |ms|)
    ensures Positions(SegmentBlocks(ms, segs, i)) == SourcePositions(SegmentSources(ms, segs[i].msgs))
  {
    hide SegmentSources, AssistantBlocks, UserSplit, MarkLast, Positions, SourcePositions;
    assert AllBelow(segs[i].msgs, |ms|);
    var ss := SegmentSources(ms, segs[i].msgs);
    if segs[i].side == AssistantSide {
      AssistantPositions(ss, SegmentResultIds(ms, segs, i + 1));
      MarkLastPositions(AssistantBlocks(ss, SegmentResultIds(ms, segs, i + 1)), segs[i].cache);
    } else {
      var r := UserSplit(ss, SegmentUseIds(ms, segs, i - 1));
      UserPositions(ss, SegmentUseIds(ms, segs, i - 1));
      PositionsConcat(r.results, r.others);
      MarkLastPositions(UserBlocks(ss, SegmentUseIds(ms, segs, i - 1)), segs[i].cache);
    }
  }

  /** Message indices of the first `n` segments. */
  function SegmentIndices(segs: seq<Segment>, n: nat): seq<nat>
    requires n <= |segs|
  {
    if n == 0 then [] else SegmentIndices(segs, n - 1) + segs[n - 1].msgs
  }

  /** Indices of the non-system messages among the first `n`. */
  function TurnIndices(ms: seq<RichMessage>, n: nat): seq<nat>
    requires n <= |ms|
  {
    if n == 0 then [] else if ms[n - 1].role.System? then TurnIndices(ms, n - 1) else TurnIndices(ms, n - 1) + [n - 1]
  }

  lemma {:induction false} SegmentIndicesPrefix(a: seq<Segment>, b: seq<Segment>, n: nat)
    requires n <= |a| && n <= |b| && forall k | 0 <= k < n :: a[k] == b[k]
    ensures SegmentIndices(a, n) == SegmentIndices(b, n)
  {
    if n > 0 {
      SegmentIndicesPrefix(a, b, n - 1);
    }
  }

  /** Segments hold exactly the non-system messages, in order. */
  lemma {:induction false} SegmentsPartition(ms: seq<RichMessage>, n: nat)
    requires n <= |ms|
    ensures SegmentIndices(Segments(ms, n), |Segments(ms, n)|) == TurnIndices(ms, n)
  {
    hide *;
    SegmentsStep(ms, n);
    if n > 0 {
      SegmentsPartition(ms, n - 1);
      if !ms[n - 1].role.System? {
        AddedIndices(Segments(ms, n - 1), SideOf(ms[n - 1]), n - 1, ms[n - 1].cached);
      }
    }
  }

  lemma SegmentsStep(ms: seq<RichMessage>, n: nat)
    requires n <= |ms|
    ensures n == 0 ==> SegmentIndices(Segments(ms, n), |Segments(ms, n)|) == TurnIndices(ms, n)
    ensures n > 0 && ms[n - 1].role.System? ==>
              Segments(ms, n) == Segments(ms, n - 1) && TurnIndices(ms, n) == TurnIndices(ms, n - 1)
    ensures n > 0 && !ms[n - 1].role.System? ==>
              && Segments(ms, n) == AddToSegments(Segments(ms, n - 1), SideOf(ms[n - 1]), n - 1, ms[n - 1].cached)
              && TurnIndices(ms, n) == TurnIndices(ms, n - 1) + [n - 1]
  {
  }

  lemma AddedIndices(before: seq<Segment>, side: Side, i: nat, cached: bool)
    ensures var after := AddToSegments(before, side, i, cached);
            SegmentIndices(after, |after|) == SegmentIndices(before, |before|) + [i]
  {
    var after := AddToSegments(before, side, i, cached);
    if |after| == |before| {
      SegmentIndicesPrefix(before, after, |before| - 1);
      var a, b := SegmentIndices(before, |before| - 1), before[|before| - 1].msgs;
      assert a + (b + [i]) == (a + b) + [i];
    } else {
      SegmentIndicesPrefix(before, after, |before|);
    }
  }

  lemma {:induction false} SegmentSourcesConcat(ms: seq<RichMessage>, a: seq<nat>, b: seq<nat>)
    requires AllBelow(a, |ms|) && AllBelow(b, |ms|)
    ensures AllBelow(a + b, |ms|)
    ensures SegmentSources(ms, a + b) == SegmentSources(ms, a) + SegmentSources(ms, b)
  {
    hide SourcesOf, SegmentSources;
    if b == [] {
      assert a + b == a;
      NoSources(ms);
    } else {
      var init, last := b[..|b| - 1], b[|b| - 1];
      assert b == init + [last] && a + b == (a + init) + [last];
      SegmentSourcesConcat(ms, a, init);
      SourcesSnoc(ms, a + init, last);
      SourcesSnoc(ms, init, last);
      Assoc3(SegmentSources(ms, a), SegmentSources(ms, init), SourcesOf(ms, last));
    }
  }

  lemma NoSources(ms: seq<RichMessage>)
    ensures SegmentSources(ms, []) == []
  {
  }

  lemma SourcesSnoc(ms: seq<RichMessage>, idxs: seq<nat>, last: nat)
    requires AllBelow(idxs, |ms|) && last < |ms|
    ensures AllBelow(idxs + [last], |ms|)
    ensures SegmentSources(ms, idxs + [last]) == SegmentSources(ms, idxs) + SourcesOf(ms, last)
  {
    assert (idxs + [last])[..|idxs|] == idxs;
  }

  lemma Assoc3<T>(a: seq<T>, b: seq<T>, c: seq<T>)
    ensures a + (b + c) == (a + b) + c
  {
  }

  lemma {:induction false} FlatPositions(ms: seq<RichMessage>, segs: seq<Segment>, n: nat)
    requires AllInRange(segs, |ms|) && n <= |segs|
    ensures AllBelow(SegmentIndices(segs, n), |ms|)
    ensures Positions(FlatSegments(ms, segs, n)) == SourcePositions(SegmentSources(ms, SegmentIndices(segs, n)))
  {
    hide SegmentBlocks, SegmentSources, Positions, SourcePositions;
    if n == 0 {
      NoPositions(ms);
    } else {
      FlatPositions(ms, segs, n - 1);
      assert AllBelow(segs[n - 1].msgs, |ms|);
      SegmentPositions(ms, segs, n - 1);
      PositionsConcat(FlatSegments(ms, segs, n - 1), SegmentBlocks(ms, segs, n - 1));
      SegmentSourcesConcat(ms, SegmentIndices(segs, n - 1), segs[n - 1].msgs);
      SourcePositionsConcat(SegmentSources(ms, SegmentIndices(segs, n - 1)), SegmentSources(ms, segs[n - 1].msgs));
    }
  }

  lemma NoPositions(ms: seq<RichMessage>)
    ensures Positions([]) == multiset{} && SourcePositions(SegmentSources(ms, [])) == multiset{}
  {
  }

  /** Every block of every non-system message is rendered exactly once in the turns. */
  lemma NothingLostOrDoubled(ms: seq<RichMessage>)
    ensures AllBelow(TurnIndices(ms, |ms|), |ms|)
    ensures Positions(AllBlocks(Render(ms).messages)) == SourcePositions(SegmentSources(ms, TurnIndices(ms, |ms|)))
  {
    var segs := Segments(ms, |ms|);
    SegmentsInRange(ms, |ms|);
    SegmentsPartition(ms, |ms|);
    FlatTurns(ms, segs, |segs|);
    FlatPositions(ms, segs, |segs|);
  }

  // ----- what each placed block shows -----

  /** Inside a tool result nothing is native but images; calls and results are named. */
  predicate ShowsNested(b: Block, out: OutBlock) {
    match b
    case Text(text) => out == OutText(text)
    case Thinking(text) => out == OutText(text)
    case Image(source, _) => out == OutImage(source)
    case Reference(kind, idOrPath) => out == OutText("[" + kind + ": " + idOrPath + "]")
    case ToolUse(id, name, _) => out == OutText("[tool_use " + name + " (" + id + ")]")
    case ToolResult(id, _, _) => out == OutText("[tool_result for " + id + "]")
  }

  /** Text, images and references show what they hold on either side. A call is native only on the
      assistant's side and a result only on the user's, each with all its parts; otherwise a call is named,
      and a result is named by the assistant and quoted by the user. */
  ghost predicate ShowsBlock(b: Block, side: Side, out: OutBlock) {
    match b
    case ToolUse(id, name, input) =>
      || out == OutText("[tool_use " + name + " (" + id + ")]")
      || (side == AssistantSide && out == OutToolUse(id, name, input))
    case ToolResult(id, isError, content) =>
      if side == AssistantSide then out == OutText("[tool_result for " + id + "]")
      else
        || out == OutText("[tool_result for " + id + "]" + ToolResultText(content))
        || (&& out.OutToolResult? && out.id == id && out.isError == isError && |out.nested| == |content|
            && forall k | 0 <= k < |content| :: ShowsNested(content[k], out.nested[k]))
    case _ => ShowsNested(b, out)
  }

  /** A placed block shows the source block at its position. */
  ghost predicate Shows(ms: seq<RichMessage>, side: Side, p: Placed) {
    && p.origin < |ms| && p.index < |BlocksOf(ms[p.origin])|
    && ShowsBlock(BlocksOf(ms[p.origin])[p.index], side, p.block)
  }

  lemma BlocksShow(b: Block, answered: set<string>)
    ensures ShowsBlock(b, AssistantSide, AssistantBlock(b, answered))
    ensures ShowsBlock(b, UserSide, OtherBlock(b))
    ensures b.ToolResult? ==> ShowsBlock(b, UserSide, RenderBlock(b))
  {
    hide ToolResultText;
    if b.ToolResult? {
      forall k | 0 <= k < |b.content|
        ensures ShowsNested(b.content[k], RenderNested(b.content[k]))
      {
      }
    }
  }

  lemma {:induction false} SourcesAreBlocks(ms: seq<RichMessage>, idxs: seq<nat>, s: Source)
    requires AllBelow(idxs, |ms|) && s in SegmentSources(ms, idxs)
    ensures s.origin in idxs && s.origin < |ms| && s.index < |BlocksOf(ms[s.origin])|
    ensures s.block == BlocksOf(ms[s.origin])[s.index]
  {
    var init, last := idxs[..|idxs| - 1], idxs[|idxs| - 1];
    if s in SegmentSources(ms, init) {
      SourcesAreBlocks(ms, init, s);
    }
  }

  lemma {:induction false} UserShows(ms: seq<RichMessage>, ss: seq<Source>, pending: set<string>, p: Placed)
    requires p in UserSplit(ss, pending).results || p in UserSplit(ss, pending).others
    ensures exists s | s in ss :: p.origin == s.origin && p.index == s.index && !p.cache
              && (p.block == OtherBlock(s.block) || (s.block.ToolResult? && p.block == RenderBlock(s.block)))
  {
    hide RenderBlock, OtherBlock;
    var init, s := ss[..|ss| - 1], ss[|ss| - 1];
    var before := UserSplit(init, pending);
    if p in before.results || p in before.others {
      UserShows(ms, init, pending, p);
      var s' :| s' in init && p.origin == s'.origin && p.index == s'.index && !p.cache
              && (p.block == OtherBlock(s'.block) || (s'.block.ToolResult? && p.block == RenderBlock(s'.block)));
      assert s' in ss;
    } else {
      assert s in ss;
    }
  }

  /** Provenance and meaning of every block a segment renders to. */
  lemma SegmentShows(ms: seq<RichMessage>, segs: seq<Segment>, i: nat, p: Placed)
    requires AllInRange(segs, |ms|) && i < |segs| && p in SegmentBlocks(ms, segs, i)
    ensures p.origin in segs[i].msgs && Shows(ms, segs[i].side, p)
  {
    hide ShowsBlock, OtherBlock, RenderBlock, AssistantBlock;
    assert AllBelow(segs[i].msgs, |ms|);
    var ss := SegmentSources(ms, segs[i].msgs);
    var raw := if segs[i].side == AssistantSide then AssistantBlocks(ss, SegmentResultIds(ms, segs, i + 1))
               else UserBlocks(ss, SegmentUseIds(ms, segs, i - 1));
    var q := Unmarked(raw, segs[i].cache, p);
    if segs[i].side == AssistantSide {
      var k :| 0 <= k < |raw| && raw[k] == q;
      assert ss[k] in ss;
      SourcesAreBlocks(ms, segs[i].msgs, ss[k]);
      BlocksShow(ss[k].block, SegmentResultIds(ms, segs, i + 1));
    } else {
      UserShows(ms, ss, SegmentUseIds(ms, segs, i - 1), q);
      var s :| s in ss && q.origin == s.origin && q.index == s.index && !q.cache
              && (q.block == OtherBlock(s.block) || (s.block.ToolResult? && q.block == RenderBlock(s.block)));
      SourcesAreBlocks(ms, segs[i].msgs, s);
      BlocksShow(s.block, {});
    }
  }

  lemma Unmarked(raw: seq<Placed>, cache: bool, p: Placed) returns (q: Placed)
    requires p in MarkLast(raw, cache)
    ensures q in raw && q.origin == p.origin && q.index == p.index && q.block == p.block
  {
    var out := MarkLast(raw, cache);
    var k :| 0 <= k < |out| && out[k] == p;
    q := raw[k];
  }

  lemma {:induction false} FlatShows(ms: seq<RichMessage>, segs: seq<Segment>, n: nat, p: Placed) returns (k: nat)
    requires AllInRange(segs, |ms|) && n <= |segs| && p in FlatSegments(ms, segs, n)
    ensures k < n && Shows(ms, segs[k].side, p) && p.origin in segs[k].msgs
    ensures p.origin in SegmentIndices(segs, n)
  {
    hide SegmentBlocks, Shows;
    if p in FlatSegments(ms, segs, n - 1) {
      k := FlatShows(ms, segs, n - 1, p);
    } else {
      k := n - 1;
      SegmentShows(ms, segs, k, p);
    }
  }

  // ----- sides and roles -----

  /** The segment's side is the role of each of its messages. */
  ghost predicate SidedSegment(ms: seq<RichMessage>, seg: Segment) {
    forall i: nat | i in seg.msgs :: i < |ms| && (seg.side == AssistantSide <==> ms[i].role.Assistant?)
  }

  lemma {:induction false} SegmentsKeepSides(ms: seq<RichMessage>, n: nat)
    requires n <= |ms|
    ensures forall k | 0 <= k < |Segments(ms, n)| :: SidedSegment(ms, Segments(ms, n)[k])
  {
    if n > 0 {
      SegmentsKeepSides(ms, n - 1);
    }
  }

  /** The turn's side is the role of every message with a block in it. */
  ghost predicate SidedTurn(ms: seq<RichMessage>, t: Turn) {
    forall p | p in t.content :: p.origin < |ms| && (t.side == AssistantSide <==> ms[p.origin].role.Assistant?)
  }

  lemma PushKeepsSides(ms: seq<RichMessage>, turns: seq<Turn>, side: Side, blocks: seq<Placed>)
    requires forall k | 0 <= k < |turns| :: SidedTurn(ms, turns[k])
    requires SidedTurn(ms, Turn(side, blocks))
    ensures forall k | 0 <= k < |PushTurn(turns, side, blocks)| :: SidedTurn(ms, PushTurn(turns, side, blocks)[k])
  {
  }

  lemma {:induction false} TurnsKeepSides(ms: seq<RichMessage>, segs: seq<Segment>, n: nat)
    requires AllInRange(segs, |ms|) && n <= |segs|
    requires forall k | 0 <= k < |segs| :: SidedSegment(ms, segs[k])
    ensures forall k | 0 <= k < |Turns(ms, segs, n)| :: SidedTurn(ms, Turns(ms, segs, n)[k])
  {
    hide SegmentBlocks, PushTurn, Shows;
    if n > 0 {
      TurnsKeepSides(ms, segs, n - 1);
      var blocks := SegmentBlocks(ms, segs, n - 1);
      assert SidedSegment(ms, segs[n - 1]);
      forall p | p in blocks
        ensures p.origin in segs[n - 1].msgs
      {
        SegmentShows(ms, segs, n - 1, p);
      }
      PushKeepsSides(ms, Turns(ms, segs, n - 1), segs[n - 1].side, blocks);
    }
  }

  /** A turn is an assistant turn exactly when the messages it renders are the assistant's. */
  lemma TurnsHaveTheirSide(ms: seq<RichMessage>, k: nat, p: Placed)
    requires k < |Render(ms).messages| && p in Render(ms).messages[k].content
    ensures p.origin < |ms| && (Render(ms).messages[k].side == AssistantSide <==> ms[p.origin].role.Assistant?)
  {
    hide Turns;
    var segs := Segments(ms, |ms|);
    SegmentsInRange(ms, |ms|);
    SegmentsKeepSides(ms, |ms|);
    TurnsKeepSides(ms, segs, |segs|);
    assert SidedTurn(ms, Render(ms).messages[k]);
  }

  /** Every rendered block shows the source block it stands for, as the role of its message allows. */
  lemma EveryBlockShowsItsSource(ms: seq<RichMessage>, p: Placed)
    requires p in AllBlocks(Render(ms).messages)
    ensures p.origin < |ms| && !ms[p.origin].role.System?
    ensures Shows(ms, if ms[p.origin].role.Assistant? then AssistantSide else UserSide, p)
  {
    hide Shows;
    var segs := Segments(ms, |ms|);
    SegmentsInRange(ms, |ms|);
    SegmentsKeepSides(ms, |ms|);
    FlatTurns(ms, segs, |segs|);
    var k := FlatShows(ms, segs, |segs|, p);
    assert SidedSegment(ms, segs[k]);
    SegmentsPartition(ms, |ms|);
    TurnIndicesAre(ms, |ms|, p.origin);
  }

  lemma {:induction false} TurnIndicesAre(ms: seq<RichMessage>, n: nat, i: nat)
    requires n <= |ms|
    ensures i in TurnIndices(ms, n) <==> i < n && !ms[i].role.System?
  {
    if n > 0 {
      TurnIndicesAre(ms, n - 1, i);
    }
  }

  // ----- the system field -----

  function SystemIndices(ms: seq<RichMessage>, n: nat): seq<nat>
    requires n <= |ms|
  {
    if n == 0 then [] else if ms[n - 1].role.System? then SystemIndices(ms, n - 1) + [n - 1] else SystemIndices(ms, n - 1)
  }

  lemma {:induction false} PlainPositions(ss: seq<Source>, out: seq<Placed>)
    requires |out| == |ss| && forall k | 0 <= k < |ss| :: PositionOf(out[k]) == SourcePosition(ss[k])
    ensures Positions(out) == SourcePositions(ss)
  {
    if ss != [] {
      PlainPositions(ss[..|ss| - 1], out[..|out| - 1]);
    }
  }

  /** A block of the system field is the text of the system message's block at its position. */
  ghost predicate SystemShows(ms: seq<RichMessage>, p: Placed) {
    && p.origin < |ms| && ms[p.origin].role.System? && p.index < |BlocksOf(ms[p.origin])|
    && ShowsInSystem(BlocksOf(ms[p.origin])[p.index], p.block)
  }

  /** In the system field an image is its description. */
  predicate ShowsInSystem(b: Block, out: OutBlock) {
    if b.Image? then out == OutText(if b.alt.Some? then b.alt.value else "[image]") else ShowsNested(b, out)
  }

  /** Every block of every system message is rendered exactly once, as its text, in the system field. */
  lemma {:induction false} SystemKeepsEverything(ms: seq<RichMessage>, n: nat)
    requires n <= |ms|
    ensures AllBelow(SystemIndices(ms, n), |ms|)
    ensures Positions(SystemField(ms, n)) == SourcePositions(SegmentSources(ms, SystemIndices(ms, n)))
    ensures forall p | p in SystemField(ms, n) :: SystemShows(ms, p)
  {
    hide *;
    SystemSteps(ms, n);
    if n == 0 {
      NoPositions(ms);
    } else {
      SystemKeepsEverything(ms, n - 1);
      if ms[n - 1].role.System? {
        SystemMessage(ms, n - 1);
        OneInRange(n - 1, |ms|);
        PositionsConcat(SystemField(ms, n - 1), SystemBlocks(ms, n - 1));
        SegmentSourcesConcat(ms, SystemIndices(ms, n - 1), [n - 1]);
        SourcePositionsConcat(SegmentSources(ms, SystemIndices(ms, n - 1)), SegmentSources(ms, [n - 1]));
      }
    }
  }

  lemma SystemSteps(ms: seq<RichMessage>, n: nat)
    requires n <= |ms|
    ensures n == 0 ==> SystemField(ms, n) == [] && SystemIndices(ms, n) == [] && AllBelow([], |ms|)
    ensures n > 0 && ms[n - 1].role.System? ==>
              && SystemField(ms, n) == SystemField(ms, n - 1) + SystemBlocks(ms, n - 1)
              && SystemIndices(ms, n) == SystemIndices(ms, n - 1) + [n - 1]
    ensures n > 0 && !ms[n - 1].role.System? ==>
              SystemField(ms, n) == SystemField(ms, n - 1) && SystemIndices(ms, n) == SystemIndices(ms, n - 1)
  {
  }

  lemma OneInRange(i: nat, n: nat)
    requires i < n
    ensures AllBelow([i], n)
  {
  }

  lemma SystemMessage(ms: seq<RichMessage>, i: nat)
    requires i < |ms| && ms[i].role.System?
    ensures Positions(SystemBlocks(ms, i)) == SourcePositions(SegmentSources(ms, [i]))
    ensures forall p | p in SystemBlocks(ms, i) :: SystemShows(ms, p)
  {
    hide Positions, SourcePositions, SourcesOf, SystemBlock, BlocksOf, MarkLast, SystemShows;
    var raw := RawSystem(ms, i);
    SystemBlocksAre(ms, i, raw);
    PlainPositions(SourcesOf(ms, i), raw);
    MarkLastPositions(raw, ms[i].cached);
    forall p | p in MarkLast(raw, ms[i].cached)
      ensures SystemShows(ms, p)
    {
      var q := Unmarked(raw, ms[i].cached, p);
      var k: nat :| k < |raw| && raw[k] == q;
      RawShows(ms, i, k, p);
    }
  }

  function RawSystem(ms: seq<RichMessage>, i: nat): (raw: seq<Placed>)
    requires i < |ms|
    ensures |raw| == |SourcesOf(ms, i)|
    ensures forall k | 0 <= k < |raw| :: var s := SourcesOf(ms, i)[k]; raw[k] == Placed(s.origin, s.index, SystemBlock(s.block), false)
  {
    var ss := SourcesOf(ms, i);
    seq(|ss|, k requires 0 <= k < |ss| => Placed(ss[k].origin, ss[k].index, SystemBlock(ss[k].block), false))
  }

  lemma RawShows(ms: seq<RichMessage>, i: nat, k: nat, p: Placed)
    requires i < |ms| && ms[i].role.System? && k < |RawSystem(ms, i)|
    requires PositionOf(p) == PositionOf(RawSystem(ms, i)[k]) && p.block == RawSystem(ms, i)[k].block
    ensures SystemShows(ms, p)
  {
    hide SourcesOf, SystemBlock, BlocksOf, RawSystem;
    SourceAt(ms, i, k);
    SystemBlockIsText(SourcesOf(ms, i)[k].block);
  }

  lemma SourceAt(ms: seq<RichMessage>, i: nat, k: nat)
    requires i < |ms| && k < |SourcesOf(ms, i)|
    ensures var s := SourcesOf(ms, i)[k]; s.origin == i && s.index < |BlocksOf(ms[i])| && s.block == BlocksOf(ms[i])[s.index]
  {
  }

  lemma SystemBlockIsText(b: Block)
    ensures ShowsInSystem(b, SystemBlock(b)) && SystemBlock(b).OutText?
  {
  }

  lemma SystemBlocksAre(ms: seq<RichMessage>, i: nat, raw: seq<Placed>)
    requires i < |ms| && |raw| == |SourcesOf(ms, i)|
    requires forall k | 0 <= k < |raw| :: var s := SourcesOf(ms, i)[k]; raw[k] == Placed(s.origin, s.index, SystemBlock(s.block), false)
    ensures SystemBlocks(ms, i) == MarkLast(raw, ms[i].cached)
    ensures SegmentSources(ms, [i]) == SourcesOf(ms, i)
  {
    hide SourcesOf, SystemBlock, MarkLast;
    var ss := SourcesOf(ms, i);
    assert raw == seq(|ss|, k requires 0 <= k < |ss| => Placed(ss[k].origin, ss[k].index, SystemBlock(ss[k].block), false));
    assert SegmentSources(ms, []) + ss == ss;
  }
}
