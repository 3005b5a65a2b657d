/** The order of blocks inside and across rendered turns. */
module AnthropicOrder {
  import opened Naturals
  import opened Sorting
  import opened AnthropicRender
  import opened AnthropicPairing
  import opened AnthropicConservation

  // ----- order inside a turn -----

  predicate Before(p: Position, q: Position) {
    p.origin < q.origin || (p.origin == q.origin && p.index < q.index)
  }

  ghost predicate Ordered(ps: seq<Placed>) {
    forall i, j | 0 <= i < j < |ps| :: Before(PositionOf(ps[i]), PositionOf(ps[j]))
  }

  ghost predicate SourcesOrdered(ss: seq<Source>) {
    forall i, j | 0 <= i < j < |ss| :: Before(SourcePosition(ss[i]), SourcePosition(ss[j]))
  }

  lemma {:induction false} SegmentSourcesOrdered(ms: seq<RichMessage>, idxs: seq<nat>)
    requires AllBelow(idxs, |ms|) && Increasing(idxs)
    ensures SourcesOrdered(SegmentSources(ms, idxs))
  {
    if idxs != [] {
      var init, last := idxs[..|idxs| - 1], idxs[|idxs| - 1];
      SegmentSourcesOrdered(ms, init);
      var a, b := SegmentSources(ms, init), SourcesOf(ms, last);
      forall i | 0 <= i < |a|
        ensures a[i].origin < last
      {
        SourcesAreBlocks(ms, init, a[i]);
        var k :| 0 <= k < |init| && init[k] == a[i].origin;
        assert idxs[k] < idxs[|idxs| - 1];
      }
    }
  }

  lemma {:induction false} SplitOrdered(ss: seq<Source>, pending: set<string>)
    requires SourcesOrdered(ss)
    ensures Ordered(UserSplit(ss, pending).results) && Ordered(UserSplit(ss, pending).others)
    ensures forall p | p in UserSplit(ss, pending).results || p in UserSplit(ss, pending).others ::
              exists s | s in ss :: PositionOf(p) == SourcePosition(s)
  {
    hide RenderBlock, OtherBlock;
    if ss != [] {
      var init, s := ss[..|ss| - 1], ss[|ss| - 1];
      SplitOrdered(init, pending);
      var before, after := UserSplit(init, pending), UserSplit(ss, pending);
      forall p | p in before.results || p in before.others
        ensures Before(PositionOf(p), SourcePosition(s))
        ensures exists s' | s' in ss :: PositionOf(p) == SourcePosition(s')
      {
        var s' :| s' in init && PositionOf(p) == SourcePosition(s');
        var k :| 0 <= k < |init| && init[k] == s';
        assert Before(SourcePosition(ss[k]), SourcePosition(ss[|ss| - 1]));
        assert ss[k] in ss;
      }
      assert s in ss;
      SnocOrdered(before.results, Placed(s.origin, s.index, RenderBlock(s.block), false));
      SnocOrdered(before.others, Placed(s.origin, s.index, OtherBlock(s.block), false));
    }
  }

  lemma SnocOrdered(ps: seq<Placed>, p: Placed)
    requires Ordered(ps) && forall q | q in ps :: Before(PositionOf(q), PositionOf(p))
    ensures Ordered(ps + [p])
  {
  }

  /** Native results first, with pairwise distinct ids, then everything else; both in source order. */
  ghost predicate UserShape(ps: seq<Placed>, k: nat) {
    && k <= |ps|
    && Ordered(ps[..k]) && Ordered(ps[k..])
    && (forall i | 0 <= i < k :: ps[i].block.OutToolResult?)
    && (forall i | k <= i < |ps| :: !ps[i].block.OutToolResult?)
    && (forall i, j | 0 <= i < j < k :: ResultId(ps[i]) != ResultId(ps[j]))
  }

  ghost predicate Shape(t: Turn) {
    if t.side == AssistantSide then Ordered(t.content) else exists k: nat :: UserShape(t.content, k)
  }

  ghost predicate SameButCache(a: seq<Placed>, b: seq<Placed>) {
    |a| == |b| && forall i | 0 <= i < |a| :: PositionOf(a[i]) == PositionOf(b[i]) && a[i].block == b[i].block
  }

  lemma MarkLastSame(raw: seq<Placed>, cache: bool)
    ensures SameButCache(raw, MarkLast(raw, cache))
  {
  }

  lemma ShapeIgnoresCache(a: seq<Placed>, b: seq<Placed>, k: nat)
    requires SameButCache(a, b)
    ensures Ordered(a) ==> Ordered(b)
    ensures UserShape(a, k) ==> UserShape(b, k)
  {
    if Ordered(a) {
      forall i, j | 0 <= i < j < |b|
        ensures Before(PositionOf(b[i]), PositionOf(b[j]))
      {
        assert Before(PositionOf(a[i]), PositionOf(a[j]));
      }
    }
    if UserShape(a, k) {
      SliceOrdered(a[..k], b[..k]);
      SliceOrdered(a[k..], b[k..]);
      forall i, j | 0 <= i < j < k
        ensures ResultId(b[i]) != ResultId(b[j])
      {
        assert ResultId(a[i]) != ResultId(a[j]);
      }
    }
  }

  lemma SliceOrdered(a: seq<Placed>, b: seq<Placed>)
    requires SameButCache(a, b) && Ordered(a)
    ensures Ordered(b)
  {
    forall i, j | 0 <= i < j < |b|
      ensures Before(PositionOf(b[i]), PositionOf(b[j]))
    {
      assert Before(PositionOf(a[i]), PositionOf(a[j]));
    }
  }

  lemma SegmentShape(ms: seq<RichMessage>, segs: seq<Segment>, i: nat)
    requires AllInRange(segs, |ms|) && i < |segs| && Increasing(segs[i].msgs)
    ensures var out := SegmentBlocks(ms, segs, i);
            && Shape(Turn(segs[i].side, out))
            && (NativeResults(out) == {} ==> Ordered(out))
            && (forall p | p in out :: p.origin in segs[i].msgs)
  {
    hide SegmentSources, MarkLast, UserSplit, AssistantBlock, RenderBlock, Ordered, SourcesOrdered, UserShape;
    assert AllBelow(segs[i].msgs, |ms|);
    var out, ss := SegmentBlocks(ms, segs, i), SegmentSources(ms, segs[i].msgs);
    SegmentSourcesOrdered(ms, segs[i].msgs);
    if segs[i].side == AssistantSide {
      var raw := AssistantBlocks(ss, SegmentResultIds(ms, segs, i + 1));
      AssistantOrdered(ss, SegmentResultIds(ms, segs, i + 1));
      MarkLastSame(raw, segs[i].cache);
      ShapeIgnoresCache(raw, out, 0);
    } else {
      var pending := SegmentUseIds(ms, segs, i - 1);
      var raw, r := UserBlocks(ss, pending), UserSplit(ss, pending);
      UserNatives(ss, pending);
      SplitOrdered(ss, pending);
      UserShaped(r.results, r.others);
      MarkLastSame(raw, segs[i].cache);
      ShapeIgnoresCache(raw, out, |r.results|);
      assert UserShape(out, |r.results|);
      MarkLastNatives(raw, segs[i].cache);
      if NativeResults(out) == {} {
        NativesConcat(r.results, r.others);
        if r.results != [] {
          SomeNatives(r.results);
        }
        assert raw == r.others;
      }
    }
    forall p | p in out
      ensures p.origin in segs[i].msgs
    {
      SegmentShows(ms, segs, i, p);
    }
  }

  lemma SomeNatives(results: seq<Placed>)
    requires results != [] && forall p | p in results :: p.block.OutToolResult?
    ensures NativeResults(results) != {}
  {
    assert results[0] in results;
    assert results[0].block.id in NativeResults(results);
  }

  lemma AssistantOrdered(ss: seq<Source>, answered: set<string>)
    requires SourcesOrdered(ss)
    ensures Ordered(AssistantBlocks(ss, answered))
  {
    var out := AssistantBlocks(ss, answered);
    forall i, j | 0 <= i < j < |out|
      ensures Before(PositionOf(out[i]), PositionOf(out[j]))
    {
      assert Before(SourcePosition(ss[i]), SourcePosition(ss[j]));
    }
  }

  lemma UserShaped(results: seq<Placed>, others: seq<Placed>)
    requires Ordered(results) && Ordered(others)
    requires forall p | p in results :: p.block.OutToolResult?
    requires forall p | p in others :: !p.block.OutToolResult?
    requires forall i, j | 0 <= i < j < |results| :: ResultId(results[i]) != ResultId(results[j])
    ensures UserShape(results + others, |results|)
  {
    var ps := results + others;
    assert ps[..|results|] == results && ps[|results|..] == others;
    forall i | 0 <= i < |ps|
      ensures i < |results| ==> ps[i].block.OutToolResult?
      ensures i >= |results| ==> !ps[i].block.OutToolResult?
    {
      if i < |results| {
        assert results[i] in results;
      } else {
        assert others[i - |results|] in others;
      }
    }
  }

  lemma OrderedJoin(a: seq<Placed>, b: seq<Placed>)
    requires Ordered(a) && Ordered(b) && forall p, q | p in a && q in b :: p.origin < q.origin
    ensures Ordered(a + b)
  {
    forall i, j | 0 <= i < j < |a + b|
      ensures Before(PositionOf((a + b)[i]), PositionOf((a + b)[j]))
    {
      if i < |a| <= j {
        assert a[i] in a && b[j - |a|] in b;
      } else if j < |a| {
        assert Before(PositionOf(a[i]), PositionOf(a[j]));
      } else {
        assert Before(PositionOf(b[i - |a|]), PositionOf(b[j - |a|]));
      }
    }
  }

  /** Merging a later segment without native results into a turn keeps the turn's shape. */
  lemma ShapeJoin(t: Turn, b: seq<Placed>)
    requires Shape(t) && Ordered(b)
    requires forall p, q | p in t.content && q in b :: p.origin < q.origin
    requires forall q | q in b :: !q.block.OutToolResult?
    ensures Shape(Turn(t.side, t.content + b))
  {
    hide Ordered;
    if t.side == AssistantSide {
      OrderedJoin(t.content, b);
    } else {
      var k: nat :| UserShape(t.content, k);
      var ps := t.content + b;
      assert ps[..k] == t.content[..k] && ps[k..] == t.content[k..] + b;
      OrderedJoin(t.content[k..], b);
      forall i | k <= i < |ps|
        ensures !ps[i].block.OutToolResult?
      {
        if i >= |t.content| {
          assert b[i - |t.content|] in b;
        }
      }
      assert UserShape(ps, k);
    }
  }

  lemma {:induction false} TurnIndicesIncrease(ms: seq<RichMessage>, n: nat)
    requires n <= |ms|
    ensures Increasing(TurnIndices(ms, n)) && AllBelow(TurnIndices(ms, n), n)
  {
    if n > 0 {
      TurnIndicesIncrease(ms, n - 1);
    }
  }

  /** The indices of a segment come after all those of the segments before it. */
  lemma {:induction false} IndicesPrefix(segs: seq<Segment>, n: nat, m: nat)
    requires n <= m <= |segs| && Increasing(SegmentIndices(segs, m))
    ensures Increasing(SegmentIndices(segs, n))
    ensures n < m ==> Increasing(segs[n].msgs)
    ensures n < m ==> forall x, y | x in SegmentIndices(segs, n) && y in segs[n].msgs :: x < y
    decreases m - n
  {
    if n < m {
      IndicesPrefix(segs, n + 1, m);
      var a, b := SegmentIndices(segs, n), segs[n].msgs;
      IncreasingParts(a, b);
    }
  }

  lemma IncreasingParts(a: seq<nat>, b: seq<nat>)
    requires Increasing(a + b)
    ensures Increasing(a) && Increasing(b) && forall x, y | x in a && y in b :: x < y
  {
    var s := a + b;
    forall i, j | 0 <= i < j < |a|
      ensures a[i] < a[j]
    {
      assert s[i] < s[j];
    }
    forall i, j | 0 <= i < j < |b|
      ensures b[i] < b[j]
    {
      assert s[|a| + i] < s[|a| + j];
    }
    forall x, y | x in a && y in b
      ensures x < y
    {
      var i :| 0 <= i < |a| && a[i] == x;
      var j :| 0 <= j < |b| && b[j] == y;
      assert s[i] < s[|a| + j];
    }
  }

  ghost predicate TurnsWithin(turns: seq<Turn>, idxs: seq<nat>) {
    forall k | 0 <= k < |turns| :: Shape(turns[k]) && forall p | p in turns[k].content :: p.origin in idxs
  }

  /** The last turn stands on the side of the last segment that rendered to anything. */
  lemma LastTurnSide(ms: seq<RichMessage>, segs: seq<Segment>, n: nat)
    requires AllInRange(segs, |ms|) && 0 < n <= |segs| && SegmentBlocks(ms, segs, n - 1) != []
    ensures Turns(ms, segs, n) != [] && Turns(ms, segs, n)[|Turns(ms, segs, n)| - 1].side == segs[n - 1].side
  {
    hide SegmentBlocks;
  }

  lemma {:induction false} TurnsShaped(ms: seq<RichMessage>, segs: seq<Segment>, n: nat)
    requires WellSegmented(ms, segs) && n <= |segs| && Increasing(SegmentIndices(segs, |segs|))
    ensures TurnsWithin(Turns(ms, segs, n), SegmentIndices(segs, n))
  {
    hide SegmentBlocks, Shape, SegmentUseIds, SegmentResultIds, Increasing, Ordered, NativeResults;
    if n > 0 {
      TurnsShaped(ms, segs, n - 1);
      IndicesPrefix(segs, n - 1, |segs|);
      SegmentShape(ms, segs, n - 1);
      var before, blocks := Turns(ms, segs, n - 1), SegmentBlocks(ms, segs, n - 1);
      if blocks != [] && before != [] && before[|before| - 1].side == segs[n - 1].side {
        MergedHasNoResults(ms, segs, n);
        var last := before[|before| - 1];
        assert Shape(last);
        NoResultBlocks(blocks);
        ShapeJoin(last, blocks);
      }
    }
  }

  lemma NoResultBlocks(blocks: seq<Placed>)
    requires NativeResults(blocks) == {}
    ensures forall q | q in blocks :: !q.block.OutToolResult?
  {
    forall q | q in blocks
      ensures !q.block.OutToolResult?
    {
      if q.block.OutToolResult? {
        var id := q.block.id;
        var found := id in NativeResults(blocks);
      }
    }
  }

  /** A segment merged into the turn before it follows an empty segment, so it has no native result. */
  lemma MergedHasNoResults(ms: seq<RichMessage>, segs: seq<Segment>, n: nat)
    requires WellSegmented(ms, segs) && 0 < n <= |segs|
    requires var t := Turns(ms, segs, n - 1); t != [] && t[|t| - 1].side == segs[n - 1].side
    ensures NativeResults(SegmentBlocks(ms, segs, n - 1)) == {}
  {
    hide SegmentBlocks, SegmentUseIds, SegmentResultIds, NativeResults, NativeUses, PushTurn;
    SegmentNatives(ms, segs, n - 1);
    assert n > 1;
    assert segs[n - 2].side != segs[n - 2 + 1].side;
    if SegmentBlocks(ms, segs, n - 2) == [] {
      EmptySegment(ms, segs, n - 2);
    } else {
      LastTurnSide(ms, segs, n - 1);
    }
  }

  /** Assistant turns keep source order; user turns have their native results first, with pairwise
      distinct ids, and keep source order within results and within the rest, merged or not. */
  lemma TurnsKeepShape(ms: seq<RichMessage>, k: nat)
    requires k < |Render(ms).messages|
    ensures Shape(Render(ms).messages[k])
  {
    hide Shape;
    var segs := Segments(ms, |ms|);
    SegmentsAlternate(ms, |ms|);
    SegmentsPartition(ms, |ms|);
    TurnIndicesIncrease(ms, |ms|);
    TurnsShaped(ms, segs, |segs|);
  }

  // ----- calls against results, one by one -----

  /** Ids of the native calls of a turn, in order. */
  function CallIds(blocks: seq<Placed>): seq<string> {
    if blocks == [] then []
    else
      var init, last := CallIds(blocks[..|blocks| - 1]), blocks[|blocks| - 1].block;
      if last.OutToolUse? then init + [last.id] else init
  }

  function ReplyIds(blocks: seq<Placed>): seq<string> {
    if blocks == [] then []
    else
      var init, last := ReplyIds(blocks[..|blocks| - 1]), blocks[|blocks| - 1].block;
      if last.OutToolResult? then init + [last.id] else init
  }

  lemma {:induction false} IdsOfTurn(blocks: seq<Placed>)
    ensures Elements(CallIds(blocks)) == NativeUses(blocks) && Elements(ReplyIds(blocks)) == NativeResults(blocks)
  {
    if blocks != [] {
      var init, last := blocks[..|blocks| - 1], blocks[|blocks| - 1];
      IdsOfTurn(init);
      NativesConcat(init, [last]);
      assert blocks == init + [last];
      assert NativeUses([last]) == if last.block.OutToolUse? then {last.block.id} else {};
      assert NativeResults([last]) == if last.block.OutToolResult? then {last.block.id} else {};
    }
  }

  lemma {:induction false} AsManyAsElements(s: seq<string>)
    ensures |Elements(s)| <= |s| && (|Elements(s)| == |s| <==> Distinct(s))
  {
    if s != [] {
      var init, last := s[..|s| - 1], s[|s| - 1];
      AsManyAsElements(init);
      ElementsSnoc(init, last);
      assert s == init + [last];
      if last in init {
        var k :| 0 <= k < |init| && init[k] == last;
        assert s[k] == s[|s| - 1];
        assert Elements(init) + {last} == Elements(init);
      }
    }
  }

  /** Where an id comes from. */
  lemma {:induction false} ReplyAt(blocks: seq<Placed>, r: nat) returns (q: nat)
    requires r < |ReplyIds(blocks)|
    ensures q < |blocks| && blocks[q].block.OutToolResult? && ReplyIds(blocks)[r] == blocks[q].block.id
    ensures |ReplyIds(blocks[..q])| == r
    decreases |blocks|
  {
    var init := blocks[..|blocks| - 1];
    if r < |ReplyIds(init)| {
      q := ReplyAt(init, r);
      assert init[..q] == blocks[..q];
    } else {
      q := |blocks| - 1;
    }
  }

  lemma RepliesAreDistinct(t: Turn)
    requires t.side == UserSide && Shape(t)
    ensures Distinct(ReplyIds(t.content))
  {
    var k: nat :| UserShape(t.content, k);
    hide ReplyIds, Ordered;
    var ids := ReplyIds(t.content);
    forall i, j | 0 <= i < j < |ids|
      ensures ids[i] != ids[j]
    {
      var p := ReplyAt(t.content, i);
      var q := ReplyAt(t.content, j);
      assert p != q;
    }
  }

  /** The native calls of an assistant turn meet the native results of the next turn one to one if and only
      if no call id occurs twice; the results never repeat an id. */
  lemma CallsMatchOneToOneIff(ms: seq<RichMessage>, k: nat)
    requires k + 1 < |Render(ms).messages| && Render(ms).messages[k].side == AssistantSide
    ensures var t := Render(ms).messages; var calls, replies := CallIds(t[k].content), ReplyIds(t[k + 1].content);
            && Elements(calls) == Elements(replies) && Distinct(replies)
            && (|calls| == |replies| <==> Distinct(calls))
  {
    var t := Render(ms).messages;
    ToolCallsArePaired(ms, k);
    TurnsKeepShape(ms, k + 1);
    hide Render;
    IdsOfTurn(t[k].content);
    IdsOfTurn(t[k + 1].content);
    RepliesAreDistinct(t[k + 1]);
    AsManyAsElements(CallIds(t[k].content));
    AsManyAsElements(ReplyIds(t[k + 1].content));
  }
}
