/** What must be native and where a breakpoint must appear, in terms of runs of messages of one side. */
module AnthropicRuns {
  import opened Naturals
  import opened AnthropicRender
  import opened AnthropicPairing
  import opened AnthropicConservation
  import opened AnthropicOrder
  import opened AnthropicBreakpoints

  // ----- runs and segments -----

  predicate IsTurn(ms: seq<RichMessage>, i: nat) {
    i < |ms| && !ms[i].role.System?
  }

  /** The non-system messages of `[i, j)` are all the assistant's, or all not. */
  ghost predicate SameSide(ms: seq<RichMessage>, i: nat, j: nat)
    requires i < |ms|
  {
    forall k: nat | i <= k < j && IsTurn(ms, k) :: ms[k].role.Assistant? == ms[i].role.Assistant?
  }

  /** The next non-system message after `a`, if there is one, is on the other side. */
  ghost predicate EndsRun(ms: seq<RichMessage>, a: nat)
    requires a < |ms|
  {
    forall b: nat | a < b && IsTurn(ms, b) && (forall c: nat | a < c < b :: !IsTurn(ms, c)) ::
      ms[b].role.Assistant? != ms[a].role.Assistant?
  }

  /** The last segment is the assistant's. */
  predicate LastIsAssistants(segs: seq<Segment>)
    requires segs != []
  {
    segs[|segs| - 1].side == AssistantSide
  }

  lemma OneMore(ms: seq<RichMessage>, n: nat)
    requires n < |ms|
    ensures var before, after := Segments(ms, n), Segments(ms, n + 1);
            && (!IsTurn(ms, n) ==> after == before)
            && (IsTurn(ms, n) ==>
                  if before != [] && LastIsAssistants(before) == ms[n].role.Assistant? then
                    && |after| == |before| && after[..|before| - 1] == before[..|before| - 1]
                    && after[|before| - 1].msgs == before[|before| - 1].msgs + [n] && LastIsAssistants(after) == LastIsAssistants(before)
                  else
                    && |after| == |before| + 1 && after[..|before|] == before
                    && after[|before|].msgs == [n] && LastIsAssistants(after) == ms[n].role.Assistant?)
  {
  }

  /** A run ends up in the last segment. */
  lemma {:induction false} RunIsOneSegment(ms: seq<RichMessage>, i: nat, n: nat)
    requires i < n <= |ms| && IsTurn(ms, i) && SameSide(ms, i, n)
    ensures var segs := Segments(ms, n); segs != [] && i in segs[|segs| - 1].msgs && LastIsAssistants(segs) == ms[i].role.Assistant?
    decreases n
  {
    hide Segments;
    OneMore(ms, n - 1);
    if n - 1 > i {
      RunIsOneSegment(ms, i, n - 1);
    }
  }

  lemma {:induction false} LastTurnIsLast(ms: seq<RichMessage>, a: nat)
    requires IsTurn(ms, a)
    ensures var segs := Segments(ms, a + 1); segs != [] && LastIsAssistants(segs) == ms[a].role.Assistant?
    ensures var segs := Segments(ms, a + 1); var last := segs[|segs| - 1].msgs; last != [] && last[|last| - 1] == a
  {
    hide Segments;
    OneMore(ms, a);
  }

  /** Once a run has ended its segment stays as it is. */
  lemma {:induction false} EndedRunStays(ms: seq<RichMessage>, a: nat, n: nat)
    requires a < n <= |ms| && IsTurn(ms, a) && EndsRun(ms, a)
    ensures var done, segs := Segments(ms, a + 1), Segments(ms, n);
            && done != [] && |segs| >= |done| && segs[|done| - 1] == done[|done| - 1]
            && (segs == done || |segs| > |done|)
            && ((exists c: nat :: a < c < n && IsTurn(ms, c)) ==> |segs| > |done|)
    decreases n
  {
    hide Segments;
    LastTurnIsLast(ms, a);
    if n - 1 > a {
      OneMore(ms, n - 1);
      EndedRunStays(ms, a, n - 1);
      var done, before, segs := Segments(ms, a + 1), Segments(ms, n - 1), Segments(ms, n);
      if |before| > |done| {
        assert segs[|done| - 1] == before[|done| - 1];
      }
    }
  }

  /** While a run of the other side follows, it fills the next segment. */
  lemma {:induction false} OtherSideRun(ms: seq<RichMessage>, a: nat, n: nat)
    requires a < n <= |ms| && IsTurn(ms, a)
    requires forall k: nat | a < k < n && IsTurn(ms, k) :: ms[k].role.Assistant? != ms[a].role.Assistant?
    ensures var done, segs := Segments(ms, a + 1), Segments(ms, n);
            && done != [] && (segs == done || (|segs| == |done| + 1 && LastIsAssistants(segs) != ms[a].role.Assistant?))
            && LastIsAssistants(done) == ms[a].role.Assistant?
            && (n - 1 > a && IsTurn(ms, n - 1) ==> |segs| == |done| + 1 && n - 1 in segs[|done|].msgs)
    decreases n
  {
    hide Segments;
    LastTurnIsLast(ms, a);
    if n - 1 > a {
      OneMore(ms, n - 1);
      OtherSideRun(ms, a, n - 1);
    }
  }

  /** Messages stay in their segment. */
  lemma {:induction false} SegmentsOnlyGrow(ms: seq<RichMessage>, m: nat, n: nat, k: nat)
    requires m <= n <= |ms| && k < |Segments(ms, m)|
    ensures k < |Segments(ms, n)| && forall i | i in Segments(ms, m)[k].msgs :: i in Segments(ms, n)[k].msgs
    decreases n
  {
    hide Segments;
    if m < n {
      OneMore(ms, n - 1);
      SegmentsOnlyGrow(ms, m, n - 1, k);
    }
  }

  /** A turn and one of the run of the other side that follows are in neighbouring segments. */
  lemma NeighbouringRuns(ms: seq<RichMessage>, i: nat, a: nat, u: nat) returns (k: nat)
    requires IsTurn(ms, i) && i <= a && IsTurn(ms, a) && SameSide(ms, i, a + 1)
    requires a < u && IsTurn(ms, u)
    requires forall c: nat | a < c <= u && IsTurn(ms, c) :: ms[c].role.Assistant? != ms[a].role.Assistant?
    ensures var segs := Segments(ms, |ms|); k + 1 < |segs| && i in segs[k].msgs && u in segs[k + 1].msgs
  {
    hide Segments;
    RunIsOneSegment(ms, i, a + 1);
    OtherSideRun(ms, a, u + 1);
    k := |Segments(ms, a + 1)| - 1;
    SegmentsOnlyGrow(ms, a + 1, |ms|, k);
    SegmentsOnlyGrow(ms, u + 1, |ms|, k + 1);
  }

  // ----- tool calls -----

  ghost predicate Calls(m: RichMessage, id: string) {
    exists j :: 0 <= j < |BlocksOf(m)| && BlocksOf(m)[j].ToolUse? && BlocksOf(m)[j].id == id
  }

  ghost predicate Answers(m: RichMessage, id: string) {
    exists j :: 0 <= j < |BlocksOf(m)| && BlocksOf(m)[j].ToolResult? && BlocksOf(m)[j].id == id
  }

  lemma {:induction false} SourceOfMessage(ms: seq<RichMessage>, idxs: seq<nat>, i: nat, j: nat)
    requires AllBelow(idxs, |ms|) && i in idxs && j < |BlocksOf(ms[i])|
    ensures Source(i, j, BlocksOf(ms[i])[j]) in SegmentSources(ms, idxs)
  {
    hide BlocksOf;
    if i == idxs[|idxs| - 1] {
      assert SourcesOf(ms, i)[j] in SourcesOf(ms, i);
    } else {
      assert idxs == idxs[..|idxs| - 1] + [idxs[|idxs| - 1]];
      SourceOfMessage(ms, idxs[..|idxs| - 1], i, j);
    }
  }

  lemma CallIsAUse(ms: seq<RichMessage>, segs: seq<Segment>, k: nat, i: nat, id: string)
    requires AllInRange(segs, |ms|) && k < |segs| && i in segs[k].msgs && i < |ms|
    ensures segs[k].side == AssistantSide && Calls(ms[i], id) ==> id in SegmentUseIds(ms, segs, k)
    ensures segs[k].side == UserSide && Answers(ms[i], id) ==> id in SegmentResultIds(ms, segs, k)
  {
    hide BlocksOf, SegmentSources;
    assert AllBelow(segs[k].msgs, |ms|);
    var ss := SegmentSources(ms, segs[k].msgs);
    if Calls(ms[i], id) {
      var j: nat :| j < |BlocksOf(ms[i])| && BlocksOf(ms[i])[j].ToolUse? && BlocksOf(ms[i])[j].id == id;
      SourceOfMessage(ms, segs[k].msgs, i, j);
      assert Source(i, j, BlocksOf(ms[i])[j]).block.id in UseIds(ss);
    }
    if Answers(ms[i], id) {
      var j: nat :| j < |BlocksOf(ms[i])| && BlocksOf(ms[i])[j].ToolResult? && BlocksOf(ms[i])[j].id == id;
      SourceOfMessage(ms, segs[k].msgs, i, j);
      assert Source(i, j, BlocksOf(ms[i])[j]).block.id in ResultIds(ss);
    }
  }

  /** The blocks of a segment are in one turn of the segment's side. */
  lemma {:induction false} SegmentHasATurn(ms: seq<RichMessage>, segs: seq<Segment>, n: nat, k: nat) returns (t: nat)
    requires AllInRange(segs, |ms|) && k < n <= |segs| && SegmentBlocks(ms, segs, k) != []
    ensures t < |Turns(ms, segs, n)| && Turns(ms, segs, n)[t].side == segs[k].side
    ensures forall p | p in SegmentBlocks(ms, segs, k) :: p in Turns(ms, segs, n)[t].content
  {
    hide SegmentBlocks;
    if k == n - 1 {
      t := |Turns(ms, segs, n)| - 1;
    } else {
      t := SegmentHasATurn(ms, segs, n - 1, k);
    }
  }

  /** A call of an assistant run and a result with its id in the run that answers it are both native, in
      consecutive turns. */
  lemma AnsweredCallsAreNative(ms: seq<RichMessage>, i: nat, a: nat, u: nat, id: string) returns (t: nat)
    requires IsTurn(ms, i) && i <= a && IsTurn(ms, a) && ms[i].role.Assistant? && SameSide(ms, i, a + 1)
    requires a < u && IsTurn(ms, u)
    requires forall c: nat | a < c <= u && IsTurn(ms, c) :: !ms[c].role.Assistant?
    requires Calls(ms[i], id) && Answers(ms[u], id)
    ensures var turns := Render(ms).messages;
            && t + 1 < |turns| && turns[t].side == AssistantSide && turns[t + 1].side == UserSide
            && id in NativeUses(turns[t].content) && id in NativeResults(turns[t + 1].content)
  {
    hide Segments, Turns, SegmentBlocks, Calls, Answers, SegmentUseIds, SegmentResultIds, NativeUses, NativeResults;
    var segs, turns := Segments(ms, |ms|), Render(ms).messages;
    var k := NeighbouringRuns(ms, i, a, u);
    SegmentsInRange(ms, |ms|);
    SegmentsKeepSides(ms, |ms|);
    assert SidedSegment(ms, segs[k]) && SidedSegment(ms, segs[k + 1]);
    CallIsAUse(ms, segs, k, i, id);
    CallIsAUse(ms, segs, k + 1, u, id);
    SegmentNatives(ms, segs, k);
    NativeBlock(SegmentBlocks(ms, segs, k), id);
    t := SegmentHasATurn(ms, segs, |segs|, k);
    NativesFollow(SegmentBlocks(ms, segs, k), turns[t].content, id);
    ToolCallsArePaired(ms, t);
    NextResults(turns, t, id);
  }

  lemma NativeBlock(blocks: seq<Placed>, id: string)
    requires id in NativeUses(blocks)
    ensures blocks != []
  {
  }

  lemma NativesFollow(blocks: seq<Placed>, content: seq<Placed>, id: string)
    requires id in NativeUses(blocks) && forall p | p in blocks :: p in content
    ensures id in NativeUses(content)
  {
  }

  lemma NextResults(turns: seq<Turn>, t: nat, id: string)
    requires id in ResultsAt(turns, t + 1)
    ensures t + 1 < |turns| && turns[t + 1].side == UserSide && id in NativeResults(turns[t + 1].content)
  {
  }

  // ----- breakpoints -----

  lemma FlatLast(ms: seq<RichMessage>, segs: seq<Segment>, k: nat)
    requires AllInRange(segs, |ms|) && k < |segs| && SegmentBlocks(ms, segs, k) != []
    ensures var f, blocks := FlatSegments(ms, segs, k + 1), SegmentBlocks(ms, segs, k);
            f != [] && f[|f| - 1] == blocks[|blocks| - 1]
  {
    hide SegmentBlocks;
  }

  lemma {:induction false} FlatGrows(ms: seq<RichMessage>, segs: seq<Segment>, k: nat, n: nat)
    requires AllInRange(segs, |ms|) && k <= n <= |segs|
    ensures FlatSegments(ms, segs, k) <= FlatSegments(ms, segs, n)
    decreases n
  {
    hide SegmentBlocks;
    if k < n {
      FlatGrows(ms, segs, k, n - 1);
    }
  }

  /** Everything rendered up to a segment comes from messages up to its last one. */
  lemma EarlierBlocks(ms: seq<RichMessage>, k: nat, p: Placed)
    requires var segs := Segments(ms, |ms|);
             && AllInRange(segs, |ms|) && k < |segs| && segs[k].msgs != []
             && p in FlatSegments(ms, segs, k + 1)
    ensures var msgs := Segments(ms, |ms|)[k].msgs; p.origin <= msgs[|msgs| - 1]
  {
    hide Segments, FlatSegments, Increasing, Shows;
    var segs := Segments(ms, |ms|);
    SegmentsPartition(ms, |ms|);
    TurnIndicesIncrease(ms, |ms|);
    IndicesPrefix(segs, k, |segs|);
    IndicesPrefix(segs, k + 1, |segs|);
    var i := FlatShows(ms, segs, k + 1, p);
    LastIsLargest(SegmentIndices(segs, k + 1), p.origin);
  }

  /** And everything rendered after it from later messages. */
  lemma {:induction false} LaterBlocks(ms: seq<RichMessage>, k: nat, n: nat, q: nat)
    requires var segs := Segments(ms, |ms|);
             && AllInRange(segs, |ms|) && k < n <= |segs| && segs[k].msgs != []
             && |FlatSegments(ms, segs, k + 1)| <= q < |FlatSegments(ms, segs, n)|
    ensures var segs := Segments(ms, |ms|); FlatSegments(ms, segs, n)[q].origin > segs[k].msgs[|segs[k].msgs| - 1]
    decreases n
  {
    hide Segments, SegmentBlocks, Increasing, Shape;
    var segs := Segments(ms, |ms|);
    var f: seq<Placed>, blocks: seq<Placed> := FlatSegments(ms, segs, n - 1), SegmentBlocks(ms, segs, n - 1);
    if q < |f| {
      LaterBlocks(ms, k, n - 1, q);
    } else {
      SegmentsPartition(ms, |ms|);
      TurnIndicesIncrease(ms, |ms|);
      IndicesPrefix(segs, n - 1, |segs|);
      SegmentShape(ms, segs, n - 1);
      assert blocks[q - |f|] in blocks;
      var last := segs[k].msgs[|segs[k].msgs| - 1];
      assert last in segs[k].msgs;
      if k == n - 1 {
        assert false;
      }
      MemberOfIndices(segs, n - 1, k, last);
    }
  }

  /** A run that ends with an annotated message and renders to anything ends with a breakpoint. */
  lemma BreakpointsAppear(ms: seq<RichMessage>, i: nat, a: nat) returns (q: nat)
    requires IsTurn(ms, i) && i <= a && IsTurn(ms, a) && SameSide(ms, i, a + 1) && EndsRun(ms, a)
    requires ms[a].cached && BlocksOf(ms[i]) != []
    ensures var f := AllBlocks(Render(ms).messages); q < |f| && f[q].cache && Separates(ms, f, q, a)
  {
    hide Segments, Turns, SegmentBlocks, FlatSegments, SegmentSources, BlocksOf, AllBlocks, EndsRun, SameSide;
    var segs, k := Segments(ms, |ms|), |Segments(ms, a + 1)| - 1;
    SegmentsInRange(ms, |ms|);
    RunIsOneSegment(ms, i, a + 1);
    LastTurnIsLast(ms, a);
    EndedRunStays(ms, a, |ms|);
    SegmentCache(ms, |ms|);
    SegmentRenders(ms, segs, k, i);
    SegmentMarked(ms, segs, k);
    FlatLast(ms, segs, k);
    FlatGrows(ms, segs, k + 1, |segs|);
    FlatTurns(ms, segs, |segs|);
    var f, g := FlatSegments(ms, segs, |segs|), FlatSegments(ms, segs, k + 1);
    q := |g| - 1;
    forall t | 0 <= t < |f|
      ensures t <= q <==> f[t].origin <= a
    {
      if t <= q {
        assert f[t] == g[t];
        EarlierBlocks(ms, k, g[t]);
      } else {
        LaterBlocks(ms, k, |segs|, t);
      }
    }
  }

  lemma SegmentRenders(ms: seq<RichMessage>, segs: seq<Segment>, k: nat, i: nat)
    requires AllInRange(segs, |ms|) && k < |segs| && i in segs[k].msgs && i < |ms| && BlocksOf(ms[i]) != []
    ensures SegmentBlocks(ms, segs, k) != []
  {
    hide BlocksOf, SegmentSources;
    assert AllBelow(segs[k].msgs, |ms|);
    SourceOfMessage(ms, segs[k].msgs, i, 0);
    UserSplitSize(SegmentSources(ms, segs[k].msgs), SegmentUseIds(ms, segs, k - 1));
  }

  lemma SegmentMarked(ms: seq<RichMessage>, segs: seq<Segment>, k: nat)
    requires AllInRange(segs, |ms|) && k < |segs| && segs[k].cache && SegmentBlocks(ms, segs, k) != []
    ensures var blocks := SegmentBlocks(ms, segs, k); blocks[|blocks| - 1].cache
  {
    hide SegmentSources, AssistantBlocks, UserBlocks, SegmentResultIds, SegmentUseIds;
  }
}
