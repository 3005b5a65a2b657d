/** Where cache breakpoints land in the rendered turns. */
module AnthropicBreakpoints {
  import opened Naturals
  import opened AnthropicRender
  import opened AnthropicConservation
  import opened AnthropicOrder

  // ----- cache breakpoints -----

  lemma {:induction false} SegmentCache(ms: seq<RichMessage>, n: nat)
    requires n <= |ms|
    ensures forall k | 0 <= k < |Segments(ms, n)| :: var seg := Segments(ms, n)[k];
              seg.msgs != [] && seg.msgs[|seg.msgs| - 1] < n && seg.cache == ms[seg.msgs[|seg.msgs| - 1]].cached
  {
    if n > 0 {
      SegmentCache(ms, n - 1);
    }
  }

  lemma {:induction false} RawUncached(ss: seq<Source>, pending: set<string>)
    ensures forall p | p in UserSplit(ss, pending).results || p in UserSplit(ss, pending).others :: !p.cache
  {
    hide RenderBlock, OtherBlock;
    if ss != [] {
      RawUncached(ss[..|ss| - 1], pending);
    }
  }

  /** Only the last block of a segment can carry a breakpoint, and only when the segment asks for one. */
  lemma SegmentBreakpoints(ms: seq<RichMessage>, segs: seq<Segment>, i: nat, k: nat)
    requires AllInRange(segs, |ms|) && i < |segs| && k < |SegmentBlocks(ms, segs, i)|
    ensures SegmentBlocks(ms, segs, i)[k].cache ==> segs[i].cache && k == |SegmentBlocks(ms, segs, i)| - 1
  {
    assert AllBelow(segs[i].msgs, |ms|);
    var ss := SegmentSources(ms, segs[i].msgs);
    if segs[i].side == UserSide {
      var pending := SegmentUseIds(ms, segs, i - 1);
      RawUncached(ss, pending);
      var raw := UserBlocks(ss, pending);
      assert raw[k] in raw;
    }
  }

  /** `a` is an annotated source message whose blocks, with all earlier ones, fill exactly `f[..q + 1]`. */
  ghost predicate Separates(ms: seq<RichMessage>, f: seq<Placed>, q: nat, a: nat) {
    && a < |ms| && ms[a].cached && !ms[a].role.System?
    && forall t | 0 <= t < |f| :: t <= q <==> f[t].origin <= a
  }

  lemma {:induction false} BreakpointsSeparate(ms: seq<RichMessage>, n: nat, q: nat) returns (a: nat)
    requires var segs := Segments(ms, |ms|); AllInRange(segs, |ms|) && n <= |segs|
    requires q < |FlatSegments(ms, Segments(ms, |ms|), n)| && FlatSegments(ms, Segments(ms, |ms|), n)[q].cache
    ensures Separates(ms, FlatSegments(ms, Segments(ms, |ms|), n), q, a)
    ensures a in SegmentIndices(Segments(ms, |ms|), n)
  {
    hide SegmentBlocks, Segments, Increasing, Shape;
    var segs := Segments(ms, |ms|);
    var f: seq<Placed>, blocks: seq<Placed> := FlatSegments(ms, segs, n - 1), SegmentBlocks(ms, segs, n - 1);
    SegmentsPartition(ms, |ms|);
    TurnIndicesIncrease(ms, |ms|);
    IndicesPrefix(segs, n - 1, |segs|);
    SegmentShape(ms, segs, n - 1);
    var seg := segs[n - 1];
    if q < |f| {
      a := BreakpointsSeparate(ms, n - 1, q);
      forall t | |f| <= t < |f| + |blocks|
        ensures (f + blocks)[t].origin > a
      {
        assert blocks[t - |f|] in blocks;
      }
    } else {
      SegmentBreakpoints(ms, segs, n - 1, q - |f|);
      SegmentCache(ms, |ms|);
      a := seg.msgs[|seg.msgs| - 1];
      assert a in seg.msgs;
      IndicesAreTurns(ms, n - 1, a);
      forall t | 0 <= t < |f| + |blocks|
        ensures (f + blocks)[t].origin <= a
      {
        if t < |f| {
          assert f[t] in f;
          var k := FlatShows(ms, segs, n - 1, f[t]);
        } else {
          assert blocks[t - |f|] in blocks;
          LastIsLargest(seg.msgs, blocks[t - |f|].origin);
        }
      }
    }
  }

  lemma IndicesAreTurns(ms: seq<RichMessage>, k: nat, a: nat)
    requires var segs := Segments(ms, |ms|); k < |segs| && a in segs[k].msgs
    ensures a < |ms| && !ms[a].role.System?
  {
    var segs := Segments(ms, |ms|);
    SegmentsPartition(ms, |ms|);
    MemberOfIndices(segs, |segs|, k, a);
    TurnIndicesAre(ms, |ms|, a);
  }

  lemma {:induction false} MemberOfIndices(segs: seq<Segment>, n: nat, k: nat, a: nat)
    requires k < n <= |segs| && a in segs[k].msgs
    ensures a in SegmentIndices(segs, n)
  {
    if k < n - 1 {
      MemberOfIndices(segs, n - 1, k, a);
    }
  }

  lemma LastIsLargest(idxs: seq<nat>, x: nat)
    requires Increasing(idxs) && x in idxs
    ensures x <= idxs[|idxs| - 1]
  {
    var k :| 0 <= k < |idxs| && idxs[k] == x;
    if k < |idxs| - 1 {
      assert idxs[k] < idxs[|idxs| - 1];
    }
  }

  /** Every cache breakpoint in the rendered messages sits after all blocks of the non-system messages up
      to and including an annotated one, and before all blocks of later ones, despite coalescing, the
      results-first reordering and the merging past empty segments. */
  lemma BreakpointsAreSound(ms: seq<RichMessage>, q: nat) returns (a: nat)
    requires q < |AllBlocks(Render(ms).messages)| && AllBlocks(Render(ms).messages)[q].cache
    ensures Separates(ms, AllBlocks(Render(ms).messages), q, a)
  {
    var segs := Segments(ms, |ms|);
    SegmentsInRange(ms, |ms|);
    FlatTurns(ms, segs, |segs|);
    a := BreakpointsSeparate(ms, |segs|, q);
  }

  function Breakpoints(ps: seq<Placed>): nat {
    if ps == [] then 0 else Breakpoints(ps[..|ps| - 1]) + (if ps[|ps| - 1].cache then 1 else 0)
  }

  function Annotations(ms: seq<RichMessage>, n: nat): nat
    requires n <= |ms|
  {
    if n == 0 then 0
    else Annotations(ms, n - 1) + (if ms[n - 1].cached && !ms[n - 1].role.System? then 1 else 0)
  }

  lemma {:induction false} BreakpointsUpTo(ms: seq<RichMessage>, f: seq<Placed>, k: nat, bound: nat)
    requires k <= |f| && bound <= |ms|
    requires forall q: nat | q < |f| && f[q].cache :: exists a: nat :: Separates(ms, f, q, a)
    requires forall q: nat, a: nat | q < k && Separates(ms, f, q, a) :: a < bound
    ensures Breakpoints(f[..k]) <= Annotations(ms, bound)
    decreases k
  {
    if k > 0 {
      assert f[..k][..k - 1] == f[..k - 1];
      if f[k - 1].cache {
        var a: nat :| Separates(ms, f, k - 1, a);
        forall q: nat, a': nat | q < k - 1 && Separates(ms, f, q, a')
          ensures a' < a
        {
          assert !(k - 1 <= q);
          assert f[k - 1].origin > a';
          assert f[k - 1].origin <= a;
        }
        BreakpointsUpTo(ms, f, k - 1, a);
        AnnotationsGrow(ms, a + 1, bound);
      } else {
        BreakpointsUpTo(ms, f, k - 1, bound);
      }
    }
  }

  lemma {:induction false} AnnotationsGrow(ms: seq<RichMessage>, a: nat, b: nat)
    requires a <= b <= |ms|
    ensures Annotations(ms, a) <= Annotations(ms, b)
  {
    if a < b {
      AnnotationsGrow(ms, a, b - 1);
    }
  }

  /** Breakpoints never outnumber the annotated messages. */
  lemma BreakpointsAreFew(ms: seq<RichMessage>)
    ensures Breakpoints(AllBlocks(Render(ms).messages)) <= Annotations(ms, |ms|)
  {
    hide Render, AllBlocks;
    var f := AllBlocks(Render(ms).messages);
    forall q: nat | q < |f| && f[q].cache
      ensures exists a: nat :: Separates(ms, f, q, a)
    {
      var a := BreakpointsAreSound(ms, q);
    }
    BreakpointsUpTo(ms, f, |f|, |ms|);
    assert f[..|f|] == f;
  }
}
