/** The block-preserving Anthropic renderer of providers/anthropic.rs. */
module AnthropicRender {
  import opened Naturals
  import opened Options
  import opened Messages

  datatype ImageSource = Base64(mediaType: string, data: string) | Url(url: string)

  datatype Block =
    | Text(text: string)
    | Thinking(text: string)
    | Image(source: ImageSource, alt: Option<string>)
    | ToolUse(id: string, name: string, input: string)
    | ToolResult(id: string, isError: bool, content: seq<Block>)
    | Reference(kind: string, idOrPath: string)

  datatype Content = Flat(text: string) | Blocks(blocks: seq<Block>)

  /** `cached` says whether the message carries the cache annotation. */
  datatype RichMessage = RichMessage(role: Role, content: Content, cached: bool)

  /** Blocks of the provider payload. */
  datatype OutBlock =
    | OutText(text: string)
    | OutImage(source: ImageSource)
    | OutToolUse(id: string, name: string, input: string)
    | OutToolResult(id: string, isError: bool, nested: seq<OutBlock>)

  /** A payload block with its cache breakpoint flag, and the position of the source block it renders:
      message index and block index. */
  datatype Placed = Placed(origin: nat, index: nat, block: OutBlock, cache: bool)

  datatype Side = AssistantSide | UserSide

  datatype Turn = Turn(side: Side, content: seq<Placed>)

  // ----- single blocks -----

  function UseText(id: string, name: string): string {
    "[tool_use " + name + " (" + id + ")]"
  }

  function ResultText(id: string): string {
    "[tool_result for " + id + "]"
  }

  function ReferenceText(kind: string, idOrPath: string): string {
    "[" + kind + ": " + idOrPath + "]"
  }

  function RenderNested(b: Block): OutBlock {
    match b
    case Text(text) => OutText(text)
    case Thinking(text) => OutText(text)
    case Image(source, _) => OutImage(source)
    case Reference(kind, idOrPath) => OutText(ReferenceText(kind, idOrPath))
    case ToolUse(id, name, _) => OutText(UseText(id, name))
    case ToolResult(id, _, _) => OutText(ResultText(id))
  }

  function RenderBlock(b: Block): OutBlock {
    match b
    case Text(text) => OutText(text)
    case Thinking(text) => OutText(text)
    case Image(source, _) => OutImage(source)
    case ToolUse(id, name, input) => OutToolUse(id, name, input)
    case ToolResult(id, isError, content) => OutToolResult(id, isError, seq(|content|, i requires 0 <= i < |content| => RenderNested(content[i])))
    case Reference(kind, idOrPath) => OutText(ReferenceText(kind, idOrPath))
  }

  function InnerText(b: Block): string {
    match b
    case Text(text) => text
    case Thinking(text) => text
    case Image(_, _) => "[image]"
    case Reference(kind, idOrPath) => ReferenceText(kind, idOrPath)
    case ToolUse(id, name, _) => UseText(id, name)
    case ToolResult(id, _, _) => ResultText(id)
  }

  function JoinInner(bs: seq<Block>): string {
    if bs == [] then "" else if |bs| == 1 then InnerText(bs[0]) else InnerText(bs[0]) + " " + JoinInner(bs[1..])
  }

  function ToolResultText(bs: seq<Block>): string {
    if bs == [] then "" else ": " + JoinInner(bs)
  }

  // ----- source positions -----

  datatype Source = Source(origin: nat, index: nat, block: Block)

  function BlocksOf(m: RichMessage): seq<Block> {
    match m.content
    case Flat(text) => [Text(text)]
    case Blocks(blocks) => blocks
  }

  function SourcesOf(ms: seq<RichMessage>, i: nat): seq<Source>
    requires i < |ms|
  {
    var bs := BlocksOf(ms[i]);
    seq(|bs|, k requires 0 <= k < |bs| => Source(i, k, bs[k]))
  }

  function UseIds(ss: seq<Source>): set<string> {
    set s | s in ss && s.block.ToolUse? :: s.block.id
  }

  function ResultIds(ss: seq<Source>): set<string> {
    set s | s in ss && s.block.ToolResult? :: s.block.id
  }

  // ----- segments -----

  /** Consecutive same-side source messages, by index. */
  datatype Segment = Segment(side: Side, msgs: seq<nat>, cache: bool)

  function SideOf(m: RichMessage): Side {
    if m.role.Assistant? then AssistantSide else UserSide
  }

  function AddToSegments(segs: seq<Segment>, side: Side, i: nat, cache: bool): seq<Segment> {
    if segs != [] && segs[|segs| - 1].side == side
    then segs[|segs| - 1 := segs[|segs| - 1].(msgs := segs[|segs| - 1].msgs + [i], cache := cache)]
    else segs + [Segment(side, [i], cache)]
  }

  /** The segments of the first `n` messages; system messages are set apart. */
  function Segments(ms: seq<RichMessage>, n: nat): seq<Segment>
    requires n <= |ms|
  {
    if n == 0 then []
    else if ms[n - 1].role.System? then Segments(ms, n - 1)
    else AddToSegments(Segments(ms, n - 1), SideOf(ms[n - 1]), n - 1, ms[n - 1].cached)
  }

  predicate AllInRange(segs: seq<Segment>, n: nat) {
    forall k | 0 <= k < |segs| :: AllBelow(segs[k].msgs, n)
  }

  function SegmentSources(ms: seq<RichMessage>, idxs: seq<nat>): seq<Source>
    requires AllBelow(idxs, |ms|)
  {
    if idxs == [] then [] else SegmentSources(ms, idxs[..|idxs| - 1]) + SourcesOf(ms, idxs[|idxs| - 1])
  }

  // ----- rendering one segment -----

  function AssistantBlock(b: Block, answered: set<string>): OutBlock {
    match b
    case ToolUse(id, name, _) => if id in answered then RenderBlock(b) else OutText(UseText(id, name))
    case ToolResult(id, _, _) => OutText(ResultText(id))
    case _ => RenderBlock(b)
  }

  function AssistantBlocks(ss: seq<Source>, answered: set<string>): (out: seq<Placed>)
    ensures |out| == |ss|
  {
    seq(|ss|, k requires 0 <= k < |ss| => Placed(ss[k].origin, ss[k].index, AssistantBlock(ss[k].block, answered), false))
  }

  function OtherBlock(b: Block): OutBlock {
    match b
    case ToolResult(id, _, content) => OutText(ResultText(id) + ToolResultText(content))
    case ToolUse(id, name, _) => OutText(UseText(id, name))
    case _ => RenderBlock(b)
  }

  datatype Split = Split(results: seq<Placed>, others: seq<Placed>, pending: set<string>)

  /** Native results and everything else, in order, and the calls still unanswered. */
  function UserSplit(ss: seq<Source>, pending: set<string>): Split {
    if ss == [] then Split([], [], pending)
    else
      var before := UserSplit(ss[..|ss| - 1], pending);
      var s := ss[|ss| - 1];
      if s.block.ToolResult? && s.block.id in before.pending
      then Split(before.results + [Placed(s.origin, s.index, RenderBlock(s.block), false)], before.others, before.pending - {s.block.id})
      else before.(others := before.others + [Placed(s.origin, s.index, OtherBlock(s.block), false)])
  }

  function UserBlocks(ss: seq<Source>, pending: set<string>): seq<Placed> {
    UserSplit(ss, pending).results + UserSplit(ss, pending).others
  }

  function MarkLast(blocks: seq<Placed>, cache: bool): seq<Placed> {
    if cache && blocks != [] then blocks[|blocks| - 1 := blocks[|blocks| - 1].(cache := true)] else blocks
  }

  function SegmentResultIds(ms: seq<RichMessage>, segs: seq<Segment>, i: int): set<string>
    requires AllInRange(segs, |ms|)
  {
    if 0 <= i < |segs| && segs[i].side == UserSide then ResultIds(SegmentSources(ms, segs[i].msgs)) else {}
  }

  function SegmentUseIds(ms: seq<RichMessage>, segs: seq<Segment>, i: int): set<string>
    requires AllInRange(segs, |ms|)
  {
    if 0 <= i < |segs| && segs[i].side == AssistantSide then UseIds(SegmentSources(ms, segs[i].msgs)) else {}
  }

  function SegmentBlocks(ms: seq<RichMessage>, segs: seq<Segment>, i: nat): seq<Placed>
    requires AllInRange(segs, |ms|)
    requires i < |segs|
  {
    var ss := SegmentSources(ms, segs[i].msgs);
    MarkLast(
      if segs[i].side == AssistantSide then AssistantBlocks(ss, SegmentResultIds(ms, segs, i + 1))
      else UserBlocks(ss, SegmentUseIds(ms, segs, i - 1)),
      segs[i].cache)
  }

  // ----- turns -----

  function PushTurn(turns: seq<Turn>, side: Side, blocks: seq<Placed>): seq<Turn> {
    if turns != [] && turns[|turns| - 1].side == side
    then turns[|turns| - 1 := turns[|turns| - 1].(content := turns[|turns| - 1].content + blocks)]
    else turns + [Turn(side, blocks)]
  }

  /** The turns after the first `n` segments; segments without blocks are skipped. */
  function Turns(ms: seq<RichMessage>, segs: seq<Segment>, n: nat): seq<Turn>
    requires AllInRange(segs, |ms|)
    requires n <= |segs|
  {
    if n == 0 then []
    else if SegmentBlocks(ms, segs, n - 1) == [] then Turns(ms, segs, n - 1)
    else PushTurn(Turns(ms, segs, n - 1), segs[n - 1].side, SegmentBlocks(ms, segs, n - 1))
  }

  // ----- the system field -----

  function SystemBlock(b: Block): OutBlock {
    match b
    case Text(text) => OutText(text)
    case Thinking(text) => OutText(text)
    case Image(_, alt) => OutText(if alt.Some? then alt.value else "[image]")
    case ToolUse(id, name, _) => OutText(UseText(id, name))
    case ToolResult(id, _, _) => OutText(ResultText(id))
    case Reference(kind, idOrPath) => OutText(ReferenceText(kind, idOrPath))
  }

  function SystemBlocks(ms: seq<RichMessage>, i: nat): seq<Placed>
    requires i < |ms|
  {
    var ss := SourcesOf(ms, i);
    MarkLast(seq(|ss|, k requires 0 <= k < |ss| => Placed(ss[k].origin, ss[k].index, SystemBlock(ss[k].block), false)), ms[i].cached)
  }

  function SystemField(ms: seq<RichMessage>, n: nat): seq<Placed>
    requires n <= |ms|
  {
    if n == 0 then []
    else if ms[n - 1].role.System? then SystemField(ms, n - 1) + SystemBlocks(ms, n - 1)
    else SystemField(ms, n - 1)
  }

  datatype Rendered = Rendered(system: seq<Placed>, messages: seq<Turn>)

  lemma {:induction false} SegmentsInRange(ms: seq<RichMessage>, n: nat)
    requires n <= |ms|
    ensures AllInRange(Segments(ms, n), n)
  {
    if n > 0 {
      SegmentsInRange(ms, n - 1);
    }
  }

  function Render(ms: seq<RichMessage>): Rendered {
    SegmentsInRange(ms, |ms|);
    var segs := Segments(ms, |ms|);
    Rendered(SystemField(ms, |ms|), Turns(ms, segs, |segs|))
  }

  // ----- the code -----

  method CollectToolUseIds(ms: seq<RichMessage>, seg: Segment) returns (ids: set<string>)
    requires AllBelow(seg.msgs, |ms|)
    ensures ids == UseIds(SegmentSources(ms, seg.msgs))
  {
    ids := {};
    for k := 0 to |seg.msgs|
      invariant ids == UseIds(SegmentSources(ms, seg.msgs[..k]))
    {
      assert seg.msgs[..k + 1][..k] == seg.msgs[..k];
      var ss := SourcesOf(ms, seg.msgs[k]);
      ghost var before := SegmentSources(ms, seg.msgs[..k]);
      assert before + ss[..0] == before;
      for j := 0 to |ss|
        invariant ids == UseIds(before + ss[..j])
      {
        assert before + ss[..j + 1] == before + ss[..j] + [ss[j]];
        UseIdsSnoc(before + ss[..j], ss[j]);
        if ss[j].block.ToolUse? {
          ids := ids + {ss[j].block.id};
        }
      }
      assert ss[..|ss|] == ss;
    }
    assert seg.msgs[..|seg.msgs|] == seg.msgs;
  }

  method CollectToolResultIds(ms: seq<RichMessage>, seg: Segment) returns (ids: set<string>)
    requires AllBelow(seg.msgs, |ms|)
    ensures ids == ResultIds(SegmentSources(ms, seg.msgs))
  {
    ids := {};
    for k := 0 to |seg.msgs|
      invariant ids == ResultIds(SegmentSources(ms, seg.msgs[..k]))
    {
      assert seg.msgs[..k + 1][..k] == seg.msgs[..k];
      var ss := SourcesOf(ms, seg.msgs[k]);
      ghost var before := SegmentSources(ms, seg.msgs[..k]);
      assert before + ss[..0] == before;
      for j := 0 to |ss|
        invariant ids == ResultIds(before + ss[..j])
      {
        assert before + ss[..j + 1] == before + ss[..j] + [ss[j]];
        ResultIdsSnoc(before + ss[..j], ss[j]);
        if ss[j].block.ToolResult? {
          ids := ids + {ss[j].block.id};
        }
      }
      assert ss[..|ss|] == ss;
    }
    assert seg.msgs[..|seg.msgs|] == seg.msgs;
  }

  lemma UseIdsSnoc(ss: seq<Source>, s: Source)
    ensures UseIds(ss + [s]) == UseIds(ss) + if s.block.ToolUse? then {s.block.id} else {}
  {
    assert forall x :: x in ss + [s] <==> x in ss || x == s;
  }

  lemma ResultIdsSnoc(ss: seq<Source>, s: Source)
    ensures ResultIds(ss + [s]) == ResultIds(ss) + if s.block.ToolResult? then {s.block.id} else {}
  {
    assert forall x :: x in ss + [s] <==> x in ss || x == s;
  }

  method RenderAssistantSegment(ms: seq<RichMessage>, seg: Segment, answered: set<string>) returns (out: seq<Placed>)
    requires AllBelow(seg.msgs, |ms|)
    ensures out == AssistantBlocks(SegmentSources(ms, seg.msgs), answered)
  {
    out := [];
    for k := 0 to |seg.msgs|
      invariant out == AssistantBlocks(SegmentSources(ms, seg.msgs[..k]), answered)
    {
      assert seg.msgs[..k + 1][..k] == seg.msgs[..k];
      var ss := SourcesOf(ms, seg.msgs[k]);
      ghost var before := SegmentSources(ms, seg.msgs[..k]);
      assert before + ss[..0] == before;
      for j := 0 to |ss|
        invariant out == AssistantBlocks(before + ss[..j], answered)
      {
        assert before + ss[..j + 1] == before + ss[..j] + [ss[j]];
        out := out + [Placed(ss[j].origin, ss[j].index, AssistantBlock(ss[j].block, answered), false)];
      }
      assert ss[..|ss|] == ss;
    }
    assert seg.msgs[..|seg.msgs|] == seg.msgs;
  }

  method RenderUserSegment(ms: seq<RichMessage>, seg: Segment, pending0: set<string>) returns (out: seq<Placed>)
    requires AllBelow(seg.msgs, |ms|)
    ensures out == UserBlocks(SegmentSources(ms, seg.msgs), pending0)
  {
    hide OtherBlock, RenderBlock, SourcesOf;
    var results: seq<Placed>, others: seq<Placed>, pending := [], [], pending0;
    for k := 0 to |seg.msgs|
      invariant Split(results, others, pending) == UserSplit(SegmentSources(ms, seg.msgs[..k]), pending0)
    {
      assert seg.msgs[..k + 1][..k] == seg.msgs[..k];
      var ss := SourcesOf(ms, seg.msgs[k]);
      ghost var before := SegmentSources(ms, seg.msgs[..k]);
      assert before + ss[..0] == before;
      for j := 0 to |ss|
        invariant Split(results, others, pending) == UserSplit(before + ss[..j], pending0)
      {
        var s := ss[j];
        ghost var longer := before + ss[..j + 1];
        assert longer[..|longer| - 1] == before + ss[..j] && longer[|longer| - 1] == s;
        if s.block.ToolResult? && s.block.id in pending {
          pending := pending - {s.block.id};
          results := results + [Placed(s.origin, s.index, RenderBlock(s.block), false)];
        } else {
          others := others + [Placed(s.origin, s.index, OtherBlock(s.block), false)];
        }
      }
      assert ss[..|ss|] == ss;
    }
    assert seg.msgs[..|seg.msgs|] == seg.msgs;
    out := results + others;
  }

  method RenderCacheControlRich(ms: seq<RichMessage>) returns (rendered: Rendered)
    ensures rendered == Render(ms)
  {
    hide SegmentSources, SourcesOf, AssistantBlocks, UserBlocks, ResultIds, UseIds, MarkLast;
    var system: seq<Placed>, segments: seq<Segment> := [], [];
    for i := 0 to |ms|
      invariant system == SystemField(ms, i)
      invariant segments == Segments(ms, i)
    {
      if ms[i].role.System? {
        system := system + SystemBlocks(ms, i);
      } else {
        var side := SideOf(ms[i]);
        if segments != [] && segments[|segments| - 1].side == side {
          var last := segments[|segments| - 1];
          segments := segments[|segments| - 1 := last.(msgs := last.msgs + [i], cache := ms[i].cached)];
        } else {
          segments := segments + [Segment(side, [i], ms[i].cached)];
        }
      }
    }
    SegmentsInRange(ms, |ms|);
    var turns: seq<Turn> := [];
    for i := 0 to |segments|
      invariant turns == Turns(ms, segments, i)
    {
      var seg := segments[i];
      var blocks;
      if seg.side == AssistantSide {
        var answered: set<string> := {};
        if i + 1 < |segments| && segments[i + 1].side == UserSide {
          answered := CollectToolResultIds(ms, segments[i + 1]);
        }
        blocks := RenderAssistantSegment(ms, seg, answered);
      } else {
        var pending: set<string> := {};
        if i > 0 && segments[i - 1].side == AssistantSide {
          pending := CollectToolUseIds(ms, segments[i - 1]);
        }
        blocks := RenderUserSegment(ms, seg, pending);
      }
      blocks := MarkLast(blocks, seg.cache);
      if blocks != [] {
        turns := PushTurn(turns, seg.side, blocks);
      }
    }
    rendered := Rendered(system, turns);
  }
}
