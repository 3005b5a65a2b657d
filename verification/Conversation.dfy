/** The age bands of conversation.rs: summarise the old prefix, compress the middle, keep the rest. */
module Conversation {
  import opened Naturals
  import opened Messages
  import opened Agent
  import opened Summaries

  datatype BandConfig = BandConfig(preserveRecent: nat, compressMiddle: nat, summaryOld: bool)

  // ----- where the middle band starts -----

  /** The last index at or before `idx` that does not hold a tool result (or 0). */
  function AlignedStart(ms: seq<Message>, idx: nat): (r: nat)
    requires idx <= |ms|
    ensures r <= idx
    ensures forall j | r < j <= idx && j < |ms| :: IsToolRole(ms[j])
    ensures 0 < r < |ms| ==> !IsToolRole(ms[r])
  {
    if idx > 0 && idx < |ms| && IsToolRole(ms[idx]) then AlignedStart(ms, idx - 1) else idx
  }

  method AlignBandStart(ms: seq<Message>, idx0: nat) returns (idx: nat)
    requires idx0 <= |ms|
    ensures idx == AlignedStart(ms, idx0)
  {
    idx := idx0;
    while idx > 0 && idx < |ms| && IsToolRole(ms[idx])
      invariant idx <= |ms|
      invariant AlignedStart(ms, idx) == AlignedStart(ms, idx0)
    {
      idx := idx - 1;
    }
  }

  /** The first pinned message before `idx`, searching from `i`, or `idx`. */
  function ClampedStart(ms: seq<Message>, i: nat, idx: nat): (r: nat)
    requires i <= idx <= |ms|
    ensures i <= r <= idx
    ensures forall j | i <= j < r :: !IsPinned(ms[j])
    ensures r < idx ==> IsPinned(ms[r])
    decreases idx - i
  {
    if i == idx || IsPinned(ms[i]) then i else ClampedStart(ms, i + 1, idx)
  }

  function BandStart(ms: seq<Message>, cfg: BandConfig): (b: nat)
    requires cfg.preserveRecent <= |ms|
    ensures b <= |ms| - cfg.preserveRecent
    ensures forall j | 0 <= j < b :: !IsPinned(ms[j])
  {
    ClampedStart(ms, 0, AlignedStart(ms, SatSub(|ms| - cfg.preserveRecent, cfg.compressMiddle)))
  }

  /** The code promises that the summarised prefix never ends between a call and its results. Because
      the clamp runs after the alignment, the band starts on a tool result exactly when the first pinned
      message of the aligned prefix is itself a tool result that is not the very first message. */
  lemma BandStartsOnToolResultIff(ms: seq<Message>, cfg: BandConfig)
    requires 0 < cfg.preserveRecent <= |ms|
    ensures
      var aligned := AlignedStart(ms, SatSub(|ms| - cfg.preserveRecent, cfg.compressMiddle));
      var b := BandStart(ms, cfg);
      (0 < b && IsToolRole(ms[b]))
      <==>
      exists p :: 0 < p < aligned && IsPinned(ms[p]) && IsToolRole(ms[p]) && forall j | 0 <= j < p :: !IsPinned(ms[j])
  {
    var aligned := AlignedStart(ms, SatSub(|ms| - cfg.preserveRecent, cfg.compressMiddle));
    var b := BandStart(ms, cfg);
    if p :| 0 < p < aligned && IsPinned(ms[p]) && IsToolRole(ms[p]) && forall j | 0 <= j < p :: !IsPinned(ms[j]) {
      assert b == p;
    }
  }

  /** It happens: a call, its pinned result, and two later turns. */
  lemma BandMayStartOnToolResult(ms: seq<Message>)
    requires |ms| == 4 && ms[0].role.Assistant? && ms[1].role.Tool? && ms[2].role.User? && ms[3].role.User?
    requires !IsPinned(ms[0]) && IsPinned(ms[1])
    ensures var b := BandStart(ms, BandConfig(1, 0, true)); b == 1 && IsToolRole(ms[b])
  {
    var cfg := BandConfig(1, 0, true);
    assert AlignedStart(ms, 3) == 3;
    hide AlignedStart;
    assert IsToolRole(ms[1]);
    BandStartsOnToolResultIff(ms, cfg);
  }

  // ----- the three bands -----

  function SummaryMessage(turns: seq<Message>): Message {
    Message(System, "[Earlier conversation context]: " + Summarise(turns), map[])
  }

  /** One message through the pipeline: role and metadata stay, a CCR id may be added when the text changed. */
  function Rewrite(m: Message, o: PipeOut): Message {
    Message(m.role, o.content,
            if o.content != m.content && o.ccr.Some? then m.metadata[CcrId := o.ccr.value] else m.metadata)
  }

  function CompressedAt(c: Setting, step: nat, ms: seq<Message>, i: nat): Message
    requires i < |ms|
  {
    if IsPinned(ms[i]) then ms[i] else Rewrite(ms[i], c.world.pipeline(step, i))
  }

  function CompressedMiddle(c: Setting, step: nat, ms: seq<Message>): (out: seq<Message>)
    ensures |out| == |ms|
  {
    seq(|ms|, i requires 0 <= i < |ms| => CompressedAt(c, step, ms, i))
  }

  /** What the compressors stored for the first `n` messages of a band (pinned ones are run too). */
  function PipelineSaves(c: Setting, step: nat, n: nat): map<string, string> {
    if n == 0 then map[] else PipelineSaves(c, step, n - 1) + c.world.pipeline(step, n - 1).saves
  }

  function Head(c: Setting, ms: seq<Message>, cfg: BandConfig): seq<Message>
    requires cfg.preserveRecent <= |ms|
  {
    var b := BandStart(ms, cfg);
    if b > 0 && cfg.summaryOld then [SummaryMessage(ms[..b])] else []
  }

  function Middle(c: Setting, ms: seq<Message>, cfg: BandConfig): seq<Message>
    requires cfg.preserveRecent <= |ms|
  {
    Head(c, ms, cfg) + ms[BandStart(ms, cfg)..|ms| - cfg.preserveRecent]
  }

  function HistoryPass(c: Setting, step: nat, ms: seq<Message>, cfg: BandConfig): Pass {
    if |ms| <= cfg.preserveRecent then Pass(ms, map[])
    else
      var middle := Middle(c, ms, cfg);
      Pass(CompressedMiddle(c, step, middle) + ms[|ms| - cfg.preserveRecent..], PipelineSaves(c, step, |middle|))
  }

  /** DefaultCompressionPipeline::run, seen from outside: one output per input, in order. */
  method RunPipeline(c: Setting, step: nat, ms: seq<Message>) returns (out: seq<Message>, saved: map<string, string>)
    ensures |out| == |ms|
    ensures forall i | 0 <= i < |ms| :: out[i] == Rewrite(ms[i], c.world.pipeline(step, i))
    ensures saved == PipelineSaves(c, step, |ms|)
  {
    out, saved := [], map[];
    for i := 0 to |ms|
      invariant |out| == i
      invariant forall j | 0 <= j < i :: out[j] == Rewrite(ms[j], c.world.pipeline(step, j))
      invariant saved == PipelineSaves(c, step, i)
    {
      out := out + [Rewrite(ms[i], c.world.pipeline(step, i))];
      saved := saved + c.world.pipeline(step, i).saves;
    }
  }

  /** Band 2: run a band through the pipeline and put back every pinned message. */
  method CompressBand(c: Setting, step: nat, middle: seq<Message>) returns (out: seq<Message>, saved: map<string, string>)
    ensures out == CompressedMiddle(c, step, middle)
    ensures saved == PipelineSaves(c, step, |middle|)
  {
    out, saved := RunPipeline(c, step, middle);
    for i := 0 to |middle|
      invariant |out| == |middle|
      invariant forall j | 0 <= j < i :: out[j] == CompressedAt(c, step, middle, j)
      invariant forall j | i <= j < |middle| :: out[j] == Rewrite(middle[j], c.world.pipeline(step, j))
    {
      if IsPinned(middle[i]) {
        out := out[i := middle[i]];
      }
    }
  }

  /** Put a band back in front of the list, last message first. */
  method InsertFront(band: seq<Message>, rest: seq<Message>) returns (messages: seq<Message>)
    ensures messages == band + rest
  {
    messages := rest;
    for i := |band| downto 0
      invariant messages == band[i..] + rest
    {
      assert band[i..] == [band[i]] + band[i + 1..];
      messages := [band[i]] + messages;
    }
  }

  /** Band 1: the old prefix becomes one summary message, or is cut off. */
  method FoldOldTurns(c: Setting, ms: seq<Message>, cfg: BandConfig) returns (messages: seq<Message>)
    requires cfg.preserveRecent <= |ms|
    ensures messages == Head(c, ms, cfg) + ms[BandStart(ms, cfg)..]
  {
    var recentStart := |ms| - cfg.preserveRecent;
    var aligned := AlignBandStart(ms, SatSub(recentStart, cfg.compressMiddle));
    var middleStart := ClampedStart(ms, 0, aligned);
    messages := ms[middleStart..];
    if middleStart > 0 && cfg.summaryOld {
      var summary := SummariseTurns(ms[..middleStart]);
      messages := [Message(System, "[Earlier conversation context]: " + summary, map[])] + messages;
    }
  }

  lemma BandSlices(c: Setting, ms: seq<Message>, cfg: BandConfig)
    requires cfg.preserveRecent <= |ms|
    ensures Head(c, ms, cfg) + ms[BandStart(ms, cfg)..] == Middle(c, ms, cfg) + ms[|ms| - cfg.preserveRecent..]
  {
    hide *;
    SliceJoin(Head(c, ms, cfg), ms, BandStart(ms, cfg), |ms| - cfg.preserveRecent);
    MiddleIs(c, ms, cfg);
  }

  lemma MiddleIs(c: Setting, ms: seq<Message>, cfg: BandConfig)
    requires cfg.preserveRecent <= |ms|
    ensures Middle(c, ms, cfg) == Head(c, ms, cfg) + ms[BandStart(ms, cfg)..|ms| - cfg.preserveRecent]
  {
  }

  lemma SliceJoin<T>(a: seq<T>, ms: seq<T>, b: nat, rs: nat)
    requires b <= rs <= |ms|
    ensures a + ms[b..] == (a + ms[b..rs]) + ms[rs..]
  {
  }

  method CompressConversationHistory(c: Setting, step: nat, ms: seq<Message>, cfg: BandConfig)
    returns (messages: seq<Message>, saved: map<string, string>)
    ensures Pass(messages, saved) == HistoryPass(c, step, ms, cfg)
  {
    hide *;
    HistoryIs(c, step, ms, cfg);
    if |ms| <= cfg.preserveRecent {
      return ms, map[];
    }
    messages := FoldOldTurns(c, ms, cfg);
    BandSlices(c, ms, cfg);
    RecentIsSuffix(messages, Middle(c, ms, cfg), ms[|ms| - cfg.preserveRecent..]);
    var compressEnd := SatSub(|messages|, cfg.preserveRecent);
    var middle, rest := messages[..compressEnd], messages[compressEnd..];
    messages, saved := rest, map[];
    NothingToCompress(c, step);
    if compressEnd > 0 {
      var compressed;
      compressed, saved := CompressBand(c, step, middle);
      messages := InsertFront(compressed, messages);
    } else {
      assert middle == [] && [] + rest == rest;
    }
  }

  lemma HistoryIs(c: Setting, step: nat, ms: seq<Message>, cfg: BandConfig)
    ensures HistoryPass(c, step, ms, cfg) ==
            if |ms| <= cfg.preserveRecent then Pass(ms, map[])
            else Pass(CompressedMiddle(c, step, Middle(c, ms, cfg)) + ms[|ms| - cfg.preserveRecent..],
                      PipelineSaves(c, step, |Middle(c, ms, cfg)|))
  {
  }

  lemma RecentIsSuffix(messages: seq<Message>, middle: seq<Message>, recent: seq<Message>)
    requires messages == middle + recent
    ensures SatSub(|messages|, |recent|) == |middle|
    ensures messages[..|middle|] == middle && messages[|middle|..] == recent
  {
  }

  lemma NothingToCompress(c: Setting, step: nat)
    ensures CompressedMiddle(c, step, []) == [] && PipelineSaves(c, step, 0) == map[]
  {
  }

  /** A summarising pass puts exactly one message in the place of the prefix before its band: a system
      message with the summary of that prefix, as the compressor returns it. Without a prefix, or without
      summarising, it puts none. */
  lemma PrefixBecomesSummary(c: Setting, step: nat, ms: seq<Message>, cfg: BandConfig)
    requires |ms| > cfg.preserveRecent
    ensures var b, out := BandStart(ms, cfg), HistoryPass(c, step, ms, cfg).messages;
            if b > 0 && cfg.summaryOld then
              && |out| == 1 + |ms| - b && out[0].role == System && out[0].metadata.Keys <= {CcrId}
              && out[0].content == c.world.pipeline(step, 0).content
              && out[0] == Rewrite(SummaryMessage(ms[..b]), c.world.pipeline(step, 0))
            else |out| == |ms| - b
  {
    hide BandStart, Summarise;
    var b := BandStart(ms, cfg);
    if b > 0 && cfg.summaryOld {
      assert Middle(c, ms, cfg)[0] == SummaryMessage(ms[..b]);
    }
  }

  /** What becomes of each message after the prefix: pinned and recent ones are verbatim, and every other
      one has the text the compressor returns for it. */
  lemma BandIsCompressed(c: Setting, step: nat, ms: seq<Message>, cfg: BandConfig, i: nat)
    requires |ms| > cfg.preserveRecent && BandStart(ms, cfg) <= i < |ms|
    ensures var out, k := HistoryPass(c, step, ms, cfg).messages, i - BandStart(ms, cfg) + |Head(c, ms, cfg)|;
            && k < |out|
            && if i >= |ms| - cfg.preserveRecent || IsPinned(ms[i]) then out[k] == ms[i]
               else
                 && out[k].content == c.world.pipeline(step, k).content && out[k].role == ms[i].role
                 && out[k].metadata == (if c.world.pipeline(step, k).content != ms[i].content && c.world.pipeline(step, k).ccr.Some?
                                        then ms[i].metadata[CcrId := c.world.pipeline(step, k).ccr.value] else ms[i].metadata)
  {
    hide BandStart, Summarise;
    BandSlices(c, ms, cfg);
  }

  // ----- what a band pass keeps -----

  lemma HistoryKeepsRecent(c: Setting, step: nat, ms: seq<Message>, cfg: BandConfig, k: nat)
    requires k <= cfg.preserveRecent && k <= |ms|
    ensures var out := HistoryPass(c, step, ms, cfg).messages;
            SameSuffix(out, ms, k)
  {
  }

  lemma CompressionKeepsPinned(c: Setting, step: nat, ms: seq<Message>)
    ensures Where(IsPinned, CompressedMiddle(c, step, ms)) == Where(IsPinned, ms)
  {
    WherePointwise(IsPinned, ms, CompressedMiddle(c, step, ms));
  }

  /** Pinned messages come through verbatim and in order, and nothing becomes pinned. */
  lemma HistoryKeepsPinned(c: Setting, step: nat, ms: seq<Message>, cfg: BandConfig)
    ensures Where(IsPinned, HistoryPass(c, step, ms, cfg).messages) == Where(IsPinned, ms)
  {
    hide Where;
    if |ms| > cfg.preserveRecent {
      var recent, middle := ms[|ms| - cfg.preserveRecent..], Middle(c, ms, cfg);
      CompressionKeepsPinned(c, step, middle);
      WhereConcat(IsPinned, CompressedMiddle(c, step, middle), recent);
      WhereConcat(IsPinned, middle, recent);
      WherePrefix(IsPinned, Head(c, ms, cfg), ms, BandStart(ms, cfg));
      BandSlices(c, ms, cfg);
    }
  }
}
