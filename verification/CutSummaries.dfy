/** A summary whose byte cap falls inside a marker is folded and pinned by the very compaction that writes
    it, so that no later summary reads it. */
module CutSummaries {
  import opened Options
  import opened Naturals
  import opened Messages
  import opened Agent
  import opened Conversation
  import opened DropOld
  import opened Budget
  import opened Summaries
  import opened Markers
  import opened TidyTexts
  import opened Sorting
  import opened Compact
  import opened Compaction
  import opened FoldIds
  import opened Session

  // ----- what is asked of the outside world -----

  ghost predicate CleanName(m: Message) {
    !Contains(ToolNameOf(m), OPEN)
  }

  /** Content keys can be carried by a marker. */
  ghost predicate KeysFit(t: Toolkit) {
    forall x :: KeyFits(t.key(x))
  }

  /** A compressor reports and embeds only ids it was given or has stored; it neither nests markers nor
      opens them in a first sentence that was closed; and of a summary cut inside a marker it keeps the
      opening words, or else closes the first sentence. */
  ghost predicate HonestRewrite(m: Message, o: PipeOut) {
    && RefsOf(Rewrite(m, o)) <= RefsOf(m) + o.saves.Keys
    && (Flat(m.content) ==> Flat(o.content))
    && (Calm(m.content) ==> Calm(o.content))
    && (IsSummary(m) ==> IsSummary(Rewrite(m, o)) || Calm(o.content))
  }

  ghost predicate HonestBand(c: Setting, step: nat, ms: seq<Message>, cfg: BandConfig) {
    |ms| > cfg.preserveRecent ==>
      var middle := Middle(c, ms, cfg);
      forall i: nat | i < |middle| && !IsPinned(middle[i]) :: HonestRewrite(middle[i], c.world.pipeline(step, i))
  }

  ghost predicate HonestCascade(c: Setting, ms: seq<Message>) {
    var a := AgentPass(c, ms).messages;
    var b := MiddlePass(c, a).messages;
    var p := PreserveRecent(c, a);
    && HonestBand(c, 2, a, BandConfig(p, SatSub(|a|, p), false))
    && HonestBand(c, 3, b, BandConfig(PreserveRecent(c, b), 4, true))
  }

  ghost predicate HonestCall(cfg: SessionConfig, s: State, call: Call) {
    cfg.hasBudget ==> HonestCascade(ConfigFor(cfg, call.world).setting, TaggedAll(PinFinalized(s.messages)))
  }

  // ----- the lists inside a cascade -----

  /** A message that no summary can read, or that a summary can read safely. */
  predicate Readable(m: Message) {
    Calm(m.content) || IsPinned(m)
  }

  /** From `k` on, messages carry increasing index tags below `n`, at least `k`, and are readable. */
  ghost predicate Numbered(ms: seq<Message>, k: nat, n: nat) {
    && (forall j | k <= j < |ms| :: OriginOf(ms[j]).Some? && k <= OriginOf(ms[j]).value < n && Readable(ms[j]))
    && (forall i, j | k <= i < j < |ms| :: OriginOf(ms[i]).value < OriginOf(ms[j]).value)
  }

  /** A fresh summary at the front, then messages none of which carries the first index. */
  ghost predicate Headed(ms: seq<Message>, n: nat) {
    && ms != [] && n > 0 && OriginOf(ms[0]).None? && (IsSummary(ms[0]) || Calm(ms[0].content))
    && Numbered(ms, 1, n)
  }

  ghost predicate Orderly(ms: seq<Message>, n: nat) {
    Numbered(ms, 0, n) || Headed(ms, n)
  }

  /** What an honest rewrite does to a message, as far as these lists are concerned. */
  predicate Steady(m: Message, m': Message) {
    && OriginOf(m') == OriginOf(m)
    && (Readable(m) ==> Readable(m'))
    && (IsSummary(m) || Calm(m.content) ==> IsSummary(m') || Calm(m'.content))
  }

  lemma SteadyKeepsOrder(a: seq<Message>, b: seq<Message>, n: nat)
    requires |a| == |b| && forall j | 0 <= j < |a| :: Steady(a[j], b[j])
    ensures Numbered(a, 0, n) ==> Numbered(b, 0, n)
    ensures Headed(a, n) ==> Headed(b, n)
  {
    hide OriginOf, Readable, IsSummary, Calm;
  }

  lemma StubIsSteady(t: Toolkit, m: Message)
    requires KeysFit(t) && CleanName(m)
    ensures Steady(m, ClearedStub(t, m))
  {
    var id := t.key(m.content);
    assert KeyFits(id);
    hide KeyFits, MarkerIds, Contains, Calm, Flat;
    StubIsTidy(ToolNameOf(m), t.estimate(m.content), id);
    StubKeepsOrigin(t, m);
    assert Calm(ClearedStub(t, m).content);
  }

  lemma StubKeepsOrigin(t: Toolkit, m: Message)
    ensures OriginOf(ClearedStub(t, m)) == OriginOf(m)
  {
  }

  lemma AgentOrder(c: Setting, ms: seq<Message>, n: nat)
    requires KeysFit(c.t) && Numbered(ms, 0, n) && forall i | 0 <= i < |ms| :: CleanName(ms[i])
    ensures Numbered(AgentPass(c, ms).messages, 0, n)
  {
    hide CleanName, KeysFit, Steady, ClearedStub, ClearedAt, Numbered;
    var out := AgentPass(c, ms).messages;
    forall j | 0 <= j < |ms|
      ensures Steady(ms[j], out[j])
    {
      SteadyItself(ms[j]);
      if ClearedAt(c, ms, j) {
        StubIsSteady(c.t, ms[j]);
      }
    }
    SteadyKeepsOrder(ms, out, n);
  }

  lemma SteadyItself(m: Message)
    ensures Steady(m, m)
  {
  }

  lemma RewriteIsSteady(m: Message, o: PipeOut)
    requires HonestRewrite(m, o) && !IsPinned(m)
    ensures Steady(m, Rewrite(m, o))
  {
    hide Flat, Calm, RefsOf;
    assert OriginOf(Rewrite(m, o)) == OriginOf(m);
  }

  /** The list between folding the old turns and compressing the band. */
  lemma FoldedOrder(c: Setting, ms: seq<Message>, cfg: BandConfig, n: nat)
    requires |ms| > cfg.preserveRecent && Numbered(ms, 0, n)
    ensures var folded := Head(c, ms, cfg) + ms[BandStart(ms, cfg)..];
            if Head(c, ms, cfg) == [] then Numbered(folded, 0, n) else Headed(folded, n)
  {
    hide BandStart, Calm, OriginOf, Readable, Summarise;
    var b, head := BandStart(ms, cfg), Head(c, ms, cfg);
    if head != [] {
      SummaryOpens(ms[..b]);
      assert b > 0 && OriginOf(ms[0]).value < n;
      var folded := head + ms[b..];
      forall j | 1 <= j < |folded|
        ensures folded[j] == ms[b + j - 1] && OriginOf(folded[j]).value > OriginOf(ms[0]).value
      {
      }
    }
  }

  lemma SummaryOpens(turns: seq<Message>)
    ensures IsSummary(SummaryMessage(turns)) && OriginOf(SummaryMessage(turns)) == None
  {
    assert SUMMARY_CONTEXT <= "[Earlier conversation context]: ";
  }

  lemma HistoryOrder(c: Setting, step: nat, ms: seq<Message>, cfg: BandConfig, n: nat)
    requires Numbered(ms, 0, n) && HonestBand(c, step, ms, cfg)
    ensures Orderly(HistoryPass(c, step, ms, cfg).messages, n)
    ensures !cfg.summaryOld ==> Numbered(HistoryPass(c, step, ms, cfg).messages, 0, n)
  {
    hide Numbered, Headed, Steady, HonestRewrite, BandStart, Rewrite, SummaryMessage;
    if |ms| > cfg.preserveRecent {
      var b, middle := BandStart(ms, cfg), Middle(c, ms, cfg);
      var folded, out := Head(c, ms, cfg) + ms[b..], HistoryPass(c, step, ms, cfg).messages;
      BandSlices(c, ms, cfg);
      FoldedOrder(c, ms, cfg, n);
      forall j | 0 <= j < |folded|
        ensures |out| == |folded| && Steady(folded[j], out[j])
      {
        SteadyItself(folded[j]);
        if j < |middle| && !IsPinned(middle[j]) {
          RewriteIsSteady(middle[j], c.world.pipeline(step, j));
        }
      }
      SteadyKeepsOrder(folded, out, n);
    }
  }

  lemma CutOrder(ms: seq<Message>, s: nat, e: nat, n: nat)
    requires s < e <= |ms| && Orderly(ms, n)
    ensures Orderly(Cut(ms, s, e), n)
  {
    hide OriginOf, Readable, IsSummary, Calm;
    var out := Cut(ms, s, e);
    forall j | 0 <= j < |out|
      ensures out[j] == if j < s then ms[j] else ms[j + (e - s)]
    {
    }
    if Numbered(ms, 0, n) {
      assert Numbered(out, 0, n);
    } else if s == 0 {
      assert Numbered(out, 0, n);
    } else {
      assert Headed(out, n);
    }
  }

  lemma {:induction false} DropOrder(c: Setting, ms: seq<Message>, running: nat, n: nat)
    requires Orderly(ms, n)
    ensures Orderly(DropFrom(c, ms, running).kept, n)
    decreases |ms|
  {
    hide Orderly, FindGroup, NextRunning, Continues, Cut;
    if Continues(c, ms, running) {
      DropStep(c, ms, running);
      var (s, e) := FindGroup(c, ms, 0).value;
      CutOrder(ms, s, e, n);
      CutShortens(ms, s, e);
      DropOrder(c, Cut(ms, s, e), NextRunning(c, running, ms[s..e], Cut(ms, s, e)), n);
    }
  }

  lemma CutShortens(ms: seq<Message>, s: nat, e: nat)
    requires s < e <= |ms|
    ensures |Cut(ms, s, e)| < |ms|
  {
  }

  lemma WorkedOrder(cfg: CompactConfig, ms: seq<Message>, n: nat)
    requires KeysFit(cfg.setting.t) && Numbered(ms, 0, n) && forall i | 0 <= i < |ms| :: CleanName(ms[i])
    requires cfg.hasBudget ==> HonestCascade(cfg.setting, ms)
    ensures Orderly(Worked(cfg, ms).messages, n)
  {
    hide Numbered, Headed, CleanName, KeysFit, HonestBand, AgentPass, HistoryPass, DropFrom, PreserveRecent;
    var c := cfg.setting;
    var a := AgentPass(c, ms).messages;
    AgentOrder(c, ms, n);
    if cfg.hasBudget {
      var p := PreserveRecent(c, a);
      var b := MiddlePass(c, a).messages;
      HistoryOrder(c, 2, a, BandConfig(p, SatSub(|a|, p), false), n);
      HistoryOrder(c, 3, b, BandConfig(PreserveRecent(c, b), 4, true), n);
      var s := SummaryPass(c, b).messages;
      DropOrder(c, s, c.count(s), n);
    }
  }

  // ----- the fold of a fresh summary -----

  /** The summary fold of a build that starts with a fresh summary names it as its replacement. */
  lemma HeadIsFolded(b: Build)
    requires Headed(b.compacted, |b.original|) && IsSummary(b.compacted[0])
    ensures exists f :: f in Folds(b) && f.replacementIndex == Some(0)
  {
    hide FoldForSpan, Calm, IsSummary;
    FirstIsMissing(b);
    FirstSummary(b, |b.compacted|);
    MissingStarts(b);
    var (s, e) := SummarySpan(b);
    assert s == 0 && e > 0;
    var f := SummaryFolds(b)[0];
    assert SummaryFolds(b) == [f];
    SpanNamesReplacement(b, s, e);
    InSorted(FoldLe, UnsortedFolds(b), f);
  }

  lemma SpanNamesReplacement(b: Build, s: nat, e: nat)
    requires s <= e <= |b.original| && |b.compacted| > 0
    ensures FoldForSpan(b.a, Summarized, b.original, s, e, Some(0), Some(Output(b, 0))).replacementIndex == Some(0)
  {
  }

  lemma FirstIsMissing(b: Build)
    requires Headed(b.compacted, |b.original|)
    ensures 0 !in Present(b, |b.compacted|)
  {
    hide OriginOf, Readable, IsSummary, Calm;
  }

  lemma MissingStarts(b: Build)
    requires |b.original| > 0 && 0 !in Present(b, |b.compacted|)
    ensures MissingFrom(b, 0) != [] && MissingFrom(b, 0)[0] == 0 && RunEnd(b, 0) > 0
  {
    hide Present;
  }

  lemma {:induction false} FirstSummary(b: Build, k: nat)
    requires 0 < k <= |b.compacted| && OriginOf(b.compacted[0]).None? && IsSummary(b.compacted[0])
    ensures SummariesFrom(b, k) != [] && SummariesFrom(b, k)[0] == 0
  {
    hide IsSummary;
    if k > 1 {
      FirstSummary(b, k - 1);
    } else {
      assert Output(b, 0) == b.compacted[0] && Origin(b, 0) == None;
      assert SummariesFrom(b, 0) == [];
    }
  }

  // ----- after marking -----

  lemma {:induction false} MarkingKeepsReadable(ms: seq<Message>, folds: seq<FoldRecord>, j: nat)
    requires j < |ms|
    ensures Readable(ms[j]) ==> Readable(MarkReplacements(ms, folds)[j])
    ensures IsPinned(ms[j]) ==> IsPinned(MarkReplacements(ms, folds)[j])
    decreases |folds|
  {
    hide Calm;
    if folds != [] {
      MarkingKeepsReadable(MarkReplacement(ms, folds[0]), folds[1..], j);
    }
  }

  lemma {:induction false} MarkingPins(ms: seq<Message>, folds: seq<FoldRecord>, f: FoldRecord, j: nat)
    requires j < |ms| && f in folds && f.replacementIndex == Some(j)
    ensures IsPinned(MarkReplacements(ms, folds)[j])
    decreases |folds|
  {
    var once := MarkReplacement(ms, folds[0]);
    if f == folds[0] {
      MarkingKeepsReadable(once, folds[1..], j);
    } else {
      MarkingPins(once, folds[1..], f, j);
    }
  }

  lemma RestoringKeepsReadable(b: Build, j: nat)
    requires j < |b.compacted|
    ensures Readable(b.compacted[j]) ==> Readable(Outputs(b)[j])
    ensures Calm(b.compacted[j].content) ==> Calm(Outputs(b)[j].content)
  {
    hide Calm;
  }

  lemma AnnotatingKeepsReadable(ms: seq<Message>, policy: CachePolicy, j: nat)
    requires j < |ms|
    ensures Readable(ms[j]) ==> Readable(Annotated(ms, policy)[j])
  {
    hide Calm;
  }

  ghost predicate AllReadable(ms: seq<Message>) {
    forall j | 0 <= j < |ms| :: Readable(ms[j])
  }

  lemma TaggingNumbers(ms: seq<Message>)
    requires AllReadable(ms)
    ensures Numbered(TaggedAll(PinFinalized(ms)), 0, |ms|)
  {
    hide Calm, OriginOf;
    var pinned := PinFinalized(ms);
    forall j | 0 <= j < |ms|
      ensures OriginOf(TaggedAll(pinned)[j]) == Some(j) && Readable(TaggedAll(pinned)[j])
    {
      TagThenRestore(pinned, j);
      TaggingKeepsReadable(ms, j);
    }
  }

  lemma TaggingKeepsReadable(ms: seq<Message>, j: nat)
    requires j < |ms| && Readable(ms[j])
    ensures Readable(TaggedAll(PinFinalized(ms))[j])
  {
    hide Calm;
  }

  /** Everything a draft leaves in the prompt is readable: what is tagged was readable all along, and a
      summary that is not gets pinned by its own fold. */
  lemma DraftIsReadable(cfg: SessionConfig, s: State, call: Call)
    requires KeysFit(cfg.t) && HonestCall(cfg, s, call)
    requires AllReadable(s.messages) && forall i | 0 <= i < |s.messages| :: CleanName(s.messages[i])
    ensures AllReadable(DraftOf(cfg, s, call).marked)
  {
    hide Readable, Calm, CleanName, KeysFit, Numbered, HonestCascade, Worked, Annotated, MarkReplacements, Folds, Uniquified, OriginOf, IsSummary, TaggedAll;
    var cc, pinned, d := ConfigFor(cfg, call.world), PinFinalized(s.messages), DraftOf(cfg, s, call);
    var b, n := d.build, |s.messages|;
    TaggingNumbers(s.messages);
    forall i | 0 <= i < |TaggedAll(pinned)|
      ensures CleanName(TaggedAll(pinned)[i])
    {
      TaggingKeepsName(s.messages, i);
    }
    WorkedOrder(cc, TaggedAll(pinned), n);
    forall j | 0 <= j < |d.marked|
      ensures Readable(d.marked[j])
    {
      MarkedIsReadable(cfg, b, d.newFolds, j);
    }
  }

  lemma TaggingKeepsName(ms: seq<Message>, i: nat)
    requires i < |ms|
    ensures |TaggedAll(PinFinalized(ms))| == |ms|
    ensures CleanName(TaggedAll(PinFinalized(ms))[i]) <==> CleanName(ms[i])
  {
    hide Contains;
  }

  lemma MarkedIsReadable(cfg: SessionConfig, b: Build, folds: seq<FoldRecord>, j: nat)
    requires Orderly(b.compacted, |b.original|) && j < |b.compacted|
    requires |folds| == |Folds(b)| && forall k | 0 <= k < |folds| :: folds[k] == Folds(b)[k].(id := folds[k].id)
    ensures Readable(MarkReplacements(Annotated(Outputs(b), cfg.cache), folds)[j])
  {
    hide Calm, Annotated, MarkReplacements, Folds, OriginOf, IsSummary, Outputs;
    var annotated := Annotated(Outputs(b), cfg.cache);
    RestoringKeepsReadable(b, j);
    AnnotatingKeepsReadable(Outputs(b), cfg.cache, j);
    MarkingKeepsReadable(annotated, folds, j);
    if !Readable(b.compacted[j]) {
      HeadIsFolded(b);
      var f :| f in Folds(b) && f.replacementIndex == Some(0);
      var k :| 0 <= k < |Folds(b)| && Folds(b)[k] == f;
      MarkingPins(annotated, folds, folds[k], 0);
    }
  }
}
