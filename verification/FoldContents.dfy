/** What a fold record says about the span it covers and about what replaced it. */
module FoldContents {
  import opened Options
  import opened Naturals
  import opened Messages
  import opened Agent
  import opened Conversation
  import opened DropOld
  import opened Budget
  import opened Markers
  import opened Sorting
  import opened Compact
  import opened Compaction
  import FoldMarks
  import Decimal

  /** The shape of a cleared tool result. */
  predicate IsStub(m: Message) {
    CcrId in m.metadata && "[tool:" <= m.content && Contains(m.content, " result cleared ")
  }

  /** Roles and tokens are those of the covered originals, and a reported id is the record's own. */
  ghost predicate RecordsSpan(b: Build, f: FoldRecord) {
    && f.start < f.end <= |b.original|
    && |f.originalRoles| == f.end - f.start
    && (forall i | f.start <= i < f.end :: f.originalRoles[i - f.start] == b.original[i].role)
    && f.originalTokens == ContentTokens(b.a.count, b.original[f.start..f.end])
    && (f.ccrId.Some? ==> f.id == f.ccrId.value)
  }

  /** The replacement is the output at `j`: a rewrite of the one original covered, or the summary. */
  predicate RecordsOutput(b: Build, f: FoldRecord, j: nat)
    requires j < |b.compacted|
  {
    var m := Output(b, j);
    && f.replacementIndex == Some(j)
    && f.replacementTokens == b.a.count(m.content) && f.marker == ExtractMarker(m.content) && f.ccrId == CcrIdOf(m)
    && match Origin(b, j)
       case Some(i) => f.start == i && f.end == i + 1 && f.kind == (if IsStub(m) then Cleared else if IsSummary(m) then Summarized else Compressed)
       case None => f.kind == Summarized && IsSummary(m)
  }

  /** One original is gone; what a dropped message still named, the record names. */
  ghost predicate RecordsDrop(b: Build, f: FoldRecord) {
    && f.kind == Dropped && f.replacementIndex == None && f.replacementTokens == 0
    && f.end == f.start + 1 && f.start !in Present(b, |b.compacted|)
    && ((exists d :: d in b.dropped && OriginOf(d) == Some(f.start) && f.ccrId == CcrIdOf(d) && f.marker == ExtractMarker(d.content))
        || (f.ccrId == None && f.marker == None && forall d | d in b.dropped :: OriginOf(d) != Some(f.start)))
  }

  ghost predicate Records(b: Build, f: FoldRecord) {
    && RecordsSpan(b, f)
    && ((exists j: nat :: j < |b.compacted| && RecordsOutput(b, f, j)) || RecordsDrop(b, f))
  }

  lemma SpanRecords(a: Audit, kind: FoldKind, original: seq<Message>, start: nat, end: nat,
                    replacementIndex: Option<nat>, replacement: Option<Message>, b: Build)
    requires start < end <= |original| && b.a == a && b.original == original
    ensures var f := FoldForSpan(a, kind, original, start, end, replacementIndex, replacement);
            && RecordsSpan(b, f) && f.start == start && f.end == end && f.kind == kind && f.replacementIndex == replacementIndex
            && (replacement.Some? ==>
                  && f.replacementTokens == a.count(replacement.value.content)
                  && f.marker == ExtractMarker(replacement.value.content) && f.ccrId == CcrIdOf(replacement.value))
            && (replacement.None? ==> f.replacementTokens == 0 && f.marker == None && f.ccrId == None)
  {
  }

  lemma {:induction false} ReplacedRecords(b: Build, k: nat)
    requires k <= |b.compacted|
    ensures forall f | f in ReplacedFolds(b, k) :: Records(b, f)
  {
    hide FoldForSpan, RecordsSpan, RecordsDrop, Output, Contains, IsSummary, CcrIdOf;
    if k > 0 {
      ReplacedRecords(b, k - 1);
      if ChangedAt(b, k - 1) {
        var i, m := Origin(b, k - 1).value, Output(b, k - 1);
        SpanRecords(b.a, ClassifyReplacement(m), b.original, i, i + 1, Some(k - 1), Some(m), b);
        assert RecordsOutput(b, ReplacedFold(b, k - 1), k - 1);
      }
    }
  }

  lemma SummaryRecords(b: Build)
    ensures forall f | f in SummaryFolds(b) :: Records(b, f)
  {
    hide FoldForSpan, RecordsSpan, RecordsDrop, Output, IsSummary, CcrIdOf, SummarySpan, Origin;
    var (s, e) := SummarySpan(b);
    if s != e {
      SummariesAreIndices(b, |b.compacted|);
      var j := SummariesFrom(b, |b.compacted|)[0];
      SpanRecords(b.a, Summarized, b.original, s, e, Some(j), Some(Output(b, j)), b);
      assert RecordsOutput(b, SummaryFolds(b)[0], j);
    }
  }

  lemma {:induction false} DropsRecord(b: Build, xs: seq<nat>)
    requires AllBelow(xs, |b.original|) && forall x | x in xs :: x !in Present(b, |b.compacted|)
    ensures forall f | f in DroppedFolds(b, xs) :: Records(b, f)
  {
    hide FoldForSpan, RecordsSpan, CcrIdOf, Present, OriginOf, RecordsDrop;
    if xs != [] {
      DropsRecord(b, xs[1..]);
      DropRecords(b, xs[0]);
    }
  }

  lemma DropRecords(b: Build, i: nat)
    requires i < |b.original| && i !in Present(b, |b.compacted|)
    ensures Records(b, FoldForDropped(b.a, b.original, i, FindDropped(b.dropped, i)))
  {
    hide FoldForSpan, CcrIdOf, Present, OriginOf, FindDropped;
    SpanRecords(b.a, Dropped, b.original, i, i + 1, None, None, b);
    var stub := FindDropped(b.dropped, i);
    var f := FoldForDropped(b.a, b.original, i, stub);
    assert RecordsSpan(b, f);
    assert RecordsDrop(b, f);
  }

  /** Every fold record says what it covers and what became of it. */
  lemma FoldsRecord(b: Build, f: FoldRecord)
    requires f in Folds(b)
    ensures Records(b, f)
  {
    hide ReplacedFolds, SummaryFolds, DroppedFolds, Records, FoldLe;
    UnfoldedIs(b);
    ReplacedRecords(b, |b.compacted|);
    SummaryRecords(b);
    DropsRecord(b, Unfolded(b));
    InSorted(FoldLe, UnsortedFolds(b), f);
  }

  // ----- cleared tool results -----

  /** If the message comes from a cleared one, it still names the cleared text. */
  predicate NamesItsText(c: Setting, ms: seq<Message>, m: Message) {
    var o := OriginOf(m);
    o.Some? && o.value < |ms| && ClearedAt(c, ms, o.value) ==>
      CcrId in m.metadata && m.metadata[CcrId] == c.t.key(ms[o.value].content)
  }

  ghost predicate AllName(c: Setting, ms: seq<Message>, out: seq<Message>) {
    forall m | m in out :: NamesItsText(c, ms, m)
  }

  /** The compressors report no id of their own for a message of the band that has one. */
  ghost predicate SparesIds(c: Setting, step: nat, ms: seq<Message>, cfg: BandConfig) {
    |ms| > cfg.preserveRecent ==>
      var middle := Middle(c, ms, cfg);
      forall i: nat | i < |middle| && CcrId in middle[i].metadata ::
        middle[i].metadata == CompressedAt(c, step, middle, i).metadata
  }

  ghost predicate CascadeSparesIds(c: Setting, ms: seq<Message>) {
    var a := AgentPass(c, ms).messages;
    var b := MiddlePass(c, a).messages;
    var p := PreserveRecent(c, a);
    && SparesIds(c, 2, a, BandConfig(p, SatSub(|a|, p), false))
    && SparesIds(c, 3, b, BandConfig(PreserveRecent(c, b), 4, true))
  }

  lemma AgentNames(c: Setting, ms: seq<Message>)
    ensures var tagged := TaggedAll(ms); AllName(c, tagged, AgentPass(c, tagged).messages)
  {
    hide ClearedAt, OriginOf, TaggedAll;
    var tagged := TaggedAll(ms);
    var out := AgentPass(c, tagged).messages;
    forall m | m in out
      ensures NamesItsText(c, tagged, m)
    {
      var i: nat :| i < |out| && out[i] == m;
      TagThenRestore(ms, i);
      StubKeepsTag(c.t, tagged[i]);
    }
  }

  lemma StubKeepsTag(t: Toolkit, m: Message)
    ensures OriginOf(ClearedStub(t, m)) == OriginOf(m)
    ensures CcrId in ClearedStub(t, m).metadata && ClearedStub(t, m).metadata[CcrId] == t.key(m.content)
  {
  }

  lemma BandNames(c: Setting, step: nat, orig: seq<Message>, ms: seq<Message>, cfg: BandConfig)
    requires AllName(c, orig, ms) && SparesIds(c, step, ms, cfg)
    ensures AllName(c, orig, HistoryPass(c, step, ms, cfg).messages)
  {
    hide NamesItsText, BandStart, CompressedAt, SummaryMessage;
    var out := HistoryPass(c, step, ms, cfg).messages;
    if |ms| > cfg.preserveRecent {
      var middle := Middle(c, ms, cfg);
      forall m | m in out
        ensures NamesItsText(c, orig, m)
      {
        if m !in ms {
          var i: nat :| i < |out| && out[i] == m;
          assert i < |middle| && m == CompressedAt(c, step, middle, i);
          MiddleNames(c, orig, ms, cfg, middle[i]);
          RewriteNames(c, step, orig, middle, i);
        }
      }
    }
  }

  lemma MiddleNames(c: Setting, orig: seq<Message>, ms: seq<Message>, cfg: BandConfig, m: Message)
    requires cfg.preserveRecent <= |ms| && AllName(c, orig, ms) && m in Middle(c, ms, cfg)
    ensures NamesItsText(c, orig, m)
  {
    hide NamesItsText, BandStart, Summaries.Summarise;
    if m !in ms {
      SummaryNames(c, orig, ms[..BandStart(ms, cfg)]);
    }
  }

  lemma SummaryNames(c: Setting, orig: seq<Message>, turns: seq<Message>)
    ensures NamesItsText(c, orig, SummaryMessage(turns))
  {
    hide ClearedAt;
  }

  lemma RewriteNames(c: Setting, step: nat, orig: seq<Message>, ms: seq<Message>, i: nat)
    requires i < |ms| && NamesItsText(c, orig, ms[i])
    requires CcrId in ms[i].metadata ==> ms[i].metadata == CompressedAt(c, step, ms, i).metadata
    ensures NamesItsText(c, orig, CompressedAt(c, step, ms, i))
  {
    hide ClearedAt;
    assert OriginOf(CompressedAt(c, step, ms, i)) == OriginOf(ms[i]);
  }

  lemma WorkedNames(cfg: CompactConfig, ms: seq<Message>)
    requires cfg.hasBudget ==> !Fits(cfg.setting, TaggedAll(ms)) && CascadeSparesIds(cfg.setting, TaggedAll(ms))
    ensures var w := Worked(cfg, TaggedAll(ms));
            AllName(cfg.setting, TaggedAll(ms), w.messages) && AllName(cfg.setting, TaggedAll(ms), w.dropped)
  {
    hide AgentPass, HistoryPass, DropFrom, PreserveRecent, SparesIds, NamesItsText, TaggedAll;
    var c, tagged := cfg.setting, TaggedAll(ms);
    AgentNames(c, ms);
    if cfg.hasBudget {
      var a := AgentPass(c, tagged).messages;
      var p := PreserveRecent(c, a);
      var b := MiddlePass(c, a).messages;
      BandNames(c, 2, tagged, a, BandConfig(p, SatSub(|a|, p), false));
      BandNames(c, 3, tagged, b, BandConfig(PreserveRecent(c, b), 4, true));
      var s := SummaryPass(c, b).messages;
      DropMembers(c, s, c.count(s));
    }
  }

  lemma {:induction false} DropMembers(c: Setting, ms: seq<Message>, running: nat)
    ensures forall m | m in DropFrom(c, ms, running).kept || m in DropFrom(c, ms, running).dropped :: m in ms
    decreases |ms|
  {
    hide FindGroup, NextRunning, Continues;
    if Continues(c, ms, running) {
      DropStep(c, ms, running);
      var (s, e) := FindGroup(c, ms, 0).value;
      CutShrinks(ms, s, e);
      DropMembers(c, Cut(ms, s, e), NextRunning(c, running, ms[s..e], Cut(ms, s, e)));
    }
  }

  lemma CutShrinks(ms: seq<Message>, s: nat, e: nat)
    requires s < e <= |ms|
    ensures |Cut(ms, s, e)| < |ms| && forall m | m in Cut(ms, s, e) || m in ms[s..e] :: m in ms
  {
  }

  lemma RestoringKeepsIds(saved: seq<Option<string>>, m: Message)
    ensures CcrId in Restored(saved, m).metadata <==> CcrId in m.metadata
    ensures CcrId in m.metadata ==> Restored(saved, m).metadata[CcrId] == m.metadata[CcrId]
  {
  }

  /** A record that covers a cleared tool result names the stored text: as a rewrite of it or, after a
      drop, through the stub that was dropped. Otherwise it is the summary's record, or nothing reported
      as dropped came from that message. */
  lemma ClearedIsRecorded(cfg: CompactConfig, ms: seq<Message>, i: nat, f: FoldRecord)
    requires i < |ms| && ClearedAt(cfg.setting, TaggedAll(ms), i)
    requires cfg.hasBudget ==> !Fits(cfg.setting, TaggedAll(ms)) && CascadeSparesIds(cfg.setting, TaggedAll(ms))
    requires f in Folds(BuildFor(cfg, ms)) && f.start <= i < f.end
    ensures var b := BuildFor(cfg, ms);
            || f.ccrId == Some(cfg.setting.t.key(ms[i].content))
            || (f.kind == Summarized && exists j: nat :: j < |b.compacted| && f.replacementIndex == Some(j) && Origin(b, j) == None)
            || (f.kind == Dropped && forall d | d in b.dropped :: OriginOf(d) != Some(i))
  {
    hide Folds, Worked, TaggedAll, ClearedAt, OriginOf, CascadeSparesIds, Fits, RecordsSpan, Contains, IsSummary, Restored;
    var b, c, tagged := BuildFor(cfg, ms), cfg.setting, TaggedAll(ms);
    FoldsRecord(b, f);
    WorkedNames(cfg, ms);
    TaggedContent(ms, i);
    if j: nat :| j < |b.compacted| && RecordsOutput(b, f, j) {
      RestoringKeepsIds(b.saved, b.compacted[j]);
      assert b.compacted[j] in b.compacted;
      assert NamesItsText(c, tagged, b.compacted[j]);
    } else if d :| d in b.dropped && OriginOf(d) == Some(f.start) && f.ccrId == CcrIdOf(d) {
      assert NamesItsText(c, tagged, d);
    }
  }

  lemma TaggedContent(ms: seq<Message>, i: nat)
    requires i < |ms|
    ensures TaggedAll(ms)[i].content == ms[i].content
  {
  }

  /** When nothing but the clearing ran, a cleared message that is not verbatim what it was has a record of
      its own, marked as cleared. */
  lemma ClearedHasARecord(cfg: CompactConfig, ms: seq<Message>, i: nat)
    requires i < |ms| && ClearedAt(cfg.setting, TaggedAll(ms), i)
    requires Worked(cfg, TaggedAll(ms)).messages == AgentPass(cfg.setting, TaggedAll(ms)).messages
    ensures var b := BuildFor(cfg, ms);
            || Outputs(b)[i] == ms[i]
            || exists f :: f in Folds(b) && f.kind == Cleared && f.start == i && f.end == i + 1
                           && f.replacementIndex == Some(i) && f.ccrId == Some(cfg.setting.t.key(ms[i].content))
  {
    hide Folds, Worked, TaggedAll, ClearedAt, ClearedStub, RecordsSpan, Contains, IsSummary, Restored, OriginOf, FoldMarks.StandsIn;
    var b, t := BuildFor(cfg, ms), cfg.setting.t;
    var stub := ClearedStub(t, TaggedAll(ms)[i]);
    assert b.compacted[i] == stub;
    TagThenRestore(ms, i);
    StubKeepsTag(t, TaggedAll(ms)[i]);
    TaggedContent(ms, i);
    RestoringKeepsIds(b.saved, stub);
    StubLooksCleared(b.saved, ms, t, i);
    if Outputs(b)[i] != ms[i] {
      assert ChangedAt(b, i);
      FoldMarks.ReplacementIff(b, i);
      var f :| f in Folds(b) && f.replacementIndex == Some(i);
      FoldsRecord(b, f);
      assert RecordsOutput(b, f, i);
    }
  }

  lemma StubLooksCleared(saved: seq<Option<string>>, ms: seq<Message>, t: Toolkit, i: nat)
    requires i < |ms|
    ensures var m := Restored(saved, ClearedStub(t, TaggedAll(ms)[i])); IsStub(m) && m.role == ms[i].role
  {
    hide StubText, Contains;
    StubTextLooksCleared(ToolNameOf(TaggedAll(ms)[i]), t.estimate(TaggedAll(ms)[i].content), t.key(TaggedAll(ms)[i].content));
  }

  lemma StubTextLooksCleared(tool: string, tokens: nat, id: string)
    ensures "[tool:" <= StubText(tool, tokens, id) && Contains(StubText(tool, tokens, id), " result cleared ")
  {
    hide Find, Decimal.ToText;
    var text, p, rest := StubText(tool, tokens, id), "[tool:" + tool, Decimal.ToText(tokens) + StubVia() + "<<ccr:" + id + ">>";
    assert text == p + StubCleared() + rest;
    StubMatches(p, rest);
  }

  lemma StubMatches(p: string, rest: string)
    ensures MatchesAt(p + StubCleared() + rest, " result cleared ", |p| + 1)
  {
    var text := p + StubCleared() + rest;
    assert text[|p| + 1..|p| + 17] == StubCleared()[1..17];
  }
}
