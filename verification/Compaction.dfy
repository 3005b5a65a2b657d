/** `compact_conversation`: tag, run the cascade, restore, record folds, annotate for the cache. */
module Compaction {
  import opened Options
  import opened Messages
  import opened Agent
  import opened Budget
  import opened Provenance
  import opened Compact
  import opened FoldAudit

  // ----- provider cache annotations -----

  datatype CachePolicy = NoBreakpoints | Anthropic(stableSuffix: nat)

  function WithoutCache(m: Message): Message {
    m.(metadata := m.metadata - {CacheControl})
  }

  function LastSystem(ms: seq<Message>): (r: int)
    ensures -1 <= r < |ms|
    ensures r >= 0 ==> ms[r].role.System?
    ensures forall j | r < j < |ms| :: !ms[j].role.System?
  {
    if ms == [] then -1 else if ms[|ms| - 1].role.System? then |ms| - 1 else LastSystem(ms[..|ms| - 1])
  }

  predicate IsBreakpoint(ms: seq<Message>, policy: CachePolicy, i: nat)
    requires i < |ms|
  {
    && policy.Anthropic?
    && (|| i == LastSystem(ms)
        || (policy.stableSuffix > 0 && |ms| > policy.stableSuffix && i == |ms| - policy.stableSuffix - 1
            && i > LastSystem(ms)))
  }

  function CacheMark(ms: seq<Message>, policy: CachePolicy, i: nat): Message
    requires i < |ms|
  {
    var bare := WithoutCache(ms[i]);
    if IsBreakpoint(ms, policy, i) then bare.(metadata := bare.metadata[CacheControl := "ephemeral"]) else bare
  }

  function Annotated(ms: seq<Message>, policy: CachePolicy): (out: seq<Message>)
    ensures |out| == |ms|
  {
    seq(|ms|, i requires 0 <= i < |ms| => CacheMark(ms, policy, i))
  }

  /** Exactly two places can carry the annotation: the last system message, and the last message before the
      volatile suffix when no system message comes after it. Nothing else of any message changes. */
  lemma AnnotationsAre(ms: seq<Message>, policy: CachePolicy, i: nat)
    requires i < |ms|
    ensures var out := Annotated(ms, policy)[i];
            && (CacheControl in out.metadata <==>
                  && policy.Anthropic?
                  && (|| (ms[i].role.System? && forall j | i < j < |ms| :: !ms[j].role.System?)
                      || (policy.stableSuffix > 0 && i + 1 + policy.stableSuffix == |ms| && forall j | i <= j < |ms| :: !ms[j].role.System?)))
            && (CacheControl in out.metadata ==> out.metadata[CacheControl] == "ephemeral")
            && out.role == ms[i].role && out.content == ms[i].content
            && out.metadata - {CacheControl} == ms[i].metadata - {CacheControl}
  {
    var last := LastSystem(ms);
    hide LastSystem;
  }

  method ApplyCachePolicy(ms: seq<Message>, policy: CachePolicy) returns (out: seq<Message>)
    ensures out == Annotated(ms, policy)
  {
    out := ms;
    for i := 0 to |ms|
      invariant |out| == |ms|
      invariant forall j | 0 <= j < i :: out[j] == WithoutCache(ms[j])
      invariant forall j | i <= j < |ms| :: out[j] == ms[j]
    {
      out := out[i := WithoutCache(out[i])];
    }
    if policy.NoBreakpoints? {
      return;
    }
    var first := LastSystem(ms);
    if first >= 0 {
      out := out[first := out[first].(metadata := out[first].metadata[CacheControl := "ephemeral"])];
    }
    if policy.stableSuffix > 0 && |ms| > policy.stableSuffix {
      var second := |ms| - policy.stableSuffix - 1;
      if second > first {
        out := out[second := out[second].(metadata := out[second].metadata[CacheControl := "ephemeral"])];
      }
    }
    assert out == Annotated(ms, policy);
  }

  // ----- the compaction -----

  datatype CompactConfig = CompactConfig(setting: Setting, hasBudget: bool, audit: Audit, cache: CachePolicy)

  function Worked(cfg: CompactConfig, ms: seq<Message>): Trace {
    if cfg.hasBudget then Cascade(cfg.setting, ms)
    else
      var p := AgentPass(cfg.setting, ms);
      Trace(p.messages, p.saved, [], [])
  }

  predicate Refuses(cfg: CompactConfig, ms: seq<Message>) {
    cfg.hasBudget && Enforced(cfg.setting, TaggedAll(ms)).BudgetExceeded?
  }

  function BuildFor(cfg: CompactConfig, ms: seq<Message>): Build {
    var w := Worked(cfg, TaggedAll(ms));
    Build(cfg.audit, ms, w.messages, OldIndexValues(ms), w.dropped)
  }

  datatype CompactResult = Compacted(messages: seq<Message>, folds: seq<FoldRecord>) | Refused(needed: nat, limit: nat)

  method CompactConversation(cfg: CompactConfig, ms: seq<Message>)
    returns (result: CompactResult, saved: map<string, string>)
    ensures saved == Worked(cfg, TaggedAll(ms)).saved
    ensures result.Refused? <==> Refuses(cfg, ms)
    ensures result.Refused? ==>
              && result.needed == cfg.setting.count(Cascade(cfg.setting, TaggedAll(ms)).messages)
              && result.limit == cfg.setting.Limit() < result.needed
    ensures result.Compacted? ==>
              && result.messages == Annotated(Outputs(BuildFor(cfg, ms)), cfg.cache)
              && result.folds == Folds(BuildFor(cfg, ms))
  {
    hide Cascade, AgentPass, Outputs, Folds, Enforced, Annotated;
    var working, savedValues := TagOriginalIndices(ms);
    ghost var dropped: seq<Message> := [];
    var reported: seq<Message> := [];
    if cfg.hasBudget {
      var outcome;
      working, saved, dropped, outcome := EnforceBudget(cfg.setting, working);
      EnforcedReport(cfg.setting, TaggedAll(ms));
      if outcome.BudgetExceeded? {
        return Refused(outcome.needed, outcome.limit), saved;
      }
      reported := outcome.report.dropped;
    } else {
      working, saved := ApplyAgentCompression(cfg.setting, working);
    }
    var restored, folds := BuildFoldRecords(Build(cfg.audit, ms, working, savedValues, reported));
    var annotated := ApplyCachePolicy(restored, cfg.cache);
    result := Compacted(annotated, folds);
  }

  lemma EnforcedReport(c: Setting, ms: seq<Message>)
    ensures Enforced(c, ms).Ok? ==> Enforced(c, ms).report.dropped == Cascade(c, ms).dropped
    ensures var o := Enforced(c, ms);
            o.BudgetExceeded? ==> o.needed == c.count(Cascade(c, ms).messages) && o.limit == c.Limit() < o.needed
  {
  }

  // ----- lineage of the result -----

  lemma WorkedLineage(cfg: CompactConfig, ms: seq<Message>) returns (src: seq<int>)
    ensures Lineage(ms, Worked(cfg, ms).messages, src) && CoversPinned(ms, src)
    ensures forall d | d in Worked(cfg, ms).dropped :: Descends(ms, d)
  {
    if cfg.hasBudget {
      src := CascadeLineage(cfg.setting, ms);
    } else {
      AgentLineage(cfg.setting, ms);
      src := Identity(|ms|);
    }
  }

  /** A rewritten tagged message still carries its tag, and restoring gives a rewrite of the original. */
  lemma RestoreKin(ms: seq<Message>, i: nat, m: Message)
    requires i < |ms| && Kin(TaggedAll(ms)[i], m)
    ensures OriginOf(m) == Some(i)
    ensures Kin(ms[i], Restored(OldIndexValues(ms), m))
  {
    var t, r := TaggedAll(ms)[i], Restored(OldIndexValues(ms), m);
    TagThenRestore(ms, i);
    assert OriginalIndex in HostMetadata(t) && OriginalIndex in HostMetadata(m);
    assert HostMetadata(t)[OriginalIndex] == t.metadata[OriginalIndex];
    assert HostMetadata(m)[OriginalIndex] == m.metadata[OriginalIndex];
    if IsPinned(ms[i]) {
      assert IsPinned(t);
    } else {
      HostMetadataRestored(ms, i, m);
    }
  }

  lemma HostMetadataRestored(ms: seq<Message>, i: nat, m: Message)
    requires i < |ms| && HostMetadata(m) == HostMetadata(TaggedAll(ms)[i]) && OriginOf(m) == Some(i)
    ensures HostMetadata(Restored(OldIndexValues(ms), m)) == HostMetadata(ms[i])
  {
    var t, r := TaggedAll(ms)[i], Restored(OldIndexValues(ms), m);
    forall k
      ensures k in HostMetadata(r) <==> k in HostMetadata(ms[i])
      ensures k in HostMetadata(r) && k in HostMetadata(ms[i]) ==> HostMetadata(r)[k] == HostMetadata(ms[i])[k]
    {
      assert k in HostMetadata(m) <==> k in HostMetadata(t);
      assert k in HostMetadata(m) ==> HostMetadata(m)[k] == m.metadata[k];
      assert k in HostMetadata(t) ==> HostMetadata(t)[k] == t.metadata[k];
      assert k in HostMetadata(r) ==> HostMetadata(r)[k] == r.metadata[k];
    }
  }

  lemma RestoreFresh(saved: seq<Option<string>>, m: Message)
    requires Fresh(m)
    ensures OriginOf(m) == None && Restored(saved, m) == m
  {
    assert OriginalIndex !in HostMetadata(m);
  }

  /** Tracing by tag agrees with where the messages really come from. */
  lemma OriginsAreSources(cfg: CompactConfig, ms: seq<Message>) returns (src: seq<int>)
    ensures var b := BuildFor(cfg, ms);
            && Lineage(ms, Outputs(b), src) && CoversPinned(ms, src)
            && (forall j | 0 <= j < |src| :: Origin(b, j) == if src[j] < 0 then None else Some(src[j]))
  {
    var b, tagged := BuildFor(cfg, ms), TaggedAll(ms);
    src := WorkedLineage(cfg, tagged);
    forall j | 0 <= j < |src|
      ensures Origin(b, j) == if src[j] < 0 then None else Some(src[j])
      ensures src[j] >= 0 ==> Kin(ms[src[j]], Outputs(b)[j])
      ensures src[j] < 0 ==> Fresh(Outputs(b)[j])
    {
      if src[j] >= 0 {
        RestoreKin(ms, src[j], b.compacted[j]);
      } else {
        RestoreFresh(b.saved, b.compacted[j]);
      }
    }
    forall i | 0 <= i < |ms| && IsPinned(ms[i])
      ensures i in src
    {
      assert IsPinned(tagged[i]);
    }
  }

  /** So the fold accounting applies to every compaction whatsoever. */
  lemma CompactionIsOrdered(cfg: CompactConfig, ms: seq<Message>)
    ensures OrderedOrigins(BuildFor(cfg, ms))
  {
    var src := OriginsAreSources(cfg, ms);
  }

  /** The audit of one compaction, in full: each original is covered by one fold record if it is missing
      from the result or changed there, by none otherwise; ranges are sorted and disjoint; and the
      original tokens of the records plus those of the untouched originals give the input's total. */
  lemma AuditIsExact(cfg: CompactConfig, ms: seq<Message>)
    ensures var b := BuildFor(cfg, ms);
            && (forall i: nat | i < |ms| :: CoverCount(Folds(b), i) == if Touched(b, i) then 1 else 0)
            && (forall x, y | 0 <= x < y < |Folds(b)| :: Folds(b)[x].end <= Folds(b)[y].start)
            && FoldTokens(Folds(b)) + UntouchedTokens(b, 0) == ContentTokens(cfg.audit.count, ms)
  {
    hide Folds, Touched, CoverCount;
    var b := BuildFor(cfg, ms);
    CompactionIsOrdered(cfg, ms);
    forall i: nat | i < |ms|
      ensures CoverCount(Folds(b), i) == if Touched(b, i) then 1 else 0
    {
      FoldsCoverExactly(b, i);
    }
    forall x, y | 0 <= x < y < |Folds(b)|
      ensures Folds(b)[x].end <= Folds(b)[y].start
    {
      FoldsAreDisjoint(b, x, y);
    }
    TokensAreConserved(b);
  }

  /** A pinned message comes back verbatim, and no fold record covers it. */
  lemma PinnedIsUntouched(cfg: CompactConfig, ms: seq<Message>, i: nat)
    requires i < |ms| && IsPinned(ms[i])
    ensures exists j :: 0 <= j < |Outputs(BuildFor(cfg, ms))| && Outputs(BuildFor(cfg, ms))[j] == ms[i]
                        && Origin(BuildFor(cfg, ms), j) == Some(i)
    ensures CoverCount(Folds(BuildFor(cfg, ms)), i) == 0
  {
    hide Outputs, Folds, BuildFor, CoverCount, OrderedOrigins;
    var b := BuildFor(cfg, ms);
    BuildsFrom(cfg, ms);
    var src := OriginsAreSources(cfg, ms);
    CompactionIsOrdered(cfg, ms);
    PinnedDescendant(ms, Outputs(b), src, i);
    var j: nat :| j < |src| && src[j] == i && Outputs(b)[j] == ms[i];
    VerbatimIsUntouched(b, j, i);
    FoldsCoverExactly(b, i);
  }

  lemma BuildsFrom(cfg: CompactConfig, ms: seq<Message>)
    ensures BuildFor(cfg, ms).original == ms
  {
  }

  lemma VerbatimIsUntouched(b: Build, j: nat, i: nat)
    requires OrderedOrigins(b) && j < |b.compacted| && i < |b.original|
    requires Origin(b, j) == Some(i) && Outputs(b)[j] == b.original[i]
    ensures !Touched(b, i)
  {
    assert i in Present(b, |b.compacted|);
    assert !Rewritten(b, |b.compacted|, i);
  }
}
