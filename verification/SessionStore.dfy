/** Store garbage collection over a session: nothing the prompt or the recall index still names is lost. */
module SessionStore {
  import opened Options
  import opened Naturals
  import opened Messages
  import opened Agent
  import opened Conversation
  import opened DropOld
  import opened Budget
  import opened Summaries
  import opened Markers
  import opened TidyTexts
  import opened CutSummaries
  import opened Sorting
  import opened Compact
  import opened Compaction
  import opened Recall
  import opened Retention
  import opened Session
  import opened SessionRuns

  // ----- soundly linked messages -----

  /** Every id `m` names is among `ids`. */
  ghost predicate Sound(m: Message, ids: set<string>) {
    RefsOf(m) <= ids && WellLinked(m) && CleanName(m) && Flat(m.content)
  }

  ghost predicate AllSound(ms: seq<Message>, ids: set<string>) {
    forall i | 0 <= i < |ms| :: Sound(ms[i], ids)
  }

  lemma AllSoundMore(ms: seq<Message>, a: set<string>, b: set<string>)
    requires AllSound(ms, a) && a <= b
    ensures AllSound(ms, b)
  {
    hide RefsOf, WellLinked, CleanName, Flat;
  }

  // ----- the passes -----

  lemma StubIsSound(t: Toolkit, m: Message)
    requires KeysFit(t) && CleanName(m)
    ensures Sound(ClearedStub(t, m), {t.key(m.content)})
  {
    var id := t.key(m.content);
    assert KeyFits(id);
    hide KeyFits, Flat, Calm, MarkerIds, Contains, WellLinked;
    StubIsTidy(ToolNameOf(m), t.estimate(m.content), id);
    assert ClearedStub(t, m).metadata[CcrId] == id;
    FlatIsLinked(ClearedStub(t, m));
  }

  lemma {:induction false} ClearedIsSaved(c: Setting, ms: seq<Message>, from: nat, i: nat)
    requires from <= i < |ms| && ClearedAt(c, ms, i)
    ensures c.t.key(ms[i].content) in ClearedSaves(c, ms, from)
    decreases i - from
  {
    if from < i {
      ClearedIsSaved(c, ms, from + 1, i);
    }
  }

  lemma AgentPassSound(c: Setting, ms: seq<Message>, ids: set<string>)
    requires KeysFit(c.t) && AllSound(ms, ids)
    ensures AllSound(AgentPass(c, ms).messages, ids + AgentPass(c, ms).saved.Keys)
  {
    hide RefsOf, WellLinked, ClearedStub, ClearedAt, KeysFit;
    var p := AgentPass(c, ms);
    forall i | 0 <= i < |ms|
      ensures Sound(p.messages[i], ids + p.saved.Keys)
    {
      assert Sound(ms[i], ids);
      if ClearedAt(c, ms, i) {
        StubIsSound(c.t, ms[i]);
        ClearedIsSaved(c, ms, 0, i);
      }
    }
  }

  lemma {:induction false} PipelineKeeps(c: Setting, step: nat, n: nat, i: nat)
    requires i < n
    ensures c.world.pipeline(step, i).saves.Keys <= PipelineSaves(c, step, n).Keys
  {
    if i < n - 1 {
      PipelineKeeps(c, step, n - 1, i);
    }
  }

  lemma RewriteCleanName(m: Message, o: PipeOut)
    ensures CleanName(Rewrite(m, o)) <==> CleanName(m)
    ensures Rewrite(m, o).content == o.content
  {
  }

  lemma CompressedSound(c: Setting, step: nat, ms: seq<Message>, ids: set<string>)
    requires AllSound(ms, ids)
    requires forall i: nat | i < |ms| && !IsPinned(ms[i]) :: HonestRewrite(ms[i], c.world.pipeline(step, i))
    ensures AllSound(CompressedMiddle(c, step, ms), ids + PipelineSaves(c, step, |ms|).Keys)
  {
    hide RefsOf, WellLinked, CleanName, Flat, Rewrite;
    var saved := PipelineSaves(c, step, |ms|).Keys;
    forall i | 0 <= i < |ms|
      ensures Sound(CompressedMiddle(c, step, ms)[i], ids + saved)
    {
      assert Sound(ms[i], ids);
      if !IsPinned(ms[i]) {
        PipelineKeeps(c, step, |ms|, i);
        RewriteCleanName(ms[i], c.world.pipeline(step, i));
        FlatIsLinked(Rewrite(ms[i], c.world.pipeline(step, i)));
      }
    }
  }

  lemma RefsWithin(ms: seq<Message>, ids: set<string>)
    requires AllSound(ms, ids)
    ensures ReferencedIds(ms) <= ids
  {
    ReferencedByIndex(ms);
  }

  lemma SummaryCleanName(turns: seq<Message>)
    ensures CleanName(SummaryMessage(turns))
  {
    var name := "unknown";
    assert |name| == 7;
    forall i: nat
      ensures !MatchesAt(name, OPEN, i)
    {
      if i + 6 <= 7 {
        assert name[i + 0] != OPEN[0];
      }
    }
  }

  lemma HeadSound(c: Setting, ms: seq<Message>, cfg: BandConfig, ids: set<string>)
    requires |ms| > cfg.preserveRecent && AllSound(ms, ids)
    requires cfg.summaryOld ==> AllReadable(ms)
    ensures AllSound(Head(c, ms, cfg), ids)
  {
    hide RefsOf, WellLinked, CleanName, Flat, Calm, CutsCleanly, ReferencedIds, BandStart, SummaryMessage;
    if BandStart(ms, cfg) > 0 && cfg.summaryOld {
      var turns := ms[..BandStart(ms, cfg)];
      forall m | m in turns
        ensures Tidy(m.content)
      {
        var i :| 0 <= i < |turns| && turns[i] == m;
        assert Sound(ms[i], ids) && Readable(ms[i]) && !IsPinned(ms[i]);
      }
      AllSoundSlice(ms, 0, BandStart(ms, cfg), ids);
      assert ms[0..BandStart(ms, cfg)] == turns;
      RefsWithin(turns, ids);
      SummaryCleanName(turns);
      SummaryIsTidyIff(turns);
      FlatIsLinked(SummaryMessage(turns));
    }
  }

  lemma AllSoundConcat(a: seq<Message>, b: seq<Message>, ids: set<string>)
    ensures AllSound(a + b, ids) <==> AllSound(a, ids) && AllSound(b, ids)
  {
    hide Sound;
    if AllSound(a + b, ids) {
      assert forall i | 0 <= i < |a| :: a[i] == (a + b)[i];
      assert forall i | 0 <= i < |b| :: b[i] == (a + b)[|a| + i];
    }
  }

  lemma AllSoundSlice(ms: seq<Message>, s: nat, e: nat, ids: set<string>)
    requires s <= e <= |ms| && AllSound(ms, ids)
    ensures AllSound(ms[s..e], ids)
  {
    hide Sound;
  }

  lemma HistorySound(c: Setting, step: nat, ms: seq<Message>, cfg: BandConfig, ids: set<string>)
    requires AllSound(ms, ids) && HonestBand(c, step, ms, cfg)
    requires cfg.summaryOld ==> AllReadable(ms)
    ensures AllSound(HistoryPass(c, step, ms, cfg).messages, ids + HistoryPass(c, step, ms, cfg).saved.Keys)
  {
    hide Sound, Head, BandStart, HonestRewrite, RefsOf, WellLinked, CompressedMiddle, PipelineSaves, AllReadable;
    var p := HistoryPass(c, step, ms, cfg);
    if |ms| <= cfg.preserveRecent {
      AllSoundMore(ms, ids, ids + p.saved.Keys);
    } else {
      var b, rs, middle := BandStart(ms, cfg), |ms| - cfg.preserveRecent, Middle(c, ms, cfg);
      HeadSound(c, ms, cfg, ids);
      AllSoundSlice(ms, b, rs, ids);
      AllSoundConcat(Head(c, ms, cfg), ms[b..rs], ids);
      CompressedSound(c, step, middle, ids);
      AllSoundSlice(ms, rs, |ms|, ids);
      assert ms[rs..|ms|] == ms[rs..];
      AllSoundMore(ms[rs..], ids, ids + p.saved.Keys);
      AllSoundConcat(CompressedMiddle(c, step, middle), ms[rs..], ids + p.saved.Keys);
    }
  }

  lemma {:induction false} DropSound(c: Setting, ms: seq<Message>, running: nat, ids: set<string>)
    requires AllSound(ms, ids)
    ensures AllSound(DropFrom(c, ms, running).kept, ids) && AllSound(DropFrom(c, ms, running).dropped, ids)
    decreases |ms|
  {
    hide Sound, FindGroup, NextRunning, Continues;
    if Continues(c, ms, running) {
      DropStep(c, ms, running);
      var (s, e) := FindGroup(c, ms, 0).value;
      var ms' := Cut(ms, s, e);
      AllSoundSlice(ms, 0, s, ids);
      AllSoundSlice(ms, s, e, ids);
      AllSoundSlice(ms, e, |ms|, ids);
      assert ms[0..s] == ms[..s] && ms[e..|ms|] == ms[e..];
      AllSoundConcat(ms[..s], ms[e..], ids);
      var running' := NextRunning(c, running, ms[s..e], ms');
      DropSound(c, ms', running', ids);
      AllSoundConcat(ms[s..e], DropFrom(c, ms', running').dropped, ids);
    }
  }

  lemma NumberedIsReadable(ms: seq<Message>, n: nat)
    requires Numbered(ms, 0, n)
    ensures AllReadable(ms)
  {
  }

  lemma SoundNames(ms: seq<Message>, ids: set<string>)
    requires AllSound(ms, ids)
    ensures forall i | 0 <= i < |ms| :: CleanName(ms[i])
  {
    hide CleanName;
    forall i | 0 <= i < |ms|
      ensures CleanName(ms[i])
    {
      assert Sound(ms[i], ids);
    }
  }

  lemma CascadeSound(c: Setting, ms: seq<Message>, ids: set<string>, n: nat)
    requires KeysFit(c.t) && AllSound(ms, ids) && Numbered(ms, 0, n) && HonestCascade(c, ms)
    ensures var r := Cascade(c, ms);
            AllSound(r.messages, ids + r.saved.Keys) && AllSound(r.dropped, ids + r.saved.Keys)
  {
    hide AllSound, AgentPass, HistoryPass, DropFrom, PreserveRecent, HonestBand, KeysFit, Numbered, AllReadable, CleanName;
    var r := Cascade(c, ms);
    NothingIsSound(ids + r.saved.Keys);
    var a := AgentPass(c, ms);
    var p := PreserveRecent(c, a.messages);
    var b := MiddlePass(c, a.messages);
    var s := SummaryPass(c, b.messages);
    var ids1 := ids + a.saved.Keys;
    var ids2, ids3 := ids1 + b.saved.Keys, ids1 + b.saved.Keys + s.saved.Keys;
    AllSoundMore(ms, ids, ids + r.saved.Keys);
    AgentPassSound(c, ms, ids);
    SoundNames(ms, ids);
    AgentOrder(c, ms, n);
    HistoryOrder(c, 2, a.messages, BandConfig(p, SatSub(|a.messages|, p), false), n);
    NumberedIsReadable(b.messages, n);
    HistorySound(c, 2, a.messages, BandConfig(p, SatSub(|a.messages|, p), false), ids1);
    HistorySound(c, 3, b.messages, BandConfig(PreserveRecent(c, b.messages), 4, true), ids2);
    DropSound(c, s.messages, c.count(s.messages), ids3);
    assert (a.saved + b.saved).Keys == a.saved.Keys + b.saved.Keys;
    assert (a.saved + b.saved + s.saved).Keys == a.saved.Keys + b.saved.Keys + s.saved.Keys;
    assert ids + (a.saved + b.saved + s.saved).Keys == ids3 && ids + (a.saved + b.saved).Keys == ids2;
  }

  lemma NothingIsSound(ids: set<string>)
    ensures AllSound([], ids)
  {
  }

  // ----- rewrites that leave the links alone -----

  predicate SameLinks(m: Message, m': Message) {
    && m'.content == m.content
    && (CcrId in m'.metadata <==> CcrId in m.metadata)
    && (CcrId in m.metadata ==> m'.metadata[CcrId] == m.metadata[CcrId])
    && ToolNameOf(m') == ToolNameOf(m)
  }

  lemma SameLinksSound(m: Message, m': Message, ids: set<string>)
    requires SameLinks(m, m')
    ensures Sound(m, ids) <==> Sound(m', ids)
    ensures RefsOf(m') == RefsOf(m)
  {
  }

  lemma SameLinksAll(a: seq<Message>, b: seq<Message>, ids: set<string>)
    requires |a| == |b| && forall i | 0 <= i < |a| :: SameLinks(a[i], b[i])
    ensures AllSound(a, ids) <==> AllSound(b, ids)
    ensures ReferencedIds(a) == ReferencedIds(b)
  {
    hide SameLinks, Sound, RefsOf, ReferencedIds;
    forall i | 0 <= i < |a|
      ensures Sound(a[i], ids) <==> Sound(b[i], ids)
      ensures RefsOf(a[i]) == RefsOf(b[i])
    {
      SameLinksSound(a[i], b[i], ids);
    }
    SameMembers(a, b);
  }

  lemma SameMembers(a: seq<Message>, b: seq<Message>)
    requires |a| == |b| && forall i | 0 <= i < |a| :: RefsOf(a[i]) == RefsOf(b[i])
    ensures ReferencedIds(a) == ReferencedIds(b)
  {
    hide RefsOf, ReferencedIds;
    ReferencedByIndex(a);
    ReferencedByIndex(b);
    forall id
      ensures id in ReferencedIds(a) <==> id in ReferencedIds(b)
    {
      if id in ReferencedIds(a) {
        var j :| 0 <= j < |a| && id in RefsOf(a[j]);
        assert id in RefsOf(b[j]);
      }
      if id in ReferencedIds(b) {
        var j :| 0 <= j < |b| && id in RefsOf(b[j]);
        assert id in RefsOf(a[j]);
      }
    }
  }

  lemma {:induction false} MarkingKeepsLinks(ms: seq<Message>, folds: seq<FoldRecord>, j: nat)
    requires j < |ms|
    ensures SameLinks(ms[j], MarkReplacements(ms, folds)[j])
    decreases |folds|
  {
    if folds != [] {
      MarkingKeepsLinks(MarkReplacement(ms, folds[0]), folds[1..], j);
    }
  }

  lemma AnnotatingKeepsLinks(ms: seq<Message>, policy: CachePolicy, j: nat)
    requires j < |ms|
    ensures SameLinks(ms[j], Annotated(ms, policy)[j])
  {
  }

  lemma RestoringKeepsLinks(saved: seq<Option<string>>, m: Message)
    ensures SameLinks(m, Restored(saved, m))
  {
  }

  lemma PinningKeepsLinks(ms: seq<Message>, i: nat)
    requires i < |ms|
    ensures SameLinks(ms[i], TaggedAll(PinFinalized(ms))[i])
  {
  }

  // ----- one compaction -----

  lemma WorkedSound(cfg: CompactConfig, ms: seq<Message>, ids: set<string>, n: nat)
    requires KeysFit(cfg.setting.t) && AllSound(ms, ids) && Numbered(ms, 0, n)
    requires cfg.hasBudget ==> HonestCascade(cfg.setting, ms)
    ensures var w := Worked(cfg, ms);
            AllSound(w.messages, ids + w.saved.Keys) && AllSound(w.dropped, ids + w.saved.Keys)
  {
    hide Cascade, AgentPass, HonestCascade, AllSound, KeysFit, Numbered;
    if cfg.hasBudget {
      CascadeSound(cfg.setting, ms, ids, n);
    } else {
      AgentPassSound(cfg.setting, ms, ids);
      NothingIsSound(ids + Worked(cfg, ms).saved.Keys);
    }
  }

  /** A fold record's CCR id is an id one of the resulting or dropped messages references. */
  lemma FoldIdIsLinked(b: Build, f: FoldRecord, ids: set<string>)
    requires AllSound(Outputs(b), ids) && AllSound(b.dropped, ids)
    requires f in Folds(b) && f.ccrId.Some?
    ensures f.ccrId.value in ids
  {
    InSorted(FoldLe, UnsortedFolds(b), f);
    UnfoldedIs(b);
    if f in ReplacedFolds(b, |b.compacted|) {
      ReplacedLinked(b, |b.compacted|, f, ids);
    } else if f in SummaryFolds(b) {
      SummariesAreIndices(b, |b.compacted|);
      var j := SummariesFrom(b, |b.compacted|)[0];
      assert Sound(Outputs(b)[j], ids);
    } else {
      DroppedLinked(b, Unfolded(b), f, ids);
    }
  }

  lemma {:induction false} ReplacedLinked(b: Build, k: nat, f: FoldRecord, ids: set<string>)
    requires k <= |b.compacted| && AllSound(Outputs(b), ids)
    requires f in ReplacedFolds(b, k) && f.ccrId.Some?
    ensures f.ccrId.value in ids
  {
    hide Restored, RefsOf, CcrIdOf, ClassifyReplacement, CleanName;
    if ChangedAt(b, k - 1) && f == ReplacedFold(b, k - 1) {
      assert Sound(Outputs(b)[k - 1], ids);
    } else {
      ReplacedLinked(b, k - 1, f, ids);
    }
  }

  lemma {:induction false} DroppedLinked(b: Build, xs: seq<nat>, f: FoldRecord, ids: set<string>)
    requires AllBelow(xs, |b.original|) && AllSound(b.dropped, ids)
    requires f in DroppedFolds(b, xs) && f.ccrId.Some?
    ensures f.ccrId.value in ids
  {
    hide RefsOf, CcrIdOf, OriginOf, CleanName;
    var stub := FindDropped(b.dropped, xs[0]);
    if f == FoldForDropped(b.a, b.original, xs[0], stub) {
      var i :| 0 <= i < |b.dropped| && b.dropped[i] == stub.value;
      assert Sound(b.dropped[i], ids);
    } else {
      DroppedLinked(b, xs[1..], f, ids);
    }
  }

  /** Links of everything a draft holds, in terms of the store before and what the call saved. */
  lemma DraftSound(cfg: SessionConfig, s: State, call: Call)
    requires KeysFit(cfg.t) && AllSound(s.messages, s.store.Keys) && AllReadable(s.messages) && HonestCall(cfg, s, call)
    ensures var d := DraftOf(cfg, s, call); var ids := s.store.Keys + d.saved.Keys;
            && AllSound(d.marked, ids)
            && (forall f | f in d.newFolds && f.ccrId.Some? :: f.ccrId.value in ids)
  {
    hide Worked, AllSound, AllReadable, Numbered, HonestCascade, Folds, SameLinks, KeysFit, MarkReplacements, CacheMark, TaggedAll, Restored, RefsOf, ReferencedIds, IsFinalized;
    var cc, pinned, d := ConfigFor(cfg, call.world), PinFinalized(s.messages), DraftOf(cfg, s, call);
    var tagged, b, ids := TaggedAll(pinned), d.build, s.store.Keys + d.saved.Keys;
    forall i | 0 <= i < |tagged|
      ensures SameLinks(s.messages[i], tagged[i])
    {
      PinningKeepsLinks(s.messages, i);
    }
    SameLinksAll(s.messages, tagged, s.store.Keys);
    TaggingNumbers(s.messages);
    WorkedSound(cc, tagged, s.store.Keys, |s.messages|);
    var out := Outputs(b);
    forall j | 0 <= j < |out|
      ensures SameLinks(b.compacted[j], out[j])
    {
      RestoringKeepsLinks(b.saved, b.compacted[j]);
    }
    SameLinksAll(b.compacted, out, ids);
    var annotated := Annotated(out, cfg.cache);
    forall j | 0 <= j < |out|
      ensures SameLinks(out[j], annotated[j])
    {
      AnnotatingKeepsLinks(out, cfg.cache, j);
    }
    SameLinksAll(out, annotated, ids);
    forall j | 0 <= j < |out|
      ensures SameLinks(annotated[j], d.marked[j])
    {
      MarkingKeepsLinks(annotated, d.newFolds, j);
    }
    SameLinksAll(annotated, d.marked, ids);
    forall f | f in d.newFolds && f.ccrId.Some?
      ensures f.ccrId.value in ids
    {
      var k :| 0 <= k < |d.newFolds| && d.newFolds[k] == f;
      FoldIdIsLinked(b, Folds(b)[k], ids);
    }
  }

  lemma {:induction false} IndexFoldsFacts(lex: Lexicon, docs: seq<Doc>, folds: seq<FoldRecord>, originals: seq<Message>, ids: set<string>)
    requires UniqueIds(docs) && Ids(docs) <= ids
    requires forall f | f in folds && f.ccrId.Some? :: f.ccrId.value in ids
    ensures UniqueIds(IndexFolds(lex, docs, folds, originals))
    ensures Ids(IndexFolds(lex, docs, folds, originals)) <= ids
    decreases |folds|
  {
    hide UniqueIds, Ids, Indexed;
    if folds != [] {
      var f := folds[0];
      if f.ccrId.Some? && f.start <= f.end <= |originals| {
        IndexedFacts(lex, docs, f.ccrId.value, f.kind, f.tags, JoinedText(originals[f.start..f.end]));
      }
      IndexFoldsFacts(lex, IndexFold(lex, docs, f, originals), folds[1..], originals, ids);
    }
  }

  lemma KeptSound(cfg: SessionConfig, ms: seq<Message>, ids: set<string>, call: Call)
    requires AllSound(ms, ids)
    ensures AllSound(Retained(cfg, ms).kept, ids - Evicted(cfg, call, ms))
  {
    hide RefsOf, WellLinked, CleanName, Flat, Evict;
    var kept := Retained(cfg, ms).kept;
    forall i | 0 <= i < |kept|
      ensures Sound(kept[i], ids - Evicted(cfg, call, ms))
    {
      assert kept[i] in kept;
      if cfg.retention.EvictFinalized? {
        EvictKeepsMembers(ms, EvictCount(ms, cfg.retention.maxFinalized));
      }
      assert kept[i] in ms;
      var j :| 0 <= j < |ms| && ms[j] == kept[i];
      assert Sound(ms[j], ids);
      assert RefsOf(kept[i]) <= ReferencedIds(kept);
    }
  }

  /** Retention never deletes an original that the prompt it leaves still references, whatever the
      messages contain. */
  lemma NeverDeletesReferenced(cfg: SessionConfig, s: State, call: Call)
    requires !IsRefused(cfg, s, call)
    ensures ReferencedIds(Next(cfg, s, call).messages) !! Evicted(cfg, call, DraftOf(cfg, s, call).marked)
  {
    hide ReferencedIds, RefsOf, DraftOf, IndexFolds, WithoutAll, SameLinks;
    var kept := Retained(cfg, DraftOf(cfg, s, call).marked).kept;
    forall j | 0 <= j < |kept|
      ensures SameLinks(kept[j], Annotated(kept, cfg.cache)[j])
    {
      AnnotatingKeepsLinks(kept, cfg.cache, j);
    }
    SameLinksAll(kept, Annotated(kept, cfg.cache), {});
  }

  /** And it deletes everything else it may: of what was stored, exactly the originals that an evicted
      message referenced, that the prompt no longer references and whose delete succeeds, and only when
      the policy collects originals. */
  lemma DeletesExactlyOrphans(cfg: SessionConfig, s: State, call: Call, id: string)
    requires !IsRefused(cfg, s, call) && id in s.store.Keys + DraftOf(cfg, s, call).saved.Keys
    ensures id !in Next(cfg, s, call).store
       <==> && cfg.retention.EvictFinalized? && cfg.retention.evictOriginals && cfg.hasStore && call.deletes(id)
            && (exists m :: m in Retained(cfg, DraftOf(cfg, s, call).marked).removed && id in RefsOf(m))
            && (forall m | m in Next(cfg, s, call).messages :: id !in RefsOf(m))
  {
    hide RefsOf, DraftOf, IndexFolds, WithoutAll, SameLinks, Evict, Annotated, IsRefused;
    var kept := Retained(cfg, DraftOf(cfg, s, call).marked).kept;
    forall j | 0 <= j < |kept|
      ensures SameLinks(kept[j], Annotated(kept, cfg.cache)[j])
    {
      AnnotatingKeepsLinks(kept, cfg.cache, j);
    }
    SameLinksAll(kept, Annotated(kept, cfg.cache), {});
    assert (forall m | m in Next(cfg, s, call).messages :: id !in RefsOf(m)) <==> id !in ReferencedIds(kept);
  }

  /** The invariant: every id the prompt references, and every id in the recall index, is in the store. */
  ghost predicate Retrievable(s: State) {
    && AllSound(s.messages, s.store.Keys)
    && AllReadable(s.messages)
    && UniqueIds(s.docs)
    && Ids(s.docs) <= s.store.Keys
  }

  lemma CompactKeepsRetrievable(cfg: SessionConfig, s: State, call: Call)
    requires KeysFit(cfg.t) && Retrievable(s) && HonestCall(cfg, s, call)
    ensures Retrievable(Next(cfg, s, call))
  {
    hide AllSound, AllReadable, UniqueIds, Ids, DraftOf, Evicted, IndexFolds, WithoutAll, Retained, SameLinks, HonestCall, KeysFit, Annotated, CleanName;
    var d, s' := DraftOf(cfg, s, call), Next(cfg, s, call);
    var ids := s.store.Keys + d.saved.Keys;
    assert (s.store + d.saved).Keys == ids;
    if IsRefused(cfg, s, call) {
      AllSoundMore(s.messages, s.store.Keys, ids);
    } else {
      var evicted, kept := Evicted(cfg, call, d.marked), Retained(cfg, d.marked).kept;
      assert s'.store.Keys == ids - evicted;
      DraftSound(cfg, s, call);
      SoundNames(s.messages, s.store.Keys);
      DraftIsReadable(cfg, s, call);
      KeptReadable(cfg, d.marked);
      KeptSound(cfg, d.marked, ids, call);
      forall j | 0 <= j < |kept|
        ensures SameLinks(kept[j], Annotated(kept, cfg.cache)[j])
      {
        AnnotatingKeepsLinks(kept, cfg.cache, j);
      }
      SameLinksAll(kept, Annotated(kept, cfg.cache), ids - evicted);
      IndexFoldsFacts(cfg.lex, s.docs, d.newFolds, s.messages, ids);
      var docs := IndexFolds(cfg.lex, s.docs, d.newFolds, s.messages);
      WithoutAllUnique(docs, evicted);
      WithoutAllIds(docs, evicted, ids);
    }
  }

  lemma KeptReadable(cfg: SessionConfig, ms: seq<Message>)
    requires AllReadable(ms)
    ensures AllReadable(Annotated(Retained(cfg, ms).kept, cfg.cache))
  {
    hide Readable, Evict, Annotated;
    var kept := Retained(cfg, ms).kept;
    forall j | 0 <= j < |kept|
      ensures Readable(Annotated(kept, cfg.cache)[j])
    {
      assert kept[j] in kept;
      if cfg.retention.EvictFinalized? {
        EvictKeepsMembers(ms, EvictCount(ms, cfg.retention.maxFinalized));
      }
      assert kept[j] in ms;
      AnnotatingKeepsReadable(kept, cfg.cache, j);
    }
  }

  lemma WithoutAllIds(docs: seq<Doc>, evicted: set<string>, ids: set<string>)
    requires Ids(docs) <= ids
    ensures Ids(WithoutAll(docs, evicted)) <= ids - evicted
  {
    hide WithoutAll;
    WithoutAllMembers(docs, evicted);
  }

  // ----- every run -----

  /** A message without references, whose tool name and first sentence open no marker. */
  ghost predicate QuietPush(m: Message) {
    RefsOf(m) == {} && CleanName(m) && !Contains(FirstSentence(m.content), OPEN)
  }

  /** The host pushes quiet messages, and every compaction meets an honest world. */
  ghost predicate HonestRun(cfg: SessionConfig, s: State, events: seq<Event>)
    decreases |events|
  {
    events != [] ==>
      && (events[0].Pushed? ==> QuietPush(events[0].message))
      && (events[0].CompactCalled? ==> HonestCall(cfg, s, events[0].call))
      && HonestRun(cfg, After(cfg, s, events[0]), events[1..])
  }

  lemma PushKeepsRetrievable(s: State, m: Message)
    requires Retrievable(s) && QuietPush(m)
    ensures Retrievable(s.(messages := s.messages + [m]))
  {
    QuietIsTidy(m.content);
    hide CleanName, UniqueIds, WellLinked, Flat, Calm, MarkerIds, FirstSentence, Contains;
    FlatIsLinked(m);
    AllSoundConcat(s.messages, [m], s.store.Keys);
  }

  /** Over any run with a non-evicting store, everything the prompt references and everything the recall
      index offers is still in the store. */
  lemma {:induction false} EverythingNamedIsStored(cfg: SessionConfig, s: State, events: seq<Event>)
    requires KeysFit(cfg.t) && Retrievable(s) && HonestRun(cfg, s, events)
    ensures Retrievable(Run(cfg, s, events))
    decreases |events|
  {
    hide After, Retrievable, HonestCall, KeysFit, QuietPush;
    if events != [] {
      AfterKeepsRetrievable(cfg, s, events[0]);
      EverythingNamedIsStored(cfg, After(cfg, s, events[0]), events[1..]);
    }
  }

  lemma AfterKeepsRetrievable(cfg: SessionConfig, s: State, e: Event)
    requires KeysFit(cfg.t) && Retrievable(s)
    requires e.Pushed? ==> QuietPush(e.message)
    requires e.CompactCalled? ==> HonestCall(cfg, s, e.call)
    ensures Retrievable(After(cfg, s, e))
  {
    hide Retrievable, HonestCall, KeysFit, QuietPush, Next;
    match e
    case Pushed(m) => PushKeepsRetrievable(s, m);
    case CompactCalled(call) => CompactKeepsRetrievable(cfg, s, call);
  }

  /** Read off the invariant. */
  lemma RetrievableMeans(s: State)
    requires Retrievable(s)
    ensures ReferencedIds(s.messages) <= s.store.Keys && Ids(s.docs) <= s.store.Keys
  {
    RefsWithin(s.messages, s.store.Keys);
  }

  lemma EmptySessionIsRetrievable()
    ensures Retrievable(EmptyState)
  {
  }
}
