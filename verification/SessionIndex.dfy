/** The recall index of a session, over every run. */
module SessionIndex {
  import opened Naturals
  import opened Messages
  import opened Sorting
  import opened FoldTagLists
  import opened Compact
  import opened Compaction
  import opened Recall
  import opened RecallRuns
  import opened RecallScores
  import opened Session
  import opened SessionRuns

  /** What one compaction does to the index: each fold with an id and an original text is put, with the
      tags observed in the messages it covers. */
  function FoldOps(a: Audit, folds: seq<FoldRecord>, covered: seq<Message>, originals: seq<Message>): seq<IndexOp> {
    if folds == [] then []
    else
      var f, rest := folds[0], FoldOps(a, folds[1..], covered, originals);
      if f.ccrId.None? || !(f.start <= f.end <= |originals| && f.end <= |covered|) || JoinedText(originals[f.start..f.end]) == ""
      then rest
      else [Put(f.ccrId.value, f.kind, a.rawTags(covered[f.start..f.end]), JoinedText(originals[f.start..f.end]))] + rest
  }

  /** What one event does to the index. */
  function OpsOf(cfg: SessionConfig, s: State, e: Event): seq<IndexOp> {
    if e.Pushed? || IsRefused(cfg, s, e.call) then []
    else
      var d := DraftOf(cfg, s, e.call);
      FoldOps(cfg.audit, d.newFolds, d.build.original, s.messages) + [Drop(Evicted(cfg, e.call, d.marked))]
  }

  function IndexHistory(cfg: SessionConfig, s: State, events: seq<Event>): seq<IndexOp>
    decreases |events|
  {
    if events == [] then [] else OpsOf(cfg, s, events[0]) + IndexHistory(cfg, After(cfg, s, events[0]), events[1..])
  }

  /** A fold carries the normalised tags of exactly the messages it covers. */
  ghost predicate TaggedByCover(b: Build, f: FoldRecord) {
    f.start <= f.end <= |b.original| && f.tags == NormalTags(b.a.rawTags(b.original[f.start..f.end]))
  }

  lemma {:induction false} ReplacedTagged(b: Build, k: nat)
    requires k <= |b.compacted|
    ensures forall f | f in ReplacedFolds(b, k) :: TaggedByCover(b, f)
  {
    if k > 0 {
      ReplacedTagged(b, k - 1);
    }
  }

  lemma {:induction false} DroppedTagged(b: Build, xs: seq<nat>)
    requires AllBelow(xs, |b.original|)
    ensures forall f | f in DroppedFolds(b, xs) :: TaggedByCover(b, f)
  {
    if xs != [] {
      DroppedTagged(b, xs[1..]);
    }
  }

  lemma FoldsAreTaggedByCover(b: Build, f: FoldRecord)
    requires f in Folds(b)
    ensures TaggedByCover(b, f)
  {
    hide TaggedByCover;
    UnfoldedIs(b);
    ReplacedTagged(b, |b.compacted|);
    DroppedTagged(b, Unfolded(b));
    SummaryTagged(b);
    InSorted(FoldLe, UnsortedFolds(b), f);
  }

  lemma SummaryTagged(b: Build)
    ensures forall f | f in SummaryFolds(b) :: TaggedByCover(b, f)
  {
  }

  /** Indexing the folds is replaying their operations. */
  lemma {:induction false} IndexingIsReplay(lex: Lexicon, docs: seq<Doc>, a: Audit, folds: seq<FoldRecord>, covered: seq<Message>, originals: seq<Message>)
    requires |covered| == |originals|
    requires forall f | f in folds :: f.start <= f.end <= |covered| && f.tags == NormalTags(a.rawTags(covered[f.start..f.end]))
    ensures IndexFolds(lex, docs, folds, originals) == Replay(lex, docs, FoldOps(a, folds, covered, originals))
    decreases |folds|
  {
    hide Indexed;
    if folds != [] {
      var f := folds[0];
      assert f in folds;
      IndexingIsReplay(lex, IndexFold(lex, docs, f, originals), a, folds[1..], covered, originals);
      var ops, rest := FoldOps(a, folds, covered, originals), FoldOps(a, folds[1..], covered, originals);
      if ops != rest {
        ReplayOne(lex, docs, ops[0]);
        ReplayConcat(lex, docs, [ops[0]], rest);
        assert ops == [ops[0]] + rest;
      }
    }
  }

  lemma ReplayOne(lex: Lexicon, docs: seq<Doc>, op: IndexOp)
    ensures Replay(lex, docs, [op]) == Apply(lex, docs, op)
  {
    assert [op][..0] == [];
    assert Replay(lex, docs, []) == docs;
  }

  lemma StepIsReplay(cfg: SessionConfig, s: State, e: Event)
    ensures After(cfg, s, e).docs == Replay(cfg.lex, s.docs, OpsOf(cfg, s, e))
  {
    hide Folds, BuildFor, Annotated, Retained, Evicted, MarkReplacements, Worked, Apply, IndexFolds, FoldOps, Refuses;
    if e.CompactCalled? && !IsRefused(cfg, s, e.call) {
      var d, b := DraftOf(cfg, s, e.call), DraftOf(cfg, s, e.call).build;
      BuildOriginals(ConfigFor(cfg, e.call.world), PinFinalized(s.messages));
      forall f | f in d.newFolds
        ensures f.start <= f.end <= |b.original| && f.tags == NormalTags(cfg.audit.rawTags(b.original[f.start..f.end]))
      {
        var k :| 0 <= k < |d.newFolds| && d.newFolds[k] == f;
        assert Folds(b)[k] in Folds(b);
        FoldsAreTaggedByCover(b, Folds(b)[k]);
      }
      IndexingIsReplay(cfg.lex, s.docs, cfg.audit, d.newFolds, b.original, s.messages);
      var puts, drop := FoldOps(cfg.audit, d.newFolds, b.original, s.messages), Drop(Evicted(cfg, e.call, d.marked));
      ReplayConcat(cfg.lex, s.docs, puts, [drop]);
      ReplayOne(cfg.lex, Replay(cfg.lex, s.docs, puts), drop);
      DropIsWithoutAll(cfg.lex, Replay(cfg.lex, s.docs, puts), Evicted(cfg, e.call, d.marked));
    }
  }

  lemma BuildOriginals(cfg: CompactConfig, ms: seq<Message>)
    ensures BuildFor(cfg, ms).original == ms && BuildFor(cfg, ms).a == cfg.audit
  {
  }

  lemma DropIsWithoutAll(lex: Lexicon, docs: seq<Doc>, ids: set<string>)
    ensures Apply(lex, docs, Drop(ids)) == WithoutAll(docs, ids)
  {
  }

  /** Over any run the index is what its history of indexing and forgetting makes of it. */
  lemma {:induction false} IndexFollowsItsHistory(cfg: SessionConfig, s: State, events: seq<Event>)
    ensures Run(cfg, s, events).docs == Replay(cfg.lex, s.docs, IndexHistory(cfg, s, events))
    decreases |events|
  {
    hide After, OpsOf, Apply;
    if events != [] {
      var s' := After(cfg, s, events[0]);
      StepIsReplay(cfg, s, events[0]);
      IndexFollowsItsHistory(cfg, s', events[1..]);
      ReplayConcat(cfg.lex, s.docs, OpsOf(cfg, s, events[0]), IndexHistory(cfg, s', events[1..]));
    }
  }

  /** In every session, each indexed document carries, per kind, the 64 smallest of all tags observed in
      the messages folded under its id since it was last forgotten. */
  lemma SessionTagsAreTheSmallest(cfg: SessionConfig, events: seq<Event>, d: Doc, kind: FoldTagKind)
    requires d in Run(cfg, EmptyState, events).docs
    ensures var given := Given(IndexHistory(cfg, EmptyState, events), d.ccrId, kind);
            given != [] && IsSmallest(MAX_TAGS_PER_KIND, Elements(Concat(given)), Values(d.tags, kind))
  {
    hide *;
    NoDocsAtFirst();
    IndexFollowsItsHistory(cfg, EmptyState, events);
    DocumentTagsAreTheSmallest(cfg.lex, IndexHistory(cfg, EmptyState, events), d, kind);
  }

  /** In every session a recall search not cut short by its limit finds an id exactly when the text of the
      messages last folded under it, and not forgotten since, shares a term with the query. */
  lemma SessionSearchFinds(cfg: SessionConfig, events: seq<Event>, query: string, limit: nat, hits: seq<RecallHit>, id: string)
    requires LnLaws(cfg.lex) && IsSearchResult(cfg.lex, Run(cfg, EmptyState, events).docs, query, limit, hits) && |hits| < limit
    ensures var text := LatestText(IndexHistory(cfg, EmptyState, events), id);
            (exists h :: h in hits && h.ccrId == id) <==>
              text.Some? && exists t :: t in cfg.lex.extractTerms(text.value) && t in cfg.lex.extractTerms(query)
  {
    hide *;
    NoDocsAtFirst();
    IndexFollowsItsHistory(cfg, EmptyState, events);
    FoundIff(cfg.lex, IndexHistory(cfg, EmptyState, events), query, limit, hits, id);
  }

  lemma NoDocsAtFirst()
    ensures EmptyState.docs == []
  {
  }
}
