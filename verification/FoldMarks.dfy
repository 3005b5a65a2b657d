/** What a fold leaves in the prompt: its replacement is finalized, and stays so until retention takes it. */
module FoldMarks {
  import opened Options
  import opened Naturals
  import opened Messages
  import opened Sorting
  import opened Provenance
  import opened Compact
  import opened Compaction
  import opened FoldIds
  import opened Retention
  import opened Session
  import opened SessionRuns

  // ----- which outputs are replacements -----

  lemma {:induction false} ReplacedNames(b: Build, k: nat, j: nat)
    requires k <= |b.compacted|
    ensures IsReplacement(ReplacedFolds(b, k), j) <==> j < k && ChangedAt(b, j)
  {
    hide ClassifyReplacement, Output, ContentTokens, CcrIdOf;
    if k > 0 {
      ReplacedNames(b, k - 1, j);
      if ChangedAt(b, k - 1) {
        ReplacementSnoc(ReplacedFolds(b, k - 1), ReplacedFold(b, k - 1), j);
      }
    }
  }

  lemma ReplacementSnoc(folds: seq<FoldRecord>, f: FoldRecord, j: nat)
    ensures IsReplacement(folds + [f], j) <==> IsReplacement(folds, j) || f.replacementIndex == Some(j)
  {
    assert f in folds + [f];
  }

  lemma {:induction false} DroppedNameNothing(b: Build, xs: seq<nat>, j: nat)
    requires AllBelow(xs, |b.original|)
    ensures !IsReplacement(DroppedFolds(b, xs), j)
  {
    hide ContentTokens, CcrIdOf, FindDropped;
    if xs != [] {
      DroppedNameNothing(b, xs[1..], j);
      ReplacementSplit(DroppedFolds(b, xs), j);
    }
  }

  /** The position of the summary that stands in for missing originals. */
  predicate StandsIn(b: Build, j: nat) {
    SummarySpan(b).0 < SummarySpan(b).1 && j < |b.compacted| && SummariesFrom(b, |b.compacted|) != []
    && SummariesFrom(b, |b.compacted|)[0] == j
  }

  lemma SummaryNames(b: Build, j: nat)
    ensures IsReplacement(SummaryFolds(b), j) <==> StandsIn(b, j)
    ensures StandsIn(b, j) ==> Origin(b, j).None? && IsSummary(Output(b, j))
  {
    hide ContentTokens, CcrIdOf, IsSummary, SummarySpan;
    SummariesAreIndices(b, |b.compacted|);
  }

  /** The replacements of a compaction are exactly the outputs that differ from their original, and the
      summary that stands in for missing ones. */
  lemma ReplacementIff(b: Build, j: nat)
    ensures IsReplacement(Folds(b), j) <==> (j < |b.compacted| && ChangedAt(b, j)) || StandsIn(b, j)
    ensures StandsIn(b, j) ==> Origin(b, j).None? && IsSummary(Output(b, j))
  {
    hide ReplacedFolds, SummaryFolds, DroppedFolds, StandsIn, ChangedAt, IsSummary, Output, FoldLe;
    UnfoldedIs(b);
    ReplacedNames(b, |b.compacted|, j);
    SummaryNames(b, j);
    DroppedNameNothing(b, Unfolded(b), j);
    forall f
      ensures f in Folds(b) <==>
              f in ReplacedFolds(b, |b.compacted|) || f in SummaryFolds(b) || f in DroppedFolds(b, Unfolded(b))
    {
      InSorted(FoldLe, UnsortedFolds(b), f);
    }
  }

  // ----- one compaction -----

  lemma RenamingKeepsReplacements(used: set<string>, folds: seq<FoldRecord>, j: nat)
    ensures IsReplacement(Uniquified(used, folds), j) <==> IsReplacement(folds, j)
  {
    var renamed := Uniquified(used, folds);
    hide Uniquified;
    if IsReplacement(renamed, j) {
      var f :| f in renamed && f.replacementIndex == Some(j);
      var k :| 0 <= k < |renamed| && renamed[k] == f;
      assert folds[k] in folds;
    }
    if IsReplacement(folds, j) {
      var f :| f in folds && f.replacementIndex == Some(j);
      var k :| 0 <= k < |folds| && folds[k] == f;
      assert renamed[k] in renamed;
    }
  }

  /** `m'` is `m` with both session flags set and nothing else touched, its cache annotation aside. */
  ghost predicate FinalOutput(m: Message, m': Message) {
    && m'.role == m.role && m'.content == m.content
    && HasTag(m', SessionFinalized, "true") && HasTag(m', Pinned, "true")
    && (forall k | k !in {SessionFinalized, Pinned, CacheControl} :: k in m'.metadata <==> k in m.metadata)
    && (forall k | k !in {SessionFinalized, Pinned, CacheControl} && k in m.metadata && k in m'.metadata :: m'.metadata[k] == m.metadata[k])
  }

  lemma AnnotatedThenFinal(ms: seq<Message>, policy: CachePolicy, j: nat, m: Message)
    requires j < |ms| && FinalCopy(Annotated(ms, policy)[j], m)
    ensures FinalOutput(ms[j], m)
  {
    hide IsBreakpoint;
  }

  /** The message a fold of this compaction names as its replacement is in the prompt, finalized and
      pinned, with the content and the other metadata of the compaction's output. */
  lemma FoldedIsFinal(cfg: SessionConfig, s: State, call: Call, f: FoldRecord, j: nat)
    requires f in DraftOf(cfg, s, call).newFolds && f.replacementIndex == Some(j)
    ensures var d := DraftOf(cfg, s, call);
            j < |d.marked| && j < |Outputs(d.build)| && FinalOutput(Outputs(d.build)[j], d.marked[j])
  {
    hide Folds, Outputs, Annotated, Uniquified, MarkReplacements, Worked, BuildFor, StandsIn, FinalCopy, FinalOutput, ChangedAt;
    var d := DraftOf(cfg, s, call);
    var annotated := Annotated(Outputs(d.build), cfg.cache);
    MarkingIsExact(annotated, d.newFolds);
    assert IsReplacement(d.newFolds, j);
    RenamingKeepsReplacements(IdSet(s.folds), Folds(d.build), j);
    ReplacementIff(d.build, j);
    StandInIsThere(d.build, j);
    AnnotatedThenFinal(Outputs(d.build), cfg.cache, j, d.marked[j]);
  }

  lemma StandInIsThere(b: Build, j: nat)
    ensures StandsIn(b, j) ==> j < |b.compacted|
  {
  }

  /** After a compaction a message is finalized exactly when it is the replacement of a new fold, or
      comes from a message that was finalized before. */
  lemma FinalizedIff(cfg: SessionConfig, s: State, call: Call) returns (src: seq<int>)
    ensures var d := DraftOf(cfg, s, call);
            && |src| == |d.marked| == |Outputs(d.build)|
            && (forall j | 0 <= j < |src| :: -1 <= src[j] < |s.messages|)
            && (forall j: nat | j < |src| :: Origin(d.build, j) == if src[j] < 0 then None else Some(src[j]))
            && (forall j: nat | j < |src| ::
                  IsFinalized(d.marked[j]) <==>
                  IsReplacement(d.newFolds, j) || (src[j] >= 0 && IsFinalized(s.messages[src[j]])))
            && (forall j: nat | j < |src| && !IsReplacement(d.newFolds, j) :: d.marked[j] == Annotated(Outputs(d.build), cfg.cache)[j])
  {
    var cc, pinned, d := ConfigFor(cfg, call.world), PinFinalized(s.messages), DraftOf(cfg, s, call);
    src := OriginsAreSources(cc, pinned);
    hide Folds, Outputs, Annotated, Uniquified, MarkReplacements, Worked, BuildFor, FinalCopy, IsFinalized, IsReplacement, Kin, Fresh, CoversPinned, Origin;
    var out := Outputs(d.build);
    MarkingIsExact(Annotated(out, cfg.cache), d.newFolds);
    forall j: nat | j < |src|
      ensures IsFinalized(d.marked[j]) <==> IsReplacement(d.newFolds, j) || (src[j] >= 0 && IsFinalized(s.messages[src[j]]))
    {
      AnnotatedFinalized(out, cfg.cache, j);
      if src[j] >= 0 {
        FinalizedOfKin(pinned[src[j]], out[j]);
        PinningKeepsFinalized(s.messages[src[j]]);
      } else {
        FreshIsNotFinalized(out[j]);
      }
      FinalCopyIsFinalized(Annotated(out, cfg.cache)[j], d.marked[j]);
    }
  }

  lemma AnnotatedFinalized(ms: seq<Message>, policy: CachePolicy, j: nat)
    requires j < |ms|
    ensures IsFinalized(Annotated(ms, policy)[j]) <==> IsFinalized(ms[j])
  {
    CacheMarkSettled(ms, policy, j);
  }

  lemma PinningKeepsFinalized(m: Message)
    ensures IsFinalized(PinnedIfFinalized(m)) <==> IsFinalized(m)
  {
  }

  lemma FinalCopyIsFinalized(m: Message, m': Message)
    ensures FinalCopy(m, m') ==> IsFinalized(m')
  {
  }

  // ----- runs -----

  /** The finalized messages just after a compaction are, over any further run, among those retention took
      away since, in order, followed by those still in the prompt. */
  lemma DraftStaysFrozen(cfg: SessionConfig, s: State, call: Call, events: seq<Event>)
    requires !IsRefused(cfg, s, call)
    ensures IsSubsequence(Frozen(DraftOf(cfg, s, call).marked),
                          Gone(cfg, s, [CompactCalled(call)] + events) + Frozen(Run(cfg, s, [CompactCalled(call)] + events).messages))
  {
    hide Next, DraftOf, IsRefused, Retained, Frozen, IsSubsequence;
    var e, s' := CompactCalled(call), Next(cfg, s, call);
    var all, went := Frozen(DraftOf(cfg, s, call).marked), Frozen(Retained(cfg, DraftOf(cfg, s, call).marked).removed);
    FrozenStep(cfg, s, call);
    assert all == went + Frozen(s'.messages);
    FinalizedStayFrozen(cfg, s', events);
    var later, final := Gone(cfg, s', events), Frozen(Run(cfg, s', events).messages);
    SubsequenceAfter(went, Frozen(s'.messages), later + final);
    assert ([e] + events)[1..] == events;
    assert went + (later + final) == (went + later) + final;
  }

  lemma {:induction false} FrozenHas(ms: seq<Message>, j: nat)
    requires j < |ms| && IsFinalized(ms[j])
    ensures Settled(ms[j]) in Frozen(ms)
  {
    hide IsFinalized, Settled;
    if j > 0 {
      FrozenHas(ms[1..], j - 1);
    }
  }

  lemma {:induction false} FrozenComesFrom(ms: seq<Message>, m: Message) returns (j: nat)
    requires m in Frozen(ms)
    ensures j < |ms| && IsFinalized(ms[j]) && Settled(ms[j]) == m
  {
    hide IsFinalized, Settled;
    if IsFinalized(ms[0]) && Settled(ms[0]) == m {
      j := 0;
    } else {
      j := FrozenComesFrom(ms[1..], m);
      j := j + 1;
    }
  }

  lemma {:induction false} SubsequenceMember(a: seq<Message>, b: seq<Message>, m: Message)
    requires IsSubsequence(a, b) && m in a
    ensures m in b
    decreases |b|
  {
    if a[0] == b[0] && IsSubsequence(a[1..], b[1..]) {
      if m != a[0] {
        SubsequenceMember(a[1..], b[1..], m);
      }
    } else {
      SubsequenceMember(a, b[1..], m);
    }
  }

  /** What an accepted compaction folded is finalized ever after, with the folded content: at every later
      point of the session its replacement has been taken away by retention, or is still in the prompt. */
  lemma FoldedStaysFinal(cfg: SessionConfig, s: State, call: Call, f: FoldRecord, j: nat, events: seq<Event>) returns (k: nat)
    requires !IsRefused(cfg, s, call)
    requires f in DraftOf(cfg, s, call).newFolds && f.replacementIndex == Some(j)
    ensures j < |Outputs(DraftOf(cfg, s, call).build)| && j < |DraftOf(cfg, s, call).marked|
    ensures var m, ms := Settled(DraftOf(cfg, s, call).marked[j]), Run(cfg, s, [CompactCalled(call)] + events).messages;
            && FinalOutput(Outputs(DraftOf(cfg, s, call).build)[j], m)
            && (m in Gone(cfg, s, [CompactCalled(call)] + events) || (k < |ms| && IsFinalized(ms[k]) && Settled(ms[k]) == m))
  {
    hide DraftOf, Run, Gone, Frozen, IsRefused, Outputs, FinalOutput, Settled, IsFinalized, IsSubsequence;
    FoldedIsFinal(cfg, s, call, f, j);
    var d, run := DraftOf(cfg, s, call), [CompactCalled(call)] + events;
    FinalOutputSettles(Outputs(d.build)[j], d.marked[j]);
    FrozenHas(d.marked, j);
    DraftStaysFrozen(cfg, s, call, events);
    var m, ms := Settled(d.marked[j]), Run(cfg, s, run).messages;
    SubsequenceMember(Frozen(d.marked), Gone(cfg, s, run) + Frozen(ms), m);
    k := 0;
    if m !in Gone(cfg, s, run) {
      k := FrozenComesFrom(ms, m);
    }
  }

  lemma FinalOutputSettles(m: Message, m': Message)
    requires FinalOutput(m, m')
    ensures IsFinalized(m') && FinalOutput(m, Settled(m'))
  {
  }
}
