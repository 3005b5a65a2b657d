/** What holds in every reachable session: frozen messages, the ledger. */
module SessionRuns {
  import opened Options
  import opened Messages
  import opened Agent
  import opened Budget
  import opened Provenance
  import opened Compact
  import opened FoldAudit
  import opened Compaction
  import opened Recall
  import opened FoldIds
  import opened Retention
  import opened Session

  // ----- one compaction and the frozen messages -----

  lemma PinningKeepsFrozen(ms: seq<Message>)
    ensures Frozen(PinFinalized(ms)) == Frozen(ms)
  {
    FrozenPointwise(PinFinalized(ms), ms);
  }

  function RestoreAll(saved: seq<Option<string>>, ms: seq<Message>): (out: seq<Message>)
    ensures |out| == |ms|
  {
    seq(|ms|, i requires 0 <= i < |ms| => Restored(saved, ms[i]))
  }

  lemma RestoringKeepsPins(saved: seq<Option<string>>, m: Message)
    ensures IsPinned(Restored(saved, m)) <==> IsPinned(m)
  {
  }

  lemma {:induction false} WhereRestored(saved: seq<Option<string>>, ms: seq<Message>)
    ensures Where(IsPinned, RestoreAll(saved, ms)) == RestoreAll(saved, Where(IsPinned, ms))
  {
    hide Restored;
    if ms != [] {
      RestoringKeepsPins(saved, ms[0]);
      WhereRestored(saved, ms[1..]);
      assert RestoreAll(saved, ms)[1..] == RestoreAll(saved, ms[1..]);
    }
  }

  lemma RestoringTagsIsIdentity(ms: seq<Message>)
    ensures RestoreAll(OldIndexValues(ms), TaggedAll(ms)) == ms
  {
    hide Restored, TaggedAll;
    forall i | 0 <= i < |ms|
      ensures Restored(OldIndexValues(ms), TaggedAll(ms)[i]) == ms[i]
    {
      TagThenRestore(ms, i);
    }
  }

  /** Through tagging, the whole cascade and restoring, the pinned messages come back as they were. */
  lemma CompactionKeepsPinned(cfg: CompactConfig, ms: seq<Message>)
    ensures Where(IsPinned, Outputs(BuildFor(cfg, ms))) == Where(IsPinned, ms)
  {
    hide Restored, TaggedAll, OldIndexValues, Cascade, AgentPass, Where;
    var b, tagged, saved := BuildFor(cfg, ms), TaggedAll(ms), OldIndexValues(ms);
    if cfg.hasBudget {
      PinnedSurvive(cfg.setting, tagged);
    } else {
      AgentKeepsPinned(cfg.setting, tagged);
    }
    assert Outputs(b) == RestoreAll(saved, b.compacted);
    WhereRestored(saved, b.compacted);
    WhereRestored(saved, tagged);
    RestoringTagsIsIdentity(ms);
  }

  /** Nothing becomes finalized inside a compaction. */
  lemma OutputsFinalizedArePinned(cfg: CompactConfig, ms: seq<Message>)
    requires forall m | m in ms && IsFinalized(m) :: IsPinned(m)
    ensures forall m | m in Outputs(BuildFor(cfg, ms)) && IsFinalized(m) :: IsPinned(m)
  {
    var out := Outputs(BuildFor(cfg, ms));
    var src := OriginsAreSources(cfg, ms);
    hide Outputs, BuildFor, CoversPinned;
    forall m | m in out && IsFinalized(m)
      ensures IsPinned(m)
    {
      var j :| 0 <= j < |out| && out[j] == m;
      if src[j] >= 0 {
        assert ms[src[j]] in ms;
        FinalizedOfKin(ms[src[j]], m);
      } else {
        FreshIsNotFinalized(m);
      }
    }
  }

  lemma FreshIsNotFinalized(m: Message)
    requires Fresh(m)
    ensures !IsFinalized(m)
  {
    assert SessionFinalized !in HostMetadata(m);
  }

  lemma FinalizedOfKin(m: Message, m': Message)
    requires Kin(m, m')
    ensures IsFinalized(m) <==> IsFinalized(m')
    ensures IsPinned(m) <==> IsPinned(m')
  {
    assert SessionFinalized in HostMetadata(m) <==> SessionFinalized in m.metadata;
    assert SessionFinalized in HostMetadata(m') <==> SessionFinalized in m'.metadata;
    assert SessionFinalized in m.metadata ==> HostMetadata(m)[SessionFinalized] == m.metadata[SessionFinalized];
    assert SessionFinalized in m'.metadata ==> HostMetadata(m')[SessionFinalized] == m'.metadata[SessionFinalized];
    assert Pinned in HostMetadata(m) <==> Pinned in m.metadata;
    assert Pinned in HostMetadata(m') <==> Pinned in m'.metadata;
    assert Pinned in m.metadata ==> HostMetadata(m)[Pinned] == m.metadata[Pinned];
    assert Pinned in m'.metadata ==> HostMetadata(m')[Pinned] == m'.metadata[Pinned];
  }

  lemma CompactionKeepsFrozen(cfg: CompactConfig, ms: seq<Message>)
    requires forall m | m in ms && IsFinalized(m) :: IsPinned(m)
    ensures Frozen(Outputs(BuildFor(cfg, ms))) == Frozen(ms)
  {
    hide Outputs, BuildFor, Where, Frozen, IsFinalized, IsPinned;
    OutputsFinalizedArePinned(cfg, ms);
    CompactionKeepsPinned(cfg, ms);
    FrozenOfPinned(ms);
    FrozenOfPinned(Outputs(BuildFor(cfg, ms)));
  }

  lemma MarkingSettles(m: Message)
    ensures IsFinalized(MarkFinalized(m))
    ensures IsFinalized(m) ==> Settled(MarkFinalized(m)) == Settled(m)
  {
    if IsFinalized(m) {
      assert Settled(MarkFinalized(m)).metadata == Settled(m).metadata;
    }
  }

  lemma {:induction false} MarkingKeepsFinalized(ms: seq<Message>, folds: seq<FoldRecord>, j: nat)
    requires j < |ms| && IsFinalized(ms[j])
    ensures var out := MarkReplacements(ms, folds); IsFinalized(out[j]) && Settled(out[j]) == Settled(ms[j])
    decreases |folds|
  {
    hide IsFinalized, Settled, MarkFinalized;
    if folds != [] {
      MarkingSettles(ms[j]);
      MarkingKeepsFinalized(MarkReplacement(ms, folds[0]), folds[1..], j);
    }
  }

  /** The frozen list just before retention: the old one, possibly with this turn's folds in between. */
  lemma DraftKeepsFrozen(cfg: SessionConfig, s: State, call: Call)
    ensures IsSubsequence(Frozen(s.messages), Frozen(DraftOf(cfg, s, call).marked))
  {
    hide Outputs, BuildFor, Annotated, Folds, Uniquified, Frozen, Settled, IsFinalized, MarkReplacements, Worked, TaggedAll;
    var cc, pinned, d := ConfigFor(cfg, call.world), PinFinalized(s.messages), DraftOf(cfg, s, call);
    PinnedAreFinalized(s.messages);
    PinningKeepsFrozen(s.messages);
    CompactionKeepsFrozen(cc, pinned);
    var annotated := Annotated(Outputs(d.build), cfg.cache);
    FrozenIgnoresCache(Outputs(d.build), cfg.cache);
    forall j | 0 <= j < |annotated| && IsFinalized(annotated[j])
      ensures IsFinalized(d.marked[j]) && Settled(d.marked[j]) == Settled(annotated[j])
    {
      MarkingKeepsFinalized(annotated, d.newFolds, j);
    }
    FrozenGrows(annotated, d.marked);
  }

  lemma PinnedAreFinalized(ms: seq<Message>)
    ensures forall m | m in PinFinalized(ms) && IsFinalized(m) :: IsPinned(m)
  {
  }

  function MaxKept(cfg: SessionConfig, n: nat): nat {
    if cfg.retention.EvictFinalized? && cfg.retention.maxFinalized < n then cfg.retention.maxFinalized else n
  }

  /** An accepted compaction keeps every finalized message verbatim (cache annotation aside) and in order;
      with this turn's replacements they form the frozen list of the draft. Retention then takes away
      exactly the first of these, so that at most `maxFinalized` stay. */
  lemma FrozenStep(cfg: SessionConfig, s: State, call: Call)
    requires !IsRefused(cfg, s, call)
    ensures var marked := DraftOf(cfg, s, call).marked;
            var all := Frozen(marked);
            var stay := MaxKept(cfg, |all|);
            && IsSubsequence(Frozen(s.messages), all)
            && Frozen(Retained(cfg, marked).removed) == all[..|all| - stay]
            && Frozen(Next(cfg, s, call).messages) == all[|all| - stay..]
  {
    hide Annotated, Frozen, Evict, DraftOf, IndexFolds, WithoutAll, Evicted;
    var marked := DraftOf(cfg, s, call).marked;
    DraftKeepsFrozen(cfg, s, call);
    FrozenIgnoresCache(Retained(cfg, marked).kept, cfg.cache);
    FrozenCount(marked);
    if cfg.retention.KeepAll? {
      KeepAllKeepsAll(cfg, marked);
    } else {
      EvictionCutsFrozen(marked, EvictCount(marked, cfg.retention.maxFinalized));
    }
  }

  /** No new fold record ever covers a finalized message. */
  lemma FoldsSpareFinalized(cfg: SessionConfig, s: State, call: Call, i: nat, f: FoldRecord)
    requires i < |s.messages| && IsFinalized(s.messages[i])
    requires f in DraftOf(cfg, s, call).newFolds
    ensures !Covers(f, i)
  {
    hide Folds, BuildFor;
    var cc, pinned, d := ConfigFor(cfg, call.world), PinFinalized(s.messages), DraftOf(cfg, s, call);
    assert IsPinned(pinned[i]);
    PinnedIsUntouched(cc, pinned, i);
    CoveredBySome(Folds(d.build), i);
    var k :| 0 <= k < |d.newFolds| && d.newFolds[k] == f;
    assert Folds(d.build)[k] in Folds(d.build);
  }

  // ----- runs -----

  datatype Event = Pushed(message: Message) | CompactCalled(call: Call)

  function After(cfg: SessionConfig, s: State, e: Event): State {
    match e
    case Pushed(m) => s.(messages := s.messages + [m])
    case CompactCalled(call) => Next(cfg, s, call)
  }

  function Run(cfg: SessionConfig, s: State, events: seq<Event>): State
    decreases |events|
  {
    if events == [] then s else Run(cfg, After(cfg, s, events[0]), events[1..])
  }

  const EmptyState := State([], [], [], map[])

  lemma StepKeepsLedger(cfg: SessionConfig, s: State, e: Event)
    requires DistinctIds(s.folds)
    ensures DistinctIds(After(cfg, s, e).folds) && s.folds <= After(cfg, s, e).folds
  {
    hide Folds, Uniquified, BuildFor;
    match e
    case Pushed(m) =>
    case CompactCalled(call) => LedgerStaysDistinct(s.folds, Folds(DraftOf(cfg, s, call).build));
  }

  /** Over any run the ledger only grows at its end, and all its ids are pairwise distinct. */
  lemma {:induction false} LedgerIsAppendOnly(cfg: SessionConfig, s: State, events: seq<Event>)
    requires DistinctIds(s.folds)
    ensures DistinctIds(Run(cfg, s, events).folds)
    ensures s.folds <= Run(cfg, s, events).folds
    decreases |events|
  {
    hide After;
    if events != [] {
      StepKeepsLedger(cfg, s, events[0]);
      LedgerIsAppendOnly(cfg, After(cfg, s, events[0]), events[1..]);
    }
  }

  lemma {:induction false} FrozenPush(ms: seq<Message>, m: Message)
    ensures IsSubsequence(Frozen(ms), Frozen(ms + [m]))
  {
    if ms == [] {
    } else {
      FrozenPush(ms[1..], m);
      assert (ms + [m])[1..] == ms[1..] + [m];
      var f := Frozen(ms + [m]);
      if IsFinalized(ms[0]) {
        assert f[1..] == Frozen(ms[1..] + [m]);
      }
    }
  }

  /** The finalized messages that retention takes away in one step. */
  function GoneIn(cfg: SessionConfig, s: State, e: Event): seq<Message> {
    if e.CompactCalled? && !IsRefused(cfg, s, e.call) then Frozen(Retained(cfg, DraftOf(cfg, s, e.call).marked).removed)
    else []
  }

  /** Over a run, in the order they went. */
  function Gone(cfg: SessionConfig, s: State, events: seq<Event>): seq<Message>
    decreases |events|
  {
    if events == [] then [] else GoneIn(cfg, s, events[0]) + Gone(cfg, After(cfg, s, events[0]), events[1..])
  }

  lemma StepKeepsFrozen(cfg: SessionConfig, s: State, e: Event)
    ensures IsSubsequence(Frozen(s.messages), GoneIn(cfg, s, e) + Frozen(After(cfg, s, e).messages))
    ensures cfg.retention.KeepAll? ==> GoneIn(cfg, s, e) == []
  {
    hide Next, DraftOf, IsRefused, Retained, Frozen, IsSubsequence, MaxKept;
    if e.Pushed? {
      FrozenPush(s.messages, e.message);
      assert [] + Frozen(s.messages + [e.message]) == Frozen(s.messages + [e.message]);
    } else if IsRefused(cfg, s, e.call) {
      RefusalKeepsMessages(cfg, s, e.call);
      SubsequenceSelf(Frozen(s.messages));
      assert [] + Frozen(s.messages) == Frozen(s.messages);
    } else {
      FrozenStep(cfg, s, e.call);
      KeepAllKeepsAll(cfg, DraftOf(cfg, s, e.call).marked);
    }
  }

  lemma RefusalKeepsMessages(cfg: SessionConfig, s: State, call: Call)
    requires IsRefused(cfg, s, call)
    ensures Next(cfg, s, call).messages == s.messages
  {
  }

  lemma KeepAllKeepsAll(cfg: SessionConfig, ms: seq<Message>)
    ensures MaxKept(cfg, |Frozen(ms)|) <= |Frozen(ms)|
    ensures var k := |Frozen(ms)| - MaxKept(cfg, |Frozen(ms)|); Frozen(ms)[..k] + Frozen(ms)[k..] == Frozen(ms)
    ensures cfg.retention.KeepAll? ==> Frozen(Retained(cfg, ms).removed) == []
  {
  }

  /** Over any run, whatever the host pushes and the compressors and stores do: the finalized messages of
      a state are, verbatim and in order, among those that retention took away since, followed by those
      still in the prompt. */
  lemma {:induction false} FinalizedStayFrozen(cfg: SessionConfig, s: State, events: seq<Event>)
    ensures IsSubsequence(Frozen(s.messages), Gone(cfg, s, events) + Frozen(Run(cfg, s, events).messages))
    ensures cfg.retention.KeepAll? ==> Gone(cfg, s, events) == []
    decreases |events|
  {
    hide After, Frozen, IsSubsequence, GoneIn;
    if events == [] {
      SubsequenceSelf(Frozen(s.messages));
      assert [] + Frozen(s.messages) == Frozen(s.messages);
    } else {
      var s', went := After(cfg, s, events[0]), GoneIn(cfg, s, events[0]);
      var later, final := Gone(cfg, s', events[1..]), Frozen(Run(cfg, s', events[1..]).messages);
      StepKeepsFrozen(cfg, s, events[0]);
      FinalizedStayFrozen(cfg, s', events[1..]);
      SubsequenceAfter(went, Frozen(s'.messages), later + final);
      SubsequenceChain(Frozen(s.messages), went + Frozen(s'.messages), went + (later + final));
      assert went + (later + final) == (went + later) + final;
    }
  }

  /** So only the oldest go: a first part of the finalized messages was evicted, in order, and all the
      others are still in the prompt. */
  lemma OnlyTheOldestGo(cfg: SessionConfig, s: State, events: seq<Event>) returns (d: nat)
    ensures d <= |Frozen(s.messages)| && (cfg.retention.KeepAll? ==> d == 0)
    ensures IsSubsequence(Frozen(s.messages)[..d], Gone(cfg, s, events))
    ensures IsSubsequence(Frozen(s.messages)[d..], Frozen(Run(cfg, s, events).messages))
  {
    FinalizedStayFrozen(cfg, s, events);
    d := SubsequenceSplit(Frozen(s.messages), Gone(cfg, s, events), Frozen(Run(cfg, s, events).messages));
  }
}
