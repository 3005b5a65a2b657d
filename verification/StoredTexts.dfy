/** What the ids in a session's store lead to, over every run. */
module StoredTexts {
  import opened Naturals
  import opened Messages
  import opened Agent
  import opened Conversation
  import opened DropOld
  import opened Budget
  import opened Markers
  import opened CutSummaries
  import opened Compact
  import opened Compaction
  import opened Recall
  import opened Session
  import opened SessionRuns
  import opened SessionStore

  ghost predicate KeysDiffer(t: Toolkit) {
    forall x, y :: t.key(x) == t.key(y) ==> x == y
  }

  /** The key of a text leads to that text, wherever it leads to anything. */
  ghost predicate Addressed(t: Toolkit, store: map<string, string>) {
    forall x :: t.key(x) in store ==> store[t.key(x)] == x
  }

  /** Compressors save texts under their content keys. */
  ghost predicate SavesByContent(t: Toolkit, w: World) {
    forall step, i :: Addressed(t, w.pipeline(step, i).saves)
  }

  lemma AddressedUnion(t: Toolkit, a: map<string, string>, b: map<string, string>)
    requires Addressed(t, a) && Addressed(t, b)
    ensures Addressed(t, a + b)
  {
  }

  lemma AddressedMinus(t: Toolkit, a: map<string, string>, ids: set<string>)
    requires Addressed(t, a)
    ensures Addressed(t, a - ids)
  {
  }

  lemma {:induction false} ClearingIsAddressed(c: Setting, ms: seq<Message>, from: nat)
    requires KeysDiffer(c.t) && from <= |ms|
    ensures Addressed(c.t, ClearedSaves(c, ms, from))
    decreases |ms| - from
  {
    hide ClearedAt;
    if from < |ms| {
      ClearingIsAddressed(c, ms, from + 1);
    }
  }

  lemma {:induction false} PipelineIsAddressed(c: Setting, step: nat, n: nat)
    requires SavesByContent(c.t, c.world)
    ensures Addressed(c.t, PipelineSaves(c, step, n))
  {
    if n > 0 {
      PipelineIsAddressed(c, step, n - 1);
      AddressedUnion(c.t, PipelineSaves(c, step, n - 1), c.world.pipeline(step, n - 1).saves);
    }
  }

  lemma HistoryIsAddressed(c: Setting, step: nat, ms: seq<Message>, cfg: BandConfig)
    requires SavesByContent(c.t, c.world)
    ensures Addressed(c.t, HistoryPass(c, step, ms, cfg).saved)
  {
    hide CompressedMiddle, Middle, PipelineSaves;
    if |ms| > cfg.preserveRecent {
      PipelineIsAddressed(c, step, |Middle(c, ms, cfg)|);
    }
  }

  /** What a compaction saves, by the steps that ran. */
  lemma WorkedSaves(cfg: CompactConfig, ms: seq<Message>)
    ensures var c := cfg.setting;
            var a := AgentPass(c, ms); var b := MiddlePass(c, a.messages); var s := SummaryPass(c, b.messages);
            Worked(cfg, ms).saved in [map[], a.saved, a.saved + b.saved, a.saved + b.saved + s.saved]
  {
    hide AgentPass, MiddlePass, SummaryPass, DropPass, Fits;
  }

  lemma AgentIsAddressed(c: Setting, ms: seq<Message>)
    requires KeysDiffer(c.t)
    ensures Addressed(c.t, AgentPass(c, ms).saved)
  {
    ClearingIsAddressed(c, ms, 0);
  }

  lemma BandsAreAddressed(c: Setting, ms: seq<Message>)
    requires SavesByContent(c.t, c.world)
    ensures Addressed(c.t, MiddlePass(c, ms).saved) && Addressed(c.t, SummaryPass(c, ms).saved)
  {
    hide HistoryPass, PreserveRecent, Addressed, SavesByContent;
    var p := PreserveRecent(c, ms);
    HistoryIsAddressed(c, 2, ms, BandConfig(p, SatSub(|ms|, p), false));
    HistoryIsAddressed(c, 3, ms, BandConfig(p, 4, true));
  }

  lemma NothingIsAddressed(t: Toolkit)
    ensures Addressed(t, map[])
  {
  }

  lemma WorkedIsAddressed(cfg: CompactConfig, ms: seq<Message>)
    requires KeysDiffer(cfg.setting.t) && SavesByContent(cfg.setting.t, cfg.setting.world)
    ensures Addressed(cfg.setting.t, Worked(cfg, ms).saved)
  {
    hide *;
    var c := cfg.setting;
    var a := AgentPass(c, ms);
    var b := MiddlePass(c, a.messages);
    var s := SummaryPass(c, b.messages);
    WorkedSaves(cfg, ms);
    NothingIsAddressed(c.t);
    AgentIsAddressed(c, ms);
    BandsAreAddressed(c, a.messages);
    BandsAreAddressed(c, b.messages);
    AddressedUnion(c.t, a.saved, b.saved);
    AddressedUnion(c.t, a.saved + b.saved, s.saved);
  }

  lemma NextIsAddressed(cfg: SessionConfig, s: State, call: Call)
    requires KeysDiffer(cfg.t) && SavesByContent(cfg.t, call.world) && Addressed(cfg.t, s.store)
    ensures Addressed(cfg.t, Next(cfg, s, call).store)
  {
    hide KeysDiffer, SavesByContent, Addressed, Worked, TaggedAll, IndexFolds, WithoutAll, Annotated, Retained, Evicted, MarkReplacements, Refuses;
    var cc, pinned, d := ConfigFor(cfg, call.world), PinFinalized(s.messages), DraftOf(cfg, s, call);
    WorkedIsAddressed(cc, TaggedAll(pinned));
    AddressedUnion(cfg.t, s.store, d.saved);
    AddressedMinus(cfg.t, s.store + d.saved, Evicted(cfg, call, d.marked));
  }

  // ----- runs -----

  ghost predicate ContentSaved(cfg: SessionConfig, events: seq<Event>) {
    forall i | 0 <= i < |events| && events[i].CompactCalled? :: SavesByContent(cfg.t, events[i].call.world)
  }

  lemma {:induction false} RunIsAddressed(cfg: SessionConfig, s: State, events: seq<Event>)
    requires KeysDiffer(cfg.t) && ContentSaved(cfg, events) && Addressed(cfg.t, s.store)
    ensures Addressed(cfg.t, Run(cfg, s, events).store)
    decreases |events|
  {
    hide KeysDiffer, SavesByContent, Addressed, Next;
    if events != [] {
      if events[0].CompactCalled? {
        NextIsAddressed(cfg, s, events[0].call);
      }
      RunIsAddressed(cfg, After(cfg, s, events[0]), events[1..]);
    }
  }

  /** The ids whose originals retention deletes over a run. */
  function DeletedIn(cfg: SessionConfig, s: State, e: Event): set<string> {
    if e.CompactCalled? && !IsRefused(cfg, s, e.call) then Evicted(cfg, e.call, DraftOf(cfg, s, e.call).marked) else {}
  }

  function Deleted(cfg: SessionConfig, s: State, events: seq<Event>): set<string>
    decreases |events|
  {
    if events == [] then {} else DeletedIn(cfg, s, events[0]) + Deleted(cfg, After(cfg, s, events[0]), events[1..])
  }

  lemma {:induction false} OnlyDeletedGo(cfg: SessionConfig, s: State, events: seq<Event>)
    ensures s.store.Keys - Deleted(cfg, s, events) <= Run(cfg, s, events).store.Keys
    decreases |events|
  {
    hide After, DeletedIn;
    if events != [] {
      StepLosesOnlyDeleted(cfg, s, events[0]);
      OnlyDeletedGo(cfg, After(cfg, s, events[0]), events[1..]);
    }
  }

  lemma StepLosesOnlyDeleted(cfg: SessionConfig, s: State, e: Event)
    ensures s.store.Keys - DeletedIn(cfg, s, e) <= After(cfg, s, e).store.Keys
  {
    hide DraftOf, Evicted, IsRefused, Annotated, Retained, IndexFolds, WithoutAll;
  }

  /** A text saved under its key stays there, verbatim, until retention deletes that key. */
  lemma SavedTextsStay(cfg: SessionConfig, s: State, events: seq<Event>, text: string)
    requires KeysDiffer(cfg.t) && ContentSaved(cfg, events) && Addressed(cfg.t, s.store)
    requires cfg.t.key(text) in s.store && cfg.t.key(text) !in Deleted(cfg, s, events)
    ensures var later := Run(cfg, s, events).store; cfg.t.key(text) in later && later[cfg.t.key(text)] == text
  {
    RunIsAddressed(cfg, s, events);
    OnlyDeletedGo(cfg, s, events);
    hide KeysDiffer, SavesByContent, Run, Deleted;
  }

  /** In every session: whatever key of a text the prompt references or the recall index offers, the store
      gives back that text. Cleared results are referenced by exactly such keys. */
  lemma OriginalsComeBack(cfg: SessionConfig, events: seq<Event>, text: string)
    requires KeysFit(cfg.t) && KeysDiffer(cfg.t) && HonestRun(cfg, EmptyState, events) && ContentSaved(cfg, events)
    requires var s := Run(cfg, EmptyState, events); cfg.t.key(text) in ReferencedIds(s.messages) || cfg.t.key(text) in Ids(s.docs)
    ensures var s := Run(cfg, EmptyState, events); cfg.t.key(text) in s.store && s.store[cfg.t.key(text)] == text
  {
    EmptySessionIsRetrievable();
    EverythingNamedIsStored(cfg, EmptyState, events);
    RetrievableMeans(Run(cfg, EmptyState, events));
    assert Addressed(cfg.t, EmptyState.store);
    RunIsAddressed(cfg, EmptyState, events);
    hide KeysFit, KeysDiffer, HonestRun, ContentSaved, Run, ReferencedIds, Ids, Retrievable;
  }
}
