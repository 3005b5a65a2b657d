/** The stateful session of session.rs. */
module Session {
  import opened Options
  import opened Messages
  import opened Agent
  import opened Markers
  import opened Compact
  import opened Compaction
  import opened Recall
  import opened FoldIds
  import opened Retention

  datatype RetentionPolicy = KeepAll | EvictFinalized(maxFinalized: nat, evictOriginals: bool)

  datatype SessionConfig = SessionConfig(
    t: Toolkit, policy: Policy, count: seq<Message> -> nat, totalLimit: nat, margin: real, hasBudget: bool,
    audit: Audit, lex: Lexicon, hasStore: bool, cache: CachePolicy, retention: RetentionPolicy)

  /** What the outside world does during one call of `compact`. */
  datatype Call = Call(world: World, deletes: string -> bool)

  /** Prompt, fold ledger, recall documents, and the store (which never evicts on its own). */
  datatype State = State(messages: seq<Message>, folds: seq<FoldRecord>, docs: seq<Doc>, store: map<string, string>)

  function ConfigFor(cfg: SessionConfig, w: World): CompactConfig {
    CompactConfig(Setting(cfg.t, cfg.policy, cfg.hasStore, w, cfg.count, cfg.totalLimit, cfg.margin), cfg.hasBudget, cfg.audit, cfg.cache)
  }

  function PinnedIfFinalized(m: Message): Message {
    if IsFinalized(m) then Pin(m) else m
  }

  function PinFinalized(ms: seq<Message>): (out: seq<Message>)
    ensures |out| == |ms|
  {
    seq(|ms|, i requires 0 <= i < |ms| => PinnedIfFinalized(ms[i]))
  }

  function MarkReplacement(ms: seq<Message>, f: FoldRecord): (out: seq<Message>)
    ensures |out| == |ms|
  {
    if f.replacementIndex.Some? && f.replacementIndex.value < |ms|
    then ms[f.replacementIndex.value := MarkFinalized(ms[f.replacementIndex.value])]
    else ms
  }

  function MarkReplacements(ms: seq<Message>, folds: seq<FoldRecord>): (out: seq<Message>)
    ensures |out| == |ms|
    decreases |folds|
  {
    if folds == [] then ms else MarkReplacements(MarkReplacement(ms, folds[0]), folds[1..])
  }

  /** Some record names position `j` as its replacement. */
  predicate IsReplacement(folds: seq<FoldRecord>, j: nat) {
    exists f :: f in folds && f.replacementIndex == Some(j)
  }

  /** `m'` is `m` with both session flags set, and nothing else touched. */
  ghost predicate FinalCopy(m: Message, m': Message) {
    && m'.role == m.role && m'.content == m.content
    && HasTag(m', SessionFinalized, "true") && HasTag(m', Pinned, "true")
    && (forall k | k != SessionFinalized && k != Pinned :: k in m'.metadata <==> k in m.metadata)
    && (forall k | k != SessionFinalized && k != Pinned && k in m.metadata && k in m'.metadata :: m'.metadata[k] == m.metadata[k])
  }

  /** Every replacement is finalized and pinned, and every other message is as it was. */
  ghost predicate ReplacementsAreFinal(ms: seq<Message>, folds: seq<FoldRecord>, out: seq<Message>) {
    && |out| == |ms|
    && forall j: nat | j < |ms| :: if IsReplacement(folds, j) then FinalCopy(ms[j], out[j]) else out[j] == ms[j]
  }

  lemma FinalAgain(m: Message, m': Message)
    ensures FinalCopy(m, MarkFinalized(m))
    ensures FinalCopy(m, m') ==> FinalCopy(m, MarkFinalized(m'))
  {
  }

  lemma {:induction false} MarkingIsExact(ms: seq<Message>, folds: seq<FoldRecord>)
    ensures ReplacementsAreFinal(ms, folds, MarkReplacements(ms, folds))
    decreases |folds|
  {
    hide FinalCopy, MarkFinalized;
    if folds != [] {
      var once, out := MarkReplacement(ms, folds[0]), MarkReplacements(ms, folds);
      MarkingIsExact(once, folds[1..]);
      forall j: nat | j < |ms|
        ensures if IsReplacement(folds, j) then FinalCopy(ms[j], out[j]) else out[j] == ms[j]
      {
        ReplacementSplit(folds, j);
        MarkingTwice(ms[j], once[j], out[j]);
        FinalAgain(ms[j], ms[j]);
      }
    }
  }

  lemma ReplacementSplit(folds: seq<FoldRecord>, j: nat)
    requires folds != []
    ensures IsReplacement(folds, j) <==> folds[0].replacementIndex == Some(j) || IsReplacement(folds[1..], j)
  {
    assert folds == [folds[0]] + folds[1..];
  }

  lemma MarkingTwice(m: Message, m': Message, m'': Message)
    ensures FinalCopy(m, m') && FinalCopy(m', m'') ==> FinalCopy(m, m'')
  {
  }

  function JoinedText(ms: seq<Message>): string {
    if ms == [] then "" else if |ms| == 1 then ms[0].content else ms[0].content + "\n" + JoinedText(ms[1..])
  }

  /** The text of a span is the texts of its parts, a line break between them. */
  lemma {:induction false} JoinedParts(a: seq<Message>, b: seq<Message>)
    ensures a != [] && b != [] ==> JoinedText(a + b) == JoinedText(a) + "\n" + JoinedText(b)
    ensures |a| == 1 ==> JoinedText(a) == a[0].content
  {
    if |a| == 1 && b != [] {
      assert (a + b)[1..] == b;
    } else if |a| > 1 && b != [] {
      JoinedParts(a[1..], b);
      assert (a + b)[1..] == a[1..] + b;
      assert a[0].content + "\n" + (JoinedText(a[1..]) + "\n" + JoinedText(b)) == (a[0].content + "\n" + JoinedText(a[1..])) + "\n" + JoinedText(b);
    }
  }

  /** A fold is indexed when it has a retrievable id and a non-empty original text. */
  function IndexFold(lex: Lexicon, docs: seq<Doc>, f: FoldRecord, originals: seq<Message>): seq<Doc> {
    if f.ccrId.None? || !(f.start <= f.end <= |originals|) || JoinedText(originals[f.start..f.end]) == "" then docs
    else Indexed(lex, docs, f.ccrId.value, f.kind, f.tags, JoinedText(originals[f.start..f.end]))
  }

  function IndexFolds(lex: Lexicon, docs: seq<Doc>, folds: seq<FoldRecord>, originals: seq<Message>): seq<Doc>
    decreases |folds|
  {
    if folds == [] then docs else IndexFolds(lex, IndexFold(lex, docs, folds[0], originals), folds[1..], originals)
  }

  /** What retention does to a prompt. */
  function Retained(cfg: SessionConfig, ms: seq<Message>): Eviction {
    if cfg.retention.KeepAll? then Eviction(ms, [])
    else Evict(ms, EvictCount(ms, cfg.retention.maxFinalized))
  }

  /** Originals only evicted stubs referenced, when the policy collects them. */
  function Deletable(cfg: SessionConfig, ms: seq<Message>): set<string> {
    if cfg.retention.EvictFinalized? && cfg.retention.evictOriginals && cfg.hasStore
    then ReferencedIds(Retained(cfg, ms).removed) - ReferencedIds(Retained(cfg, ms).kept)
    else {}
  }

  function Evicted(cfg: SessionConfig, call: Call, ms: seq<Message>): set<string> {
    set id | id in Deletable(cfg, ms) && call.deletes(id)
  }

  /** Everything one accepted compaction produces before the state is replaced. */
  datatype Draft = Draft(build: Build, newFolds: seq<FoldRecord>, marked: seq<Message>, saved: map<string, string>)

  function DraftOf(cfg: SessionConfig, s: State, call: Call): Draft {
    var cc, pinned := ConfigFor(cfg, call.world), PinFinalized(s.messages);
    var b := BuildFor(cc, pinned);
    var newFolds := Uniquified(IdSet(s.folds), Folds(b));
    Draft(b, newFolds, MarkReplacements(Annotated(Outputs(b), cfg.cache), newFolds), Worked(cc, TaggedAll(pinned)).saved)
  }

  predicate IsRefused(cfg: SessionConfig, s: State, call: Call) {
    Refuses(ConfigFor(cfg, call.world), PinFinalized(s.messages))
  }

  /** The state after one call of `compact`. */
  function Next(cfg: SessionConfig, s: State, call: Call): State {
    var d := DraftOf(cfg, s, call);
    if IsRefused(cfg, s, call) then s.(store := s.store + d.saved)
    else
      var evicted := Evicted(cfg, call, d.marked);
      State(Annotated(Retained(cfg, d.marked).kept, cfg.cache),
            s.folds + d.newFolds,
            WithoutAll(IndexFolds(cfg.lex, s.docs, d.newFolds, s.messages), evicted),
            (s.store + d.saved) - evicted)
  }

  datatype SessionStep = Folded(newFolds: seq<FoldRecord>, evicted: set<string>) | BudgetExceeded(needed: nat, limit: nat)

  class ContextSession {
    const config: SessionConfig
    const recall: RecallIndex
    var messages: seq<Message>
    var folds: seq<FoldRecord>
    var store: map<string, string>

    function Snapshot(): State
      reads this, recall
    {
      State(messages, folds, recall.docs, store)
    }

    ghost predicate Valid()
      reads this, recall
    {
      recall.Valid() && DistinctIds(folds)
    }

    constructor (config: SessionConfig)
      ensures Valid() && fresh(recall) && this.config == config
      ensures Snapshot() == State([], [], [], map[])
    {
      this.config := config;
      recall := new RecallIndex();
      messages, folds, store := [], [], map[];
    }

    /** Append a turn; nothing is compacted. */
    method Push(message: Message)
      requires Valid()
      modifies this
      ensures Valid()
      ensures Snapshot() == old(Snapshot()).(messages := old(messages) + [message])
    {
      messages := messages + [message];
    }

    /** Compact the active tail, or refuse and leave prompt, ledger and index as they were. */
    method Compact(call: Call) returns (step: SessionStep)
      requires Valid()
      modifies this, recall
      ensures Valid()
      ensures Snapshot() == Next(config, old(Snapshot()), call)
      ensures step.BudgetExceeded? <==> IsRefused(config, old(Snapshot()), call)
      ensures step.BudgetExceeded? ==> step.limit == EffectiveLimit(config.totalLimit, config.margin) < step.needed
      ensures step.Folded? ==>
                && folds == old(folds) + step.newFolds
                && step.evicted == Evicted(config, call, DraftOf(config, old(Snapshot()), call).marked)
                && step.newFolds == DraftOf(config, old(Snapshot()), call).newFolds
      ensures var d := DraftOf(config, old(Snapshot()), call);
              ReplacementsAreFinal(Annotated(Outputs(d.build), config.cache), d.newFolds, d.marked)
    {
      hide ReplacementsAreFinal, Folds, Outputs, Worked, Annotated, Uniquified, Evict, Indexed, ReferencedIds, Refuses, TaggedAll, BuildFor;
      ghost var before := Snapshot();
      ghost var d := DraftOf(config, before, call);
      MarkingIsExact(Annotated(Outputs(d.build), config.cache), d.newFolds);
      var working := PinWorking();
      var result, saved := CompactConversation(ConfigFor(config, call.world), working);
      store := store + saved;
      if result.Refused? {
        return BudgetExceeded(result.needed, result.limit);
      }
      var newFolds := UniquifyFoldIds(folds, result.folds);
      assert newFolds == d.newFolds;
      var nextMessages := MarkFolded(result.messages, newFolds);
      IndexNewFolds(newFolds);
      var kept, candidates := ApplyRetention(nextMessages);
      var evicted := DeleteOriginals(candidates, call);
      LedgerGrows(before, call);
      messages := ApplyCachePolicy(kept, config.cache);
      folds := folds + newFolds;
      step := Folded(newFolds, evicted);
    }

    lemma LedgerGrows(s: State, call: Call)
      requires DistinctIds(s.folds)
      ensures DistinctIds(s.folds + DraftOf(config, s, call).newFolds)
    {
      LedgerStaysDistinct(s.folds, Folds(DraftOf(config, s, call).build));
    }

    method PinWorking() returns (working: seq<Message>)
      ensures working == PinFinalized(messages)
    {
      working := messages;
      for i := 0 to |messages|
        invariant |working| == |messages|
        invariant forall j | 0 <= j < i :: working[j] == PinnedIfFinalized(messages[j])
        invariant forall j | i <= j < |messages| :: working[j] == messages[j]
      {
        if IsFinalized(working[i]) {
          working := working[i := Pin(working[i])];
        }
      }
    }

    method MarkFolded(ms: seq<Message>, newFolds: seq<FoldRecord>) returns (out: seq<Message>)
      ensures out == MarkReplacements(ms, newFolds)
      ensures ReplacementsAreFinal(ms, newFolds, out)
    {
      hide ReplacementsAreFinal;
      MarkingIsExact(ms, newFolds);
      out := ms;
      assert newFolds[0..] == newFolds;
      for i := 0 to |newFolds|
        invariant MarkReplacements(out, newFolds[i..]) == MarkReplacements(ms, newFolds)
      {
        assert newFolds[i..][1..] == newFolds[i + 1..];
        var f := newFolds[i];
        if f.replacementIndex.Some? && f.replacementIndex.value < |out| {
          out := out[f.replacementIndex.value := MarkFinalized(out[f.replacementIndex.value])];
        }
      }
    }

    /** Index what was folded, using the original text still held in `messages`. */
    method IndexNewFolds(newFolds: seq<FoldRecord>)
      requires recall.Valid()
      modifies recall
      ensures recall.Valid()
      ensures recall.docs == IndexFolds(config.lex, old(recall.docs), newFolds, messages)
    {
      hide Indexed;
      assert newFolds[0..] == newFolds;
      for i := 0 to |newFolds|
        invariant recall.Valid()
        invariant IndexFolds(config.lex, recall.docs, newFolds[i..], messages) == IndexFolds(config.lex, old(recall.docs), newFolds, messages)
      {
        assert newFolds[i..][1..] == newFolds[i + 1..];
        var f := newFolds[i];
        if f.ccrId.Some? && f.start <= f.end <= |messages| {
          var text := JoinedText(messages[f.start..f.end]);
          if text != "" {
            recall.Index(config.lex, f.ccrId.value, f.kind, f.tags, text);
          }
        }
      }
    }

    method ApplyRetention(ms: seq<Message>) returns (kept: seq<Message>, candidates: set<string>)
      ensures kept == Retained(config, ms).kept
      ensures candidates == Deletable(config, ms)
    {
      hide ReferencedIds;
      kept, candidates := ms, {};
      if config.retention.KeepAll? {
        return;
      }
      var removed;
      kept, removed := EvictOldest(ms, EvictCount(ms, config.retention.maxFinalized));
      if !config.retention.evictOriginals || !config.hasStore {
        return;
      }
      var stillReferenced := ReferencedCcrIds(kept);
      candidates := ReferencedCcrIds(removed);
      candidates := candidates - stillReferenced;
    }

    /** Delete each candidate; a failed delete leaves the store and the index agreeing. */
    method DeleteOriginals(candidates: set<string>, call: Call) returns (evicted: set<string>)
      requires recall.Valid()
      modifies this`store, recall
      ensures recall.Valid()
      ensures evicted == set id | id in candidates && call.deletes(id)
      ensures store == old(store) - evicted
      ensures recall.docs == WithoutAll(old(recall.docs), evicted)
    {
      evicted := {};
      var todo := candidates;
      WithoutNone(recall.docs);
      while todo != {}
        invariant todo <= candidates && recall.Valid()
        invariant evicted == set id | id in candidates - todo && call.deletes(id)
        invariant store == old(store) - evicted
        invariant recall.docs == WithoutAll(old(recall.docs), evicted)
        decreases todo
      {
        var id :| id in todo;
        todo := todo - {id};
        if call.deletes(id) {
          store := store - {id};
          WithoutOneMore(old(recall.docs), evicted, id);
          var removed := recall.Remove(id);
          evicted := evicted + {id};
        }
      }
    }
  }
}
