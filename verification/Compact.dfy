/** Fold records and original-index tagging of compact.rs. */
module Compact {
  import opened Naturals
  import opened Options
  import opened Messages
  import opened Markers
  import opened Sorting
  import opened FoldTagLists
  import Decimal

  datatype FoldKind = Cleared | Compressed | Summarized | Dropped

  /** Durable record for the rewrite, summary or drop of the originals `[start, end)`. */
  datatype FoldRecord = FoldRecord(
    id: string, kind: FoldKind, start: nat, end: nat, replacementIndex: Option<nat>,
    originalRoles: seq<Role>, originalTokens: nat, replacementTokens: nat,
    ccrId: Option<string>, marker: Option<string>, tags: FoldTags)

  /** Token counter, content key of a span and tag extraction, kept uninterpreted. */
  datatype Audit = Audit(count: string -> nat, foldKey: seq<Message> -> string, rawTags: seq<Message> -> FoldTags)

  // ----- tagging and restoring the internal index -----

  function Tagged(m: Message, i: nat): Message {
    m.(metadata := m.metadata[OriginalIndex := Decimal.ToText(i)])
  }

  function TaggedAll(ms: seq<Message>): (out: seq<Message>)
    ensures |out| == |ms|
  {
    seq(|ms|, i requires 0 <= i < |ms| => Tagged(ms[i], i))
  }

  function OldIndexValue(m: Message): Option<string> {
    if OriginalIndex in m.metadata then Some(m.metadata[OriginalIndex]) else None
  }

  function OldIndexValues(ms: seq<Message>): (out: seq<Option<string>>)
    ensures |out| == |ms|
  {
    seq(|ms|, i requires 0 <= i < |ms| => OldIndexValue(ms[i]))
  }

  method TagOriginalIndices(ms: seq<Message>) returns (out: seq<Message>, saved: seq<Option<string>>)
    ensures out == TaggedAll(ms) && saved == OldIndexValues(ms)
  {
    out, saved := ms, [];
    for i := 0 to |ms|
      invariant |out| == |ms| && |saved| == i
      invariant forall j | 0 <= j < i :: out[j] == Tagged(ms[j], j) && saved[j] == OldIndexValue(ms[j])
      invariant forall j | i <= j < |ms| :: out[j] == ms[j]
    {
      saved := saved + [OldIndexValue(out[i])];
      out := out[i := Tagged(out[i], i)];
    }
  }

  function OriginOf(m: Message): Option<nat> {
    if OriginalIndex in m.metadata then Decimal.Parse(m.metadata[OriginalIndex]) else None
  }

  function Restored(saved: seq<Option<string>>, m: Message): Message {
    match OriginOf(m)
    case None => m
    case Some(i) =>
      if i < |saved| && saved[i].Some? then m.(metadata := m.metadata[OriginalIndex := saved[i].value])
      else m.(metadata := m.metadata - {OriginalIndex})
  }

  /** Tagging and then restoring the internal index is the identity, even when the host used that key. */
  lemma TagThenRestore(ms: seq<Message>, i: nat)
    requires i < |ms|
    ensures OriginOf(TaggedAll(ms)[i]) == Some(i)
    ensures Restored(OldIndexValues(ms), TaggedAll(ms)[i]) == ms[i]
  {
    Decimal.ParseOfText(i);
    var m, r := ms[i], Restored(OldIndexValues(ms), TaggedAll(ms)[i]);
    assert r.metadata == m.metadata;
  }

  // ----- fold constructors -----

  const SUMMARY_CONTEXT := "[Earlier conversation context]"
  const SUMMARY_SUMMARY := "[Earlier conversation summary]"

  predicate IsSummary(m: Message) {
    SUMMARY_CONTEXT <= m.content || SUMMARY_SUMMARY <= m.content
  }

  function ClassifyReplacement(m: Message): FoldKind {
    if CcrId in m.metadata && "[tool:" <= m.content && Contains(m.content, " result cleared ") then Cleared
    else if IsSummary(m) then Summarized
    else Compressed
  }

  function ContentTokens(count: string -> nat, ms: seq<Message>): nat {
    if ms == [] then 0 else count(ms[0].content) + ContentTokens(count, ms[1..])
  }

  function CcrIdOf(m: Message): Option<string> {
    if CcrId in m.metadata then Some(m.metadata[CcrId])
    else
      var marker := ExtractMarker(m.content);
      if marker.Some? then Some(MarkerId(marker.value)) else None
  }

  function FoldForSpan(a: Audit, kind: FoldKind, original: seq<Message>, start: nat, end: nat,
                       replacementIndex: Option<nat>, replacement: Option<Message>): (f: FoldRecord)
    requires start <= end <= |original|
  {
    var originals := original[start..end];
    var ccrId := if replacement.Some? then CcrIdOf(replacement.value) else None;
    FoldRecord(
      if ccrId.Some? then ccrId.value else "fold-" + a.foldKey(originals),
      kind, start, end, replacementIndex,
      seq(|originals|, i requires 0 <= i < |originals| => originals[i].role),
      ContentTokens(a.count, originals),
      if replacement.Some? then a.count(replacement.value.content) else 0,
      ccrId,
      if replacement.Some? then ExtractMarker(replacement.value.content) else None,
      NormalTags(a.rawTags(originals)))
  }

  /** A dropped message that had been cleared before keeps pointing at its stored original. */
  function FoldForDropped(a: Audit, original: seq<Message>, i: nat, stub: Option<Message>): FoldRecord
    requires i < |original|
  {
    var fold := FoldForSpan(a, Dropped, original, i, i + 1, None, None);
    if stub.None? then fold
    else
      var ccrId := CcrIdOf(stub.value);
      fold.(marker := ExtractMarker(stub.value.content), ccrId := ccrId,
            id := if ccrId.Some? then ccrId.value else fold.id)
  }

  function FindDropped(dropped: seq<Message>, i: nat): (r: Option<Message>)
    ensures r.Some? ==> r.value in dropped && OriginOf(r.value) == Some(i)
    ensures r.None? ==> forall d | d in dropped :: OriginOf(d) != Some(i)
  {
    if dropped == [] then None
    else if OriginOf(dropped[0]) == Some(i) then Some(dropped[0])
    else FindDropped(dropped[1..], i)
  }

  // ----- what the records are made of -----

  datatype Build = Build(
    a: Audit, original: seq<Message>, compacted: seq<Message>, saved: seq<Option<string>>, dropped: seq<Message>)

  /** The original a compacted message stands for, if any. */
  function Origin(b: Build, j: nat): Option<nat>
    requires j < |b.compacted|
  {
    var o := OriginOf(b.compacted[j]);
    if o.Some? && o.value < |b.original| then o else None
  }

  function Output(b: Build, j: nat): Message
    requires j < |b.compacted|
  {
    Restored(b.saved, b.compacted[j])
  }

  predicate ChangedAt(b: Build, j: nat)
    requires j < |b.compacted|
  {
    Origin(b, j).Some? &&
    (Output(b, j).content != b.original[Origin(b, j).value].content ||
     Output(b, j).metadata != b.original[Origin(b, j).value].metadata)
  }

  function ReplacedFold(b: Build, j: nat): FoldRecord
    requires j < |b.compacted| && Origin(b, j).Some?
  {
    var i := Origin(b, j).value;
    FoldForSpan(b.a, ClassifyReplacement(Output(b, j)), b.original, i, i + 1, Some(j), Some(Output(b, j)))
  }

  function ReplacedFolds(b: Build, k: nat): seq<FoldRecord>
    requires k <= |b.compacted|
  {
    if k == 0 then []
    else if ChangedAt(b, k - 1) then ReplacedFolds(b, k - 1) + [ReplacedFold(b, k - 1)]
    else ReplacedFolds(b, k - 1)
  }

  function Present(b: Build, k: nat): set<nat>
    requires k <= |b.compacted|
  {
    set j | 0 <= j < k && Origin(b, j).Some? :: Origin(b, j).value
  }

  function SummariesFrom(b: Build, k: nat): seq<nat>
    requires k <= |b.compacted|
  {
    if k == 0 then []
    else if Origin(b, k - 1).None? && IsSummary(Output(b, k - 1)) then SummariesFrom(b, k - 1) + [k - 1]
    else SummariesFrom(b, k - 1)
  }

  function MissingFrom(b: Build, i: nat): seq<nat>
    requires i <= |b.original|
    decreases |b.original| - i
  {
    if i == |b.original| then []
    else if i in Present(b, |b.compacted|) then MissingFrom(b, i + 1)
    else [i] + MissingFrom(b, i + 1)
  }

  /** End of the run of missing indices that starts at `i`. */
  function RunEnd(b: Build, i: nat): (e: nat)
    requires i <= |b.original|
    ensures i <= e <= |b.original|
    ensures forall k | i <= k < e :: k !in Present(b, |b.compacted|)
    decreases |b.original| - i
  {
    if i < |b.original| && i !in Present(b, |b.compacted|) then RunEnd(b, i + 1) else i
  }

  function Outside(xs: seq<nat>, s: nat, e: nat): seq<nat> {
    if xs == [] then []
    else if s <= xs[0] < e then Outside(xs[1..], s, e)
    else [xs[0]] + Outside(xs[1..], s, e)
  }

  function DroppedFolds(b: Build, xs: seq<nat>): seq<FoldRecord>
    requires AllBelow(xs, |b.original|)
  {
    if xs == [] then []
    else [FoldForDropped(b.a, b.original, xs[0], FindDropped(b.dropped, xs[0]))] + DroppedFolds(b, xs[1..])
  }

  lemma {:induction false} MissingIs(b: Build, i: nat)
    requires i <= |b.original|
    ensures forall x :: x in MissingFrom(b, i) <==> i <= x < |b.original| && x !in Present(b, |b.compacted|)
    decreases |b.original| - i
  {
    if i < |b.original| {
      MissingIs(b, i + 1);
    }
  }

  lemma {:induction false} OutsideIs(xs: seq<nat>, s: nat, e: nat)
    ensures forall x :: x in Outside(xs, s, e) <==> x in xs && !(s <= x < e)
  {
    if xs != [] {
      OutsideIs(xs[1..], s, e);
      assert xs == [xs[0]] + xs[1..];
    }
  }

  /** The span of the summary fold, empty when there is none. */
  function SummarySpan(b: Build): (r: (nat, nat))
    ensures r.0 <= r.1 <= |b.original|
    ensures forall x | r.0 <= x < r.1 :: x !in Present(b, |b.compacted|)
  {
    var missing := MissingFrom(b, 0);
    if SummariesFrom(b, |b.compacted|) == [] || missing == [] then (0, 0)
    else
      MissingIs(b, 0);
      assert missing[0] in missing;
      (missing[0], RunEnd(b, missing[0]))
  }

  function SummaryFolds(b: Build): seq<FoldRecord> {
    var (s, e) := SummarySpan(b);
    var summaries := SummariesFrom(b, |b.compacted|);
    if s == e then []
    else
      SummariesAreIndices(b, |b.compacted|);
      [FoldForSpan(b.a, Summarized, b.original, s, e, Some(summaries[0]), Some(Output(b, summaries[0])))]
  }

  lemma {:induction false} SummariesAreIndices(b: Build, k: nat)
    requires k <= |b.compacted|
    ensures forall j | j in SummariesFrom(b, k) :: j < k && Origin(b, j).None? && IsSummary(Output(b, j))
    ensures SummariesFrom(b, k) != [] ==> SummariesFrom(b, k)[0] in SummariesFrom(b, k)
    ensures SummarySpan(b).0 != SummarySpan(b).1 ==> SummariesFrom(b, |b.compacted|) != []
  {
    if k > 0 {
      SummariesAreIndices(b, k - 1);
    }
  }

  function Unfolded(b: Build): seq<nat> {
    Outside(MissingFrom(b, 0), SummarySpan(b).0, SummarySpan(b).1)
  }

  lemma UnfoldedIs(b: Build)
    ensures forall x: nat :: x in Unfolded(b) <==>
              x < |b.original| && x !in Present(b, |b.compacted|) && !(SummarySpan(b).0 <= x < SummarySpan(b).1)
    ensures AllBelow(Unfolded(b), |b.original|)
  {
    MissingIs(b, 0);
    OutsideIs(MissingFrom(b, 0), SummarySpan(b).0, SummarySpan(b).1);
    forall k | 0 <= k < |Unfolded(b)|
      ensures Unfolded(b)[k] < |b.original|
    {
      assert Unfolded(b)[k] in Unfolded(b);
    }
  }

  function UnsortedFolds(b: Build): seq<FoldRecord> {
    UnfoldedIs(b);
    ReplacedFolds(b, |b.compacted|) + SummaryFolds(b) + DroppedFolds(b, Unfolded(b))
  }

  predicate FoldLe(f: FoldRecord, g: FoldRecord) {
    || f.start < g.start
    || (f.start == g.start && (g.replacementIndex.None? ||
         (f.replacementIndex.Some? && f.replacementIndex.value <= g.replacementIndex.value)))
  }

  function Folds(b: Build): seq<FoldRecord> {
    SortBy(FoldLe, UnsortedFolds(b))
  }

  function Outputs(b: Build): (out: seq<Message>)
    ensures |out| == |b.compacted|
  {
    seq(|b.compacted|, j requires 0 <= j < |b.compacted| => Output(b, j))
  }

  /** Restore every message, note which originals are present, record each changed one. */
  method RecordReplacements(b: Build) returns (restored: seq<Message>, folds: seq<FoldRecord>, present: set<nat>, summaries: seq<nat>)
    ensures restored == Outputs(b)
    ensures folds == ReplacedFolds(b, |b.compacted|)
    ensures present == Present(b, |b.compacted|)
    ensures summaries == SummariesFrom(b, |b.compacted|)
  {
    hide FoldForSpan, Restored, OriginOf, ClassifyReplacement, IsSummary;
    restored, folds := b.compacted, [];
    present, summaries := {}, [];
    for j := 0 to |b.compacted|
      invariant |restored| == |b.compacted|
      invariant forall k | 0 <= k < j :: restored[k] == Output(b, k)
      invariant forall k | j <= k < |b.compacted| :: restored[k] == b.compacted[k]
      invariant present == Present(b, j)
      invariant folds == ReplacedFolds(b, j)
      invariant summaries == SummariesFrom(b, j)
    {
      var origin := OriginOf(restored[j]);
      restored := restored[j := Restored(b.saved, restored[j])];
      var msg := restored[j];
      PresentStep(b, j);
      if origin.Some? && origin.value < |b.original| {
        var idx := origin.value;
        present := present + {idx};
        if msg.content != b.original[idx].content || msg.metadata != b.original[idx].metadata {
          folds := folds + [FoldForSpan(b.a, ClassifyReplacement(msg), b.original, idx, idx + 1, Some(j), Some(msg))];
        }
      } else if IsSummary(msg) {
        summaries := summaries + [j];
      }
    }
  }

  lemma PresentStep(b: Build, j: nat)
    requires j < |b.compacted|
    ensures Present(b, j + 1) == Present(b, j) + if Origin(b, j).Some? then {Origin(b, j).value} else {}
  {
  }

  method MissingIndices(b: Build, present: set<nat>) returns (missing: seq<nat>)
    requires present == Present(b, |b.compacted|)
    ensures missing == MissingFrom(b, 0)
  {
    hide Present;
    missing := [];
    for i := |b.original| downto 0
      invariant missing == MissingFrom(b, i)
    {
      if i !in present {
        missing := [i] + missing;
      }
    }
  }

  /** One fold for the first run of missing originals when a summary stands in for them. */
  method RecordSummary(b: Build, restored: seq<Message>, summaries: seq<nat>, missing0: seq<nat>)
    returns (folds: seq<FoldRecord>, missing: seq<nat>)
    requires restored == Outputs(b) && summaries == SummariesFrom(b, |b.compacted|) && missing0 == MissingFrom(b, 0)
    ensures folds == SummaryFolds(b) && missing == Unfolded(b)
  {
    hide Present, FoldForSpan, Restored, OriginOf, IsSummary;
    folds, missing := [], missing0;
    MissingIs(b, 0);
    SummariesAreIndices(b, |b.compacted|);
    if summaries == [] || missing == [] {
      OutsideNothing(missing);
      return;
    }
    var start, end := missing[0], missing[0];
    assert start in missing;
    while end in missing
      invariant start <= end <= |b.original|
      invariant RunEnd(b, end) == RunEnd(b, start)
      decreases |b.original| - end
    {
      end := end + 1;
    }
    folds := [FoldForSpan(b.a, Summarized, b.original, start, end, Some(summaries[0]), Some(restored[summaries[0]]))];
    missing := Outside(missing, start, end);
  }

  method RecordDrops(b: Build, missing: seq<nat>) returns (folds: seq<FoldRecord>)
    requires AllBelow(missing, |b.original|)
    ensures folds == DroppedFolds(b, missing)
  {
    hide FoldForDropped;
    folds := [];
    assert missing[0..] == missing;
    for i := 0 to |missing|
      invariant folds + DroppedFolds(b, missing[i..]) == DroppedFolds(b, missing)
    {
      assert missing[i..][1..] == missing[i + 1..];
      var fold := FoldForDropped(b.a, b.original, missing[i], FindDropped(b.dropped, missing[i]));
      assert folds + ([fold] + DroppedFolds(b, missing[i + 1..])) == (folds + [fold]) + DroppedFolds(b, missing[i + 1..]);
      folds := folds + [fold];
    }
  }

  method BuildFoldRecords(b: Build) returns (restored: seq<Message>, folds: seq<FoldRecord>)
    ensures restored == Outputs(b)
    ensures folds == Folds(b)
  {
    hide ReplacedFolds, SummaryFolds, DroppedFolds, SortBy, Unfolded;
    var present, summaries;
    restored, folds, present, summaries := RecordReplacements(b);
    var missing := MissingIndices(b, present);
    var summaryFolds;
    summaryFolds, missing := RecordSummary(b, restored, summaries, missing);
    UnfoldedIs(b);
    var droppedFolds := RecordDrops(b, missing);
    folds := SortBy(FoldLe, folds + summaryFolds + droppedFolds);
  }

  lemma {:induction false} OutsideNothing(xs: seq<nat>)
    ensures Outside(xs, 0, 0) == xs
  {
    if xs != [] {
      OutsideNothing(xs[1..]);
    }
  }
}
