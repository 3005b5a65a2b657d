/** The fold records of a compaction account exactly for what the cascade did. */
module FoldAudit {
  import opened Naturals
  import opened Options
  import opened Messages
  import opened Sorting
  import opened Compact

  // ----- how often an original is covered -----

  predicate Covers(f: FoldRecord, i: nat) {
    f.start <= i < f.end
  }

  function CoverCount(folds: seq<FoldRecord>, i: nat): nat {
    if folds == [] then 0 else (if Covers(folds[0], i) then 1 else 0) + CoverCount(folds[1..], i)
  }

  lemma {:induction false} CoverCountConcat(f: seq<FoldRecord>, g: seq<FoldRecord>, i: nat)
    ensures CoverCount(f + g, i) == CoverCount(f, i) + CoverCount(g, i)
  {
    if f == [] {
      assert f + g == g;
    } else {
      assert (f + g)[1..] == f[1..] + g;
      CoverCountConcat(f[1..], g, i);
    }
  }

  lemma {:induction false} CoverCountInsert(f: FoldRecord, folds: seq<FoldRecord>, i: nat)
    ensures CoverCount(Insert(FoldLe, f, folds), i) == CoverCount([f] + folds, i)
  {
    if folds != [] && !FoldLe(f, folds[0]) {
      CoverCountInsert(f, folds[1..], i);
    }
  }

  lemma {:induction false} CoverCountSort(folds: seq<FoldRecord>, i: nat)
    ensures CoverCount(SortBy(FoldLe, folds), i) == CoverCount(folds, i)
  {
    if folds != [] {
      CoverCountSort(folds[1..], i);
      CoverCountInsert(folds[0], SortBy(FoldLe, folds[1..]), i);
    }
  }

  lemma {:induction false} CoveredBySome(folds: seq<FoldRecord>, i: nat)
    ensures CoverCount(folds, i) > 0 <==> exists f :: f in folds && Covers(f, i)
  {
    if folds != [] {
      CoveredBySome(folds[1..], i);
      assert folds == [folds[0]] + folds[1..];
    }
  }

  lemma {:induction false} CoveredByTwo(folds: seq<FoldRecord>, x: nat, y: nat, i: nat)
    requires x < y < |folds| && Covers(folds[x], i) && Covers(folds[y], i)
    ensures CoverCount(folds, i) >= 2
  {
    if x > 0 {
      CoveredByTwo(folds[1..], x - 1, y - 1, i);
    } else {
      assert folds[1..][y - 1] == folds[y];
      CoveredBySome(folds[1..], i);
      assert folds[y] in folds[1..];
    }
  }

  // ----- the parts -----

  /** Surviving messages stand for originals in strictly increasing order. */
  ghost predicate OrderedOrigins(b: Build) {
    forall j, k | 0 <= j < k < |b.compacted| && Origin(b, j).Some? && Origin(b, k).Some? ::
      Origin(b, j).value < Origin(b, k).value
  }

  /** Original `i` is still there, but rewritten. */
  ghost predicate Rewritten(b: Build, k: nat, i: nat)
    requires k <= |b.compacted|
  {
    exists j :: 0 <= j < k && Origin(b, j) == Some(i) && ChangedAt(b, j)
  }

  lemma {:induction false} ReplacedCoverage(b: Build, k: nat, i: nat)
    requires OrderedOrigins(b) && k <= |b.compacted|
    ensures CoverCount(ReplacedFolds(b, k), i) == if Rewritten(b, k, i) then 1 else 0
  {
    hide FoldForSpan, Output, ClassifyReplacement;
    if k > 0 {
      ReplacedCoverage(b, k - 1, i);
      if ChangedAt(b, k - 1) {
        var f := ReplacedFold(b, k - 1);
        ReplacedRange(b, k - 1);
        CoverCountConcat(ReplacedFolds(b, k - 1), [f], i);
        assert CoverCount([f], i) == if Covers(f, i) then 1 else 0;
        if Origin(b, k - 1) == Some(i) {
          assert !Rewritten(b, k - 1, i);
        }
      }
    }
  }

  lemma ReplacedRange(b: Build, j: nat)
    requires j < |b.compacted| && Origin(b, j).Some?
    ensures ReplacedFold(b, j).start == Origin(b, j).value && ReplacedFold(b, j).end == Origin(b, j).value + 1
  {
  }

  lemma {:induction false} DroppedCoverage(b: Build, xs: seq<nat>, i: nat)
    requires Increasing(xs) && AllBelow(xs, |b.original|)
    ensures CoverCount(DroppedFolds(b, xs), i) == if i in xs then 1 else 0
  {
    hide FindDropped, FoldForDropped;
    if xs != [] {
      DroppedCoverage(b, xs[1..], i);
      DroppedRange(b.a, b.original, xs[0], FindDropped(b.dropped, xs[0]));
      assert xs == [xs[0]] + xs[1..];
    }
  }

  lemma DroppedRange(a: Audit, original: seq<Message>, i: nat, stub: Option<Message>)
    requires i < |original|
    ensures FoldForDropped(a, original, i, stub).start == i && FoldForDropped(a, original, i, stub).end == i + 1
  {
  }

  lemma {:induction false} MissingIncreasing(b: Build, i: nat)
    requires i <= |b.original|
    ensures Increasing(MissingFrom(b, i))
    decreases |b.original| - i
  {
    if i < |b.original| {
      MissingIncreasing(b, i + 1);
      MissingIs(b, i + 1);
      var rest := MissingFrom(b, i + 1);
      assert forall k | 0 <= k < |rest| :: rest[k] in rest;
    }
  }

  lemma {:induction false} OutsideIncreasing(xs: seq<nat>, s: nat, e: nat)
    requires Increasing(xs)
    ensures Increasing(Outside(xs, s, e))
  {
    if xs != [] {
      OutsideIncreasing(xs[1..], s, e);
      OutsideIs(xs[1..], s, e);
      var rest := Outside(xs[1..], s, e);
      assert forall k | 0 <= k < |rest| :: rest[k] in rest;
    }
  }

  lemma SummaryCoverage(b: Build, i: nat)
    ensures CoverCount(SummaryFolds(b), i) == if SummarySpan(b).0 <= i < SummarySpan(b).1 then 1 else 0
  {
  }

  /** The original is gone, or it is there but rewritten. */
  ghost predicate Touched(b: Build, i: nat) {
    i !in Present(b, |b.compacted|) || Rewritten(b, |b.compacted|, i)
  }

  /** Every original that is missing or changed is covered by exactly one fold record, and no other is. */
  lemma FoldsCoverExactly(b: Build, i: nat)
    requires OrderedOrigins(b) && i < |b.original|
    ensures CoverCount(Folds(b), i) == if Touched(b, i) then 1 else 0
  {
    var n := |b.compacted|;
    var xs := Unfolded(b);
    UnfoldedIs(b);
    MissingIncreasing(b, 0);
    OutsideIncreasing(MissingFrom(b, 0), SummarySpan(b).0, SummarySpan(b).1);
    ReplacedCoverage(b, n, i);
    SummaryCoverage(b, i);
    DroppedCoverage(b, xs, i);
    CoverCountConcat(ReplacedFolds(b, n) + SummaryFolds(b), DroppedFolds(b, xs), i);
    CoverCountConcat(ReplacedFolds(b, n), SummaryFolds(b), i);
    CoverCountSort(UnsortedFolds(b), i);
    RewrittenIsPresent(b, i);
  }

  lemma RewrittenIsPresent(b: Build, i: nat)
    ensures Rewritten(b, |b.compacted|, i) ==> i in Present(b, |b.compacted|)
  {
  }

  // ----- order and disjointness -----

  lemma FoldOrder()
    ensures TotalPreorder(FoldLe)
  {
  }

  ghost predicate NonEmptyRanges(b: Build, folds: seq<FoldRecord>) {
    forall f | f in folds :: f.start < f.end <= |b.original|
  }

  lemma {:induction false} ReplacedRanges(b: Build, k: nat)
    requires k <= |b.compacted|
    ensures NonEmptyRanges(b, ReplacedFolds(b, k))
  {
    if k > 0 {
      ReplacedRanges(b, k - 1);
    }
  }

  lemma {:induction false} DroppedRanges(b: Build, xs: seq<nat>)
    requires AllBelow(xs, |b.original|)
    ensures NonEmptyRanges(b, DroppedFolds(b, xs))
  {
    if xs != [] {
      DroppedRanges(b, xs[1..]);
    }
  }

  lemma FoldRanges(b: Build)
    ensures NonEmptyRanges(b, Folds(b))
  {
    UnfoldedIs(b);
    ReplacedRanges(b, |b.compacted|);
    DroppedRanges(b, Unfolded(b));
    assert NonEmptyRanges(b, SummaryFolds(b));
    forall f | f in Folds(b)
      ensures f.start < f.end <= |b.original|
    {
      InSorted(FoldLe, UnsortedFolds(b), f);
      assert f in ReplacedFolds(b, |b.compacted|) || f in SummaryFolds(b) || f in DroppedFolds(b, Unfolded(b));
    }
  }

  /** Fold ranges come sorted and pairwise disjoint. */
  lemma FoldsAreDisjoint(b: Build, x: nat, y: nat)
    requires OrderedOrigins(b) && x < y < |Folds(b)|
    ensures Folds(b)[x].start < Folds(b)[x].end <= Folds(b)[y].start < Folds(b)[y].end
  {
    hide Folds;
    var folds := Folds(b);
    FoldRanges(b);
    FoldsSorted(b);
    assert folds[x] in folds && folds[y] in folds;
    assert FoldLe(folds[x], folds[y]);
    var i := folds[y].start;
    if Covers(folds[x], i) {
      CoveredByTwo(folds, x, y, i);
      FoldsCoverExactly(b, i);
      assert false;
    }
  }

  lemma FoldsSorted(b: Build)
    ensures Sorted(FoldLe, Folds(b))
  {
    FoldOrder();
    SortSorts(FoldLe, UnsortedFolds(b));
  }

  // ----- conservation of tokens -----

  function FoldTokens(folds: seq<FoldRecord>): nat {
    if folds == [] then 0 else folds[0].originalTokens + FoldTokens(folds[1..])
  }

  /** Tokens of the originals `i..`, each counted as often as it is covered. */
  function CoveredTokens(b: Build, folds: seq<FoldRecord>, i: nat): nat
    requires i <= |b.original|
    decreases |b.original| - i
  {
    if i == |b.original| then 0
    else CoverCount(folds, i) * b.a.count(b.original[i].content) + CoveredTokens(b, folds, i + 1)
  }

  function UntouchedTokens(b: Build, i: nat): nat
    requires i <= |b.original|
    decreases |b.original| - i
  {
    if i == |b.original| then 0
    else (if CoverCount(Folds(b), i) == 0 then b.a.count(b.original[i].content) else 0) + UntouchedTokens(b, i + 1)
  }

  ghost predicate HonestTokens(b: Build, folds: seq<FoldRecord>) {
    forall f | f in folds ::
      f.start <= f.end <= |b.original| && f.originalTokens == ContentTokens(b.a.count, b.original[f.start..f.end])
  }

  /** One fold contributes exactly the tokens of its range. */
  lemma {:induction false} RangeTokens(b: Build, f: FoldRecord, i: nat)
    requires i <= |b.original| && f.start <= f.end <= |b.original|
    ensures CoveredTokens(b, [f], i) ==
            if i >= f.end then 0
            else ContentTokens(b.a.count, b.original[(if i < f.start then f.start else i)..f.end])
    decreases |b.original| - i
  {
    if i < |b.original| {
      RangeTokens(b, f, i + 1);
      assert CoverCount([f], i) == if Covers(f, i) then 1 else 0;
      if Covers(f, i) {
        assert b.original[i..f.end][1..] == b.original[i + 1..f.end];
        if i + 1 == f.end {
          assert b.original[i + 1..f.end] == [];
        }
      }
    } else if f.end > i {
      assert false;
    }
  }

  lemma {:induction false} CoveredTokensCons(b: Build, f: FoldRecord, folds: seq<FoldRecord>, i: nat)
    requires i <= |b.original|
    ensures CoveredTokens(b, [f] + folds, i) == CoveredTokens(b, [f], i) + CoveredTokens(b, folds, i)
    decreases |b.original| - i
  {
    if i < |b.original| {
      CoveredTokensCons(b, f, folds, i + 1);
      CoverCountConcat([f], folds, i);
      var w := b.a.count(b.original[i].content);
      assert (CoverCount([f], i) + CoverCount(folds, i)) * w == CoverCount([f], i) * w + CoverCount(folds, i) * w;
    }
  }

  lemma {:induction false} TokensByCover(b: Build, folds: seq<FoldRecord>)
    requires HonestTokens(b, folds)
    ensures FoldTokens(folds) == CoveredTokens(b, folds, 0)
  {
    if folds == [] {
      NothingCovered(b, 0);
    } else {
      var f, rest := folds[0], folds[1..];
      assert folds == [f] + rest;
      TokensByCover(b, rest);
      CoveredTokensCons(b, f, rest, 0);
      RangeTokens(b, f, 0);
      if f.start == f.end {
        assert b.original[f.start..f.end] == [];
      }
    }
  }

  lemma {:induction false} NothingCovered(b: Build, i: nat)
    requires i <= |b.original|
    ensures CoveredTokens(b, [], i) == 0
    decreases |b.original| - i
  {
    if i < |b.original| {
      NothingCovered(b, i + 1);
    }
  }

  lemma {:induction false} SplitTokens(b: Build, i: nat)
    requires OrderedOrigins(b) && i <= |b.original|
    ensures CoveredTokens(b, Folds(b), i) + UntouchedTokens(b, i) == ContentTokens(b.a.count, b.original[i..])
    decreases |b.original| - i
  {
    hide Folds;
    if i < |b.original| {
      SplitTokens(b, i + 1);
      FoldsCoverExactly(b, i);
      assert b.original[i..][1..] == b.original[i + 1..];
    }
  }

  lemma {:induction false} ReplacedHonest(b: Build, k: nat)
    requires k <= |b.compacted|
    ensures HonestTokens(b, ReplacedFolds(b, k))
  {
    if k > 0 {
      ReplacedHonest(b, k - 1);
    }
  }

  lemma {:induction false} DroppedHonest(b: Build, xs: seq<nat>)
    requires AllBelow(xs, |b.original|)
    ensures HonestTokens(b, DroppedFolds(b, xs))
  {
    if xs != [] {
      DroppedHonest(b, xs[1..]);
    }
  }

  lemma FoldsHonest(b: Build)
    ensures HonestTokens(b, Folds(b))
  {
    UnfoldedIs(b);
    ReplacedHonest(b, |b.compacted|);
    DroppedHonest(b, Unfolded(b));
    assert HonestTokens(b, SummaryFolds(b));
    forall f | f in Folds(b)
      ensures f in ReplacedFolds(b, |b.compacted|) || f in SummaryFolds(b) || f in DroppedFolds(b, Unfolded(b))
    {
      InSorted(FoldLe, UnsortedFolds(b), f);
    }
  }

  /** Nothing is lost from the accounts: the fold records' original tokens and the tokens of the
      untouched originals add up to the content total of the input. */
  lemma TokensAreConserved(b: Build)
    requires OrderedOrigins(b)
    ensures FoldTokens(Folds(b)) + UntouchedTokens(b, 0) == ContentTokens(b.a.count, b.original)
  {
    FoldsHonest(b);
    TokensByCover(b, Folds(b));
    SplitTokens(b, 0);
    assert b.original[0..] == b.original;
  }
}
