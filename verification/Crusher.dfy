/** Array and object sampling of compressors/smart_crusher.rs. */
module Crusher {
  import opened Naturals
  import opened Sets

  datatype Value = Null | Bool(b: bool) | Number(n: string) | Str(s: string) | Array(items: seq<Value>) | Object(fields: seq<Field>)

  datatype Field = Field(key: string, value: Value)

  /** Serialisation, hashing, statistics and keyword detection, kept uninterpreted. */
  datatype Env = Env(
    toText: Value -> string,
    key: string -> string,
    marker: string -> string,
    size: string -> nat,
    optimalK: seq<string> -> nat,
    mentionsError: string -> bool,
    oddLength: (seq<string>, nat) -> bool,
    finite: Value -> bool,
    outlier: (seq<Value>, nat) -> bool,
    changePoint: (seq<Value>, nat) -> bool,
    relevance: string -> real)

  datatype Config = Config(minItems: nat, minTokens: nat, preserveChangePoints: bool, firstFraction: real, lastFraction: real)

  // ----- positions -----

  /** A strictly increasing choice of positions below `n`. */
  ghost predicate Picks(idx: seq<nat>, n: nat) {
    && (forall k | 0 <= k < |idx| :: idx[k] < n)
    && (forall j, k | 0 <= j < k < |idx| :: idx[j] < idx[k])
  }

  function Pick<T>(s: seq<T>, idx: seq<nat>): (r: seq<T>)
    requires forall k | 0 <= k < |idx| :: idx[k] < |s|
    ensures |r| == |idx|
  {
    seq(|idx|, k requires 0 <= k < |idx| => s[idx[k]])
  }

  /** The members of `keep` below `n`, in order. */
  function Ascending(keep: set<nat>, n: nat): seq<nat> {
    if n == 0 then [] else if n - 1 in keep then Ascending(keep, n - 1) + [n - 1] else Ascending(keep, n - 1)
  }

  lemma {:induction false} AscendingPicks(keep: set<nat>, n: nat)
    ensures Picks(Ascending(keep, n), n)
    ensures forall i: nat :: i in Ascending(keep, n) <==> i < n && i in keep
  {
    if n > 0 {
      AscendingPicks(keep, n - 1);
    }
  }

  lemma {:induction false} AscendingSize(keep: set<nat>, n: nat)
    ensures |Ascending(keep, n)| <= |keep|
    ensures (forall i | i in keep :: i < n) ==> |Ascending(keep, n)| == |keep|
  {
    if n > 0 {
      AscendingSize(keep - {n - 1}, n - 1);
      AscendingCongruent(keep, keep - {n - 1}, n - 1);
    }
  }

  lemma {:induction false} AscendingCongruent(keep: set<nat>, other: set<nat>, n: nat)
    requires forall i: nat | i < n :: i in keep <==> i in other
    ensures Ascending(keep, n) == Ascending(other, n)
  {
    if n > 0 {
      AscendingCongruent(keep, other, n - 1);
    }
  }

  lemma KeptPositions(keep: set<nat>, n: nat)
    requires forall i | i in keep :: i < n
    ensures Picks(Ascending(keep, n), n) && |Ascending(keep, n)| == |keep|
    ensures forall i: nat :: i in Ascending(keep, n) <==> i in keep
  {
    AscendingPicks(keep, n);
    AscendingSize(keep, n);
  }

  function Members(idx: seq<nat>): set<nat> {
    set i | i in idx
  }

  lemma MembersOfAscending(keep: set<nat>, n: nat)
    requires forall i | i in keep :: i < n
    ensures Members(Ascending(keep, n)) == keep
  {
    AscendingPicks(keep, n);
  }

  function AllPositions(n: nat): seq<nat> {
    seq(n, (i: nat) => i)
  }

  lemma PickAll<T>(s: seq<T>)
    ensures Picks(AllPositions(|s|), |s|) && Pick(s, AllPositions(|s|)) == s
    ensures forall i: nat | i < |s| :: i in AllPositions(|s|)
  {
    forall i: nat | i < |s|
      ensures i in AllPositions(|s|)
    {
      assert AllPositions(|s|)[i] == i;
    }
  }

  predicate Between(lo: nat, i: nat, hi: nat) {
    lo <= i < hi
  }

  function Range(lo: nat, hi: nat): (s: set<nat>)
    ensures forall i: nat :: i in s <==> lo <= i < hi
  {
    set i: nat | i < hi && Between(lo, i, hi)
  }

  lemma {:induction false} RangeSize(lo: nat, hi: nat)
    requires lo <= hi
    ensures |Range(lo, hi)| == hi - lo
  {
    if lo < hi {
      RangeSize(lo, hi - 1);
      assert Range(lo, hi) == Range(lo, hi - 1) + {hi - 1};
    } else {
      assert Range(lo, hi) == {};
    }
  }

  // ----- compute_k_split -----

  function ToUsize(x: real): (r: nat)
    ensures x >= 0.0 ==> r as real <= x < r as real + 1.0
    ensures x < 0.0 ==> r == 0
  {
    if x <= 0.0 then 0 else x.Floor
  }

  /** `round_ties_even() as usize`. */
  function RoundTiesEven(x: real): (r: nat)
    ensures x >= 0.0 ==> r as real - 0.5 <= x <= r as real + 0.5
    ensures x >= 0.0 && (x == r as real - 0.5 || x == r as real + 0.5) ==> r % 2 == 0
    ensures x < 0.0 ==> r == 0
  {
    var down := ToUsize(x);
    var frac := x - down as real;
    if x <= 0.0 || frac < 0.5 || (frac == 0.5 && down % 2 == 0) then down else down + 1
  }

  function Share(total: nat, fraction: real): (r: nat)
    ensures r >= 1
  {
    Max(1, RoundTiesEven(total as real * fraction))
  }

  datatype Split = Split(total: nat, first: nat, last: nat, importance: nat)

  /** The three shares always add up to the total, and a non-empty total keeps a first item. */
  function ComputeSplit(env: Env, cfg: Config, texts: seq<string>): (k: Split)
    ensures k.first + k.last + k.importance == k.total
    ensures k.total > 0 ==> k.first > 0
    ensures k.total > k.first ==> k.last > 0
  {
    var total := env.optimalK(texts);
    var first := Min(Share(total, cfg.firstFraction), total);
    var last := Min(Share(total, cfg.lastFraction), SatSub(total, first));
    Split(total, first, last, SatSub(total, first + last))
  }

  lemma QuotientBounds(a: nat, b: nat)
    requires b > 0
    ensures a / b * b <= a < (a / b + 1) * b
  {
  }

  /** Distance between the sampled positions: `budget` of them and one more just fit. */
  function Stride(n: nat, budget: nat): (d: nat)
    ensures d >= 1
    ensures d * (budget + 1) < n || d == 1
    ensures n <= (d + 1) * (budget + 1)
  {
    QuotientBounds(SatSub(n, 1), budget + 1);
    Max(1, SatSub(n, 1) / (budget + 1))
  }

  /** Is `i` a multiple of `stride`? */
  predicate OnStride(i: nat, stride: nat)
    requires stride >= 1
  {
    if i < stride then i == 0 else OnStride(i - stride, stride)
  }

  lemma {:induction false} NoneBetween(i: nat, j: nat, stride: nat)
    requires stride >= 1 && OnStride(i, stride) && OnStride(j, stride) && i < j
    ensures i + stride <= j
  {
    if i >= stride {
      NoneBetween(i - stride, j - stride, stride);
    }
  }

  lemma StrideSteps(i: nat, stride: nat)
    requires stride >= 1
    ensures OnStride(0, stride) && (OnStride(i, stride) ==> OnStride(i + stride, stride))
  {
  }

  lemma NextIsStride(i: nat, stride: nat)
    requires stride >= 1 && OnStride(i, stride)
    ensures OnStride(i + stride, stride) && forall j: nat | i < j < i + stride :: !OnStride(j, stride)
  {
    StrideSteps(i, stride);
    forall j: nat | i < j < i + stride
      ensures !OnStride(j, stride)
    {
      if OnStride(j, stride) {
        NoneBetween(i, j, stride);
      }
    }
  }

  /** Every sampled position below `n` is kept. */
  ghost predicate EveryStrideIn(n: nat, stride: nat, keep: set<nat>)
    requires stride >= 1
  {
    forall i: nat | i < n && OnStride(i, stride) :: i in keep
  }

  // ----- string arrays -----

  function ErrorsIn(env: Env, items: seq<string>): set<nat> {
    set i | 0 <= i < |items| && env.mentionsError(items[i])
  }

  function AnomaliesIn(env: Env, items: seq<string>): set<nat> {
    set i: nat | i < |items| && env.oddLength(items, i)
  }

  /** The first and last slices of `n` positions. */
  function Ends(n: nat, first: nat, last: nat): set<nat> {
    Range(0, Min(first, n)) + Range(SatSub(n, last), n)
  }

  lemma EndsSize(n: nat, first: nat, last: nat)
    ensures |Ends(n, first, last)| <= first + last
  {
    RangeSize(0, Min(first, n));
    RangeSize(SatSub(n, last), n);
    UnionSize(Range(0, Min(first, n)), Range(SatSub(n, last), n));
  }

  function Texts(items: seq<string>, keep: set<nat>): set<string> {
    set i | i in keep && i < |items| :: items[i]
  }

  /** What a long string array must keep. */
  function MustKeepStrings(env: Env, cfg: Config, items: seq<string>): set<nat> {
    var k := ComputeSplit(env, cfg, items);
    ErrorsIn(env, items) + AnomaliesIn(env, items) + Ends(|items|, k.first, k.last)
  }

  lemma MustKeepSize(env: Env, cfg: Config, items: seq<string>)
    ensures |MustKeepStrings(env, cfg, items)|
         <= ComputeSplit(env, cfg, items).total + |ErrorsIn(env, items)| + |AnomaliesIn(env, items)|
    ensures forall i | i in MustKeepStrings(env, cfg, items) :: i < |items|
  {
    var k := ComputeSplit(env, cfg, items);
    EndsSize(|items|, k.first, k.last);
    UnionSize(ErrorsIn(env, items), AnomaliesIn(env, items));
    UnionSize(ErrorsIn(env, items) + AnomaliesIn(env, items), Ends(|items|, k.first, k.last));
  }

  /** Every sampled extra carries a text no other kept position carries. */
  ghost predicate ExtrasAreNew(items: seq<string>, must: set<nat>, keep: set<nat>) {
    forall i, j | i in keep && i !in must && j in keep && i != j && i < |items| && j < |items| :: items[i] != items[j]
  }

  /** Room left by the exceptions is used: until the cap is met, the text of every sampled position is kept. */
  ghost predicate StringsFilled(env: Env, cfg: Config, items: seq<string>, keep: set<nat>) {
    var total, budget := ComputeSplit(env, cfg, items).total, SatSub(ComputeSplit(env, cfg, items).total, |MustKeepStrings(env, cfg, items)|);
    budget > 0 ==>
      || |keep| >= total + |ErrorsIn(env, items)| + |AnomaliesIn(env, items)|
      || EveryTextIn(items, Stride(|items|, budget), Texts(items, keep))
  }

  /** The text of every sampled position is among `texts`. */
  ghost predicate EveryTextIn(items: seq<string>, stride: nat, texts: set<string>)
    requires stride >= 1
  {
    forall i: nat | i < |items| && OnStride(i, stride) :: items[i] in texts
  }

  /** A short array is kept whole. A long one keeps every error string, every length anomaly and both end
      slices; the sampled extras repeat no kept text, and the whole stays within the total plus the exceptions. */
  ghost predicate StringsSampled(env: Env, cfg: Config, items: seq<string>, idx: seq<nat>) {
    if |items| <= 8 then forall i: nat | i < |items| :: i in idx
    else
      && (forall i | i in MustKeepStrings(env, cfg, items) :: i in idx)
      && |idx| <= ComputeSplit(env, cfg, items).total + |ErrorsIn(env, items)| + |AnomaliesIn(env, items)|
      && ExtrasAreNew(items, MustKeepStrings(env, cfg, items), Members(idx))
      && StringsFilled(env, cfg, items, Members(idx))
  }

  method CrushStringArray(env: Env, cfg: Config, items: seq<string>) returns (out: seq<string>, ghost idx: seq<nat>)
    ensures Picks(idx, |items|) && out == Pick(items, idx)
    ensures StringsSampled(env, cfg, items, idx)
  {
    hide MustKeepStrings, ComputeSplit, ErrorsIn, AnomaliesIn, ExtrasAreNew, StringsFilled, Picks, Pick, Members, Ascending, AllPositions;
    var n := |items|;
    if n <= 8 {
      PickAll(items);
      return items, AllPositions(n);
    }
    var keep := SampleStrings(env, cfg, items);
    out := PickAscending(items, keep);
    idx := Ascending(keep, n);
    KeptPositions(keep, n);
    MembersOfAscending(keep, n);
  }

  method PickAscending<T>(items: seq<T>, keep: set<nat>) returns (out: seq<T>)
    ensures Picks(Ascending(keep, |items|), |items|) && out == Pick(items, Ascending(keep, |items|))
  {
    out := [];
    AscendingPicks(keep, 0);
    for i := 0 to |items|
      invariant Picks(Ascending(keep, i), i) && out == Pick(items, Ascending(keep, i))
    {
      AscendingPicks(keep, i + 1);
      if i in keep {
        out := out + [items[i]];
      }
    }
  }

  method SampleStrings(env: Env, cfg: Config, items: seq<string>) returns (keep: set<nat>)
    requires |items| > 8
    ensures MustKeepStrings(env, cfg, items) <= keep && forall i | i in keep :: i < |items|
    ensures |keep| <= ComputeSplit(env, cfg, items).total + |ErrorsIn(env, items)| + |AnomaliesIn(env, items)|
    ensures ExtrasAreNew(items, MustKeepStrings(env, cfg, items), keep)
    ensures StringsFilled(env, cfg, items, keep)
  {
    hide *;
    var n, k := |items|, ComputeSplit(env, cfg, items);
    var errors, anomalies := ErrorsIn(env, items), AnomaliesIn(env, items);
    keep := errors + anomalies + Ends(n, k.first, k.last);
    ghost var must := keep;
    MustKeepStringsAre(env, cfg, items);
    MustKeepSize(env, cfg, items);
    var seen := Texts(items, keep);
    var budget := SatSub(k.total, |keep|);
    if budget > 0 {
      keep := FillStrings(items, keep, seen, Stride(n, budget), k.total + |errors| + |anomalies|);
    }
    StringsFilledIs(env, cfg, items, keep);
  }

  lemma MustKeepStringsAre(env: Env, cfg: Config, items: seq<string>)
    ensures var k := ComputeSplit(env, cfg, items);
            var must := ErrorsIn(env, items) + AnomaliesIn(env, items) + Ends(|items|, k.first, k.last);
            MustKeepStrings(env, cfg, items) == must && ExtrasAreNew(items, must, must)
  {
  }

  lemma StringsFilledIs(env: Env, cfg: Config, items: seq<string>, keep: set<nat>)
    requires var k := ComputeSplit(env, cfg, items);
             var budget := SatSub(k.total, |MustKeepStrings(env, cfg, items)|);
             budget > 0 ==>
               || |keep| >= k.total + |ErrorsIn(env, items)| + |AnomaliesIn(env, items)|
               || EveryTextIn(items, Stride(|items|, budget), Texts(items, keep))
    ensures StringsFilled(env, cfg, items, keep)
  {
  }

  /** Adds every `stride`-th position whose text is not yet kept, until `cap` positions are kept. */
  method FillStrings(items: seq<string>, keep0: set<nat>, seen0: set<string>, stride: nat, cap: nat) returns (keep: set<nat>)
    requires stride >= 1 && |keep0| <= cap && (forall i | i in keep0 :: i < |items|) && seen0 == Texts(items, keep0)
    requires ExtrasAreNew(items, keep0, keep0)
    ensures keep0 <= keep && |keep| <= cap && forall i | i in keep :: i < |items|
    ensures ExtrasAreNew(items, keep0, keep)
    ensures |keep| >= cap || EveryTextIn(items, stride, Texts(items, keep))
  {
    hide *;
    var seen, i := seen0, 0;
    keep := keep0;
    StrideSteps(0, stride);
    while i < |items| && |keep| < cap
      invariant keep0 <= keep && |keep| <= cap && forall j | j in keep :: j < |items|
      invariant seen == Texts(items, keep) && ExtrasAreNew(items, keep0, keep)
      invariant OnStride(i, stride)
      invariant forall j: nat | j < i && j < |items| && OnStride(j, stride) :: items[j] in seen
      decreases |items| - i
    {
      NextIsStride(i, stride);
      KeptText(items, keep, i);
      if i !in keep && items[i] !in seen {
        NewTextStaysNew(items, keep0, keep, i);
        keep, seen := keep + {i}, seen + {items[i]};
      }
      i := i + stride;
    }
    EveryTextIs(items, stride, seen);
  }

  lemma EveryTextIs(items: seq<string>, stride: nat, texts: set<string>)
    requires stride >= 1
    ensures EveryTextIn(items, stride, texts) <==> forall i: nat | i < |items| && OnStride(i, stride) :: items[i] in texts
  {
  }

  lemma KeptText(items: seq<string>, keep: set<nat>, i: nat)
    requires i < |items|
    ensures i in keep ==> items[i] in Texts(items, keep)
  {
  }

  lemma NewTextStaysNew(items: seq<string>, must: set<nat>, keep: set<nat>, i: nat)
    requires i < |items| && items[i] !in Texts(items, keep) && ExtrasAreNew(items, must, keep)
    ensures ExtrasAreNew(items, must, keep + {i}) && Texts(items, keep + {i}) == Texts(items, keep) + {items[i]}
  {
    forall j | j in keep && j < |items|
      ensures items[j] != items[i]
    {
      assert items[j] in Texts(items, keep);
    }
  }

  // ----- number arrays -----

  function TextsOf(env: Env, items: seq<Value>): seq<string> {
    seq(|items|, i requires 0 <= i < |items| => env.toText(items[i]))
  }

  function OutliersIn(env: Env, items: seq<Value>): set<nat> {
    set i: nat | i < |items| && env.outlier(items, i)
  }

  /** Change points are looked for with a window of 5 on both sides. */
  function ChangesIn(env: Env, cfg: Config, items: seq<Value>): set<nat> {
    if cfg.preserveChangePoints && |items| > 10 then set i: nat | 5 <= i < |items| - 5 && env.changePoint(items, i) else {}
  }

  function MustKeepNumbers(env: Env, cfg: Config, items: seq<Value>): set<nat> {
    var k := ComputeSplit(env, cfg, TextsOf(env, items));
    OutliersIn(env, items) + ChangesIn(env, cfg, items) + Ends(|items|, k.first, k.last)
  }

  predicate AnyFinite(env: Env, items: seq<Value>) {
    exists i | 0 <= i < |items| :: env.finite(items[i])
  }

  /** A short array, or one without a finite number, is kept whole. A long one keeps its outliers, its
      change points and both end slices, and is filled up to the total plus its outliers at most. */
  ghost predicate NumbersSampled(env: Env, cfg: Config, items: seq<Value>, idx: seq<nat>) {
    if |items| <= 8 || !AnyFinite(env, items) then forall i: nat | i < |items| :: i in idx
    else
      && (forall i | i in MustKeepNumbers(env, cfg, items) :: i in idx)
      && |idx| <= Max(|MustKeepNumbers(env, cfg, items)|, ComputeSplit(env, cfg, TextsOf(env, items)).total + |OutliersIn(env, items)|)
      && NumbersFilled(env, cfg, items, Members(idx))
  }

  /** Room left by the exceptions is used: until the cap is met, every sampled position is kept. */
  ghost predicate NumbersFilled(env: Env, cfg: Config, items: seq<Value>, keep: set<nat>) {
    var total := ComputeSplit(env, cfg, TextsOf(env, items)).total;
    FilledTo(|items|, SatSub(total, |MustKeepNumbers(env, cfg, items)|), total + |OutliersIn(env, items)|, keep)
  }

  ghost predicate FilledTo(n: nat, budget: nat, cap: nat, keep: set<nat>) {
    budget > 0 ==> |keep| >= cap || EveryStrideIn(n, Stride(n, budget), keep)
  }

  method CrushNumberArray(env: Env, cfg: Config, items: seq<Value>) returns (out: seq<Value>, ghost idx: seq<nat>)
    ensures Picks(idx, |items|) && out == Pick(items, idx)
    ensures NumbersSampled(env, cfg, items, idx)
  {
    hide AnyFinite, MustKeepNumbers, ComputeSplit, OutliersIn, ChangesIn, TextsOf, NumbersFilled, Picks, Pick, Members, Ascending, AllPositions;
    var n := |items|;
    if n <= 8 || !AnyFinite(env, items) {
      PickAll(items);
      return items, AllPositions(n);
    }
    var keep := SampleNumbers(env, cfg, items);
    out := PickAscending(items, keep);
    idx := Ascending(keep, n);
    KeptPositions(keep, n);
    MembersOfAscending(keep, n);
  }

  method SampleNumbers(env: Env, cfg: Config, items: seq<Value>) returns (keep: set<nat>)
    ensures MustKeepNumbers(env, cfg, items) <= keep && forall i | i in keep :: i < |items|
    ensures |keep| <= Max(|MustKeepNumbers(env, cfg, items)|, ComputeSplit(env, cfg, TextsOf(env, items)).total + |OutliersIn(env, items)|)
    ensures NumbersFilled(env, cfg, items, keep)
  {
    var n, k := |items|, ComputeSplit(env, cfg, TextsOf(env, items));
    var outliers, changes := OutliersIn(env, items), ChangesIn(env, cfg, items);
    keep := outliers + changes + Ends(n, k.first, k.last);
    assert keep == MustKeepNumbers(env, cfg, items);
    MustKeepNumbersSize(env, cfg, items);
    hide OutliersIn, ChangesIn, ComputeSplit, MustKeepNumbers, Ends, TextsOf, EveryStrideIn, Stride;
    var budget := SatSub(k.total, |keep|);
    if budget > 0 {
      keep := StrideFill(n, keep, Stride(n, budget), k.total + |outliers|);
    }
  }

  lemma MustKeepNumbersSize(env: Env, cfg: Config, items: seq<Value>)
    ensures |MustKeepNumbers(env, cfg, items)|
         <= ComputeSplit(env, cfg, TextsOf(env, items)).total + |OutliersIn(env, items)| + |ChangesIn(env, cfg, items)|
    ensures forall i | i in MustKeepNumbers(env, cfg, items) :: i < |items|
  {
    var k := ComputeSplit(env, cfg, TextsOf(env, items));
    EndsSize(|items|, k.first, k.last);
    UnionSize(OutliersIn(env, items), ChangesIn(env, cfg, items));
    UnionSize(OutliersIn(env, items) + ChangesIn(env, cfg, items), Ends(|items|, k.first, k.last));
  }

  /** Adds every `stride`-th position until `cap` positions are kept. */
  method StrideFill(n: nat, keep0: set<nat>, stride: nat, cap: nat) returns (keep: set<nat>)
    requires stride >= 1 && forall i | i in keep0 :: i < n
    ensures keep0 <= keep && |keep| <= Max(|keep0|, cap) && forall i | i in keep :: i < n
    ensures |keep| >= cap || EveryStrideIn(n, stride, keep)
  {
    hide OnStride;
    keep := keep0;
    var i := 0;
    StrideSteps(0, stride);
    while i < n && |keep| < cap
      invariant keep0 <= keep && |keep| <= Max(|keep0|, cap) && forall i | i in keep :: i < n
      invariant OnStride(i, stride) && forall j: nat | j < i && j < n && OnStride(j, stride) :: j in keep
      decreases n - i
    {
      NextIsStride(i, stride);
      keep := keep + {i};
      i := i + stride;
    }
  }

  // ----- objects -----

  function FieldTokens(env: Env, f: Field): nat {
    env.size(env.toText(f.value)) / 4 + env.size(f.key) / 4 + 2
  }

  function TotalTokens(env: Env, fields: seq<Field>): nat {
    if fields == [] then 0 else TotalTokens(env, fields[..|fields| - 1]) + FieldTokens(env, fields[|fields| - 1])
  }

  function FieldTexts(env: Env, fields: seq<Field>): seq<string> {
    seq(|fields|, i requires 0 <= i < |fields| => fields[i].key + ": " + env.toText(fields[i].value))
  }

  function ErrorFields(env: Env, fields: seq<Field>): set<nat> {
    set i | 0 <= i < |fields| && env.mentionsError(env.toText(fields[i].value))
  }

  function SmallFields(env: Env, fields: seq<Field>): set<nat> {
    set i | 0 <= i < |fields| && FieldTokens(env, fields[i]) <= 12
  }

  function MustKeepFields(env: Env, cfg: Config, fields: seq<Field>): set<nat> {
    var total := env.optimalK(FieldTexts(env, fields));
    ErrorFields(env, fields) + SmallFields(env, fields)
    + Ends(|fields|, Share(total, cfg.firstFraction), Share(total, cfg.lastFraction))
  }

  predicate CrushesObject(env: Env, cfg: Config, fields: seq<Field>) {
    |fields| > 8 && TotalTokens(env, fields) >= cfg.minTokens && env.optimalK(FieldTexts(env, fields)) < |fields|
  }

  /** A crushed object keeps its error fields, its small fields and both ends; any other is kept whole. */
  ghost predicate FieldsSampled(env: Env, cfg: Config, fields: seq<Field>, idx: seq<nat>) {
    if !CrushesObject(env, cfg, fields) then forall i: nat | i < |fields| :: i in idx
    else
      && (forall i | i in MustKeepFields(env, cfg, fields) :: i in idx)
      && |idx| <= Max(|MustKeepFields(env, cfg, fields)|, env.optimalK(FieldTexts(env, fields)) + |ErrorFields(env, fields)|)
      && FieldsFilled(env, cfg, fields, Members(idx))
  }

  ghost predicate FieldsFilled(env: Env, cfg: Config, fields: seq<Field>, keep: set<nat>) {
    var total := env.optimalK(FieldTexts(env, fields));
    FilledTo(|fields|, SatSub(total, |MustKeepFields(env, cfg, fields)|), total + |ErrorFields(env, fields)|, keep)
  }

  method CrushObject(env: Env, cfg: Config, fields: seq<Field>) returns (out: seq<Field>, ghost idx: seq<nat>)
    ensures Picks(idx, |fields|) && out == Pick(fields, idx)
    ensures FieldsSampled(env, cfg, fields, idx)
  {
    hide CrushesObject, MustKeepFields, FieldTexts, ErrorFields, FieldsFilled, Max, Picks, Pick, Members, Ascending, AllPositions;
    var n := |fields|;
    if !CrushesObject(env, cfg, fields) {
      PickAll(fields);
      return fields, AllPositions(n);
    }
    var keep := SampleFields(env, cfg, fields);
    out := PickAscending(fields, keep);
    idx := Ascending(keep, n);
    KeptPositions(keep, n);
    MembersOfAscending(keep, n);
  }

  lemma MustKeepFieldsAre(env: Env, cfg: Config, fields: seq<Field>)
    ensures forall i | i in MustKeepFields(env, cfg, fields) :: i < |fields|
  {
  }

  method SampleFields(env: Env, cfg: Config, fields: seq<Field>) returns (keep: set<nat>)
    ensures MustKeepFields(env, cfg, fields) <= keep && forall i | i in keep :: i < |fields|
    ensures |keep| <= Max(|MustKeepFields(env, cfg, fields)|, env.optimalK(FieldTexts(env, fields)) + |ErrorFields(env, fields)|)
    ensures FieldsFilled(env, cfg, fields, keep)
  {
    var n, total, errors := |fields|, env.optimalK(FieldTexts(env, fields)), ErrorFields(env, fields);
    keep := errors + SmallFields(env, fields) + Ends(n, Share(total, cfg.firstFraction), Share(total, cfg.lastFraction));
    assert keep == MustKeepFields(env, cfg, fields);
    MustKeepFieldsAre(env, cfg, fields);
    assert errors <= keep;
    hide ErrorFields, SmallFields, MustKeepFields, FieldTexts, Ends, Share, EveryStrideIn, Stride;
    var remaining := SatSub(total, |keep|);
    if remaining > 0 {
      keep := FillFields(n, keep, errors, Stride(n, remaining), total);
    }
  }

  /** Each error field that is kept raises the cap by one. */
  method FillFields(n: nat, keep0: set<nat>, errors: set<nat>, stride: nat, total: nat) returns (keep: set<nat>)
    requires stride >= 1 && forall i | i in keep0 :: i < n
    ensures keep0 <= keep && |keep| <= Max(|keep0|, total + |errors|) && forall i | i in keep :: i < n
    ensures errors <= keep0 ==> |keep| >= total + |errors| || EveryStrideIn(n, stride, keep)
  {
    hide OnStride;
    keep := keep0;
    var i := 0;
    StrideSteps(0, stride);
    while i < n
      invariant keep0 <= keep && |keep| <= Max(|keep0|, total + |errors|) && forall i | i in keep :: i < n
      invariant OnStride(i, stride) && forall j: nat | j < i && j < n && OnStride(j, stride) :: j in keep
      decreases n - i
    {
      NextIsStride(i, stride);
      assert errors <= keep ==> keep * errors == errors;
      assert |keep * errors| <= |errors| by {
        SubsetSize(keep * errors, errors);
      }
      if |keep| >= total + |keep * errors| {
        return;
      }
      keep := keep + {i};
      i := i + stride;
    }
  }
}
