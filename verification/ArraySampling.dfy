/** Sampling of record arrays and mixed arrays in compressors/smart_crusher.rs. */
module ArraySampling {
  import opened Options
  import opened Naturals
  import opened Sets
  import opened Sorting
  import opened Crusher
  import opened Pruning

  // ----- arrays of objects -----

  function ScoreAt(env: Env, items: seq<Value>, i: int): real {
    if 0 <= i < |items| then env.relevance(env.toText(items[i])) else 0.0
  }

  predicate ScoresAbove(env: Env, items: seq<Value>, i: int, j: int) {
    ScoreAt(env, items, i) >= ScoreAt(env, items, j)
  }

  function DictFirst(env: Env, cfg: Config, items: seq<Value>): nat {
    ToUsize(env.optimalK(TextsOf(env, items)) as real * cfg.firstFraction)
  }

  function DictLast(env: Env, cfg: Config, items: seq<Value>): nat {
    ToUsize(env.optimalK(TextsOf(env, items)) as real * cfg.lastFraction)
  }

  function DictEnds(env: Env, cfg: Config, items: seq<Value>): set<nat> {
    Ends(|items|, DictFirst(env, cfg, items), DictLast(env, cfg, items))
  }

  /** Records outside the end slices are kept by relevance only. */
  ghost predicate KeepsTheRelevant(env: Env, items: seq<Value>, ends: set<nat>, keep: set<nat>) {
    forall i, j: nat | i in keep && i !in ends && j !in keep && j < |items| :: ScoresAbove(env, items, i, j)
  }

  /** Unless the whole room `k` is used, `middle` kept records are at least as relevant as any left out. */
  ghost predicate MiddleIsFilled(env: Env, items: seq<Value>, k: nat, middle: nat, keep: set<nat>) {
    |keep| >= k
    || (|keep| >= middle && forall j: nat | j !in keep && j < |items| :: |AtLeast(env, items, keep, j)| >= middle)
  }

  function AtLeast(env: Env, items: seq<Value>, keep: set<nat>, j: nat): set<nat> {
    set i | i in keep && ScoresAbove(env, items, i, j)
  }

  /** An array within its optimal size is kept whole. A longer one keeps both end slices and, in between,
      the most relevant records. */
  ghost predicate DictsSampled(env: Env, cfg: Config, items: seq<Value>, idx: seq<nat>) {
    var k, ends := env.optimalK(TextsOf(env, items)), DictEnds(env, cfg, items);
    if |items| <= k then forall i: nat | i < |items| :: i in idx
    else
      && (forall i | i in ends :: i in idx)
      && KeepsTheRelevant(env, items, ends, Members(idx))
      && |idx| <= Max(k, DictFirst(env, cfg, items) + DictLast(env, cfg, items))
      && MiddleIsFilled(env, items, k, SatSub(k, DictFirst(env, cfg, items) + DictLast(env, cfg, items)), Members(idx))
  }

  /** The full array is queued for saving exactly when a record was dropped and markers are on. */
  method CrushDictArray(env: Env, cfg: Config, items: seq<Value>, marked: bool, saves0: seq<Saved>)
    returns (out: seq<Value>, ghost idx: seq<nat>, hash: Option<string>, saves: seq<Saved>)
    ensures Picks(idx, |items|) && out == Pick(items, idx)
    ensures DictsSampled(env, cfg, items, idx)
    ensures hash == if marked && |out| < |items| then Some(env.key(Canonical(env, items))) else None
    ensures saves == if hash.Some? then saves0 + [SavedText(env, Canonical(env, items))] else saves0
  {
    hide TextsOf, DictEnds, DictFirst, DictLast, KeepsTheRelevant, MiddleIsFilled, Members, Max, Picks, Pick, Ascending, AllPositions,
         Canonical, SavedText;
    var n, k := |items|, env.optimalK(TextsOf(env, items));
    if n <= k {
      PickAll(items);
      return items, AllPositions(n), None, saves0;
    }
    var keep := SampleDicts(env, cfg, items, k);
    out := PickAscending(items, keep);
    idx := Ascending(keep, n);
    KeptPositions(keep, n);
    MembersOfAscending(keep, n);
    hash, saves := None, saves0;
    if marked && |out| < n {
      var canonical := Canonical(env, items);
      hash := Some(env.key(canonical));
      saves := saves + [SavedText(env, canonical)];
    }
  }

  lemma DictEndsAre(env: Env, cfg: Config, items: seq<Value>)
    ensures forall i | i in DictEnds(env, cfg, items) :: i < |items|
    ensures |DictEnds(env, cfg, items)| <= DictFirst(env, cfg, items) + DictLast(env, cfg, items)
  {
    EndsSize(|items|, DictFirst(env, cfg, items), DictLast(env, cfg, items));
  }

  method SampleDicts(env: Env, cfg: Config, items: seq<Value>, k: nat) returns (keep: set<nat>)
    requires k == env.optimalK(TextsOf(env, items)) && k < |items|
    ensures DictEnds(env, cfg, items) <= keep && forall i | i in keep :: i < |items|
    ensures |keep| <= Max(k, DictFirst(env, cfg, items) + DictLast(env, cfg, items))
    ensures KeepsTheRelevant(env, items, DictEnds(env, cfg, items), keep)
    ensures MiddleIsFilled(env, items, k, SatSub(k, DictFirst(env, cfg, items) + DictLast(env, cfg, items)), keep)
  {
    hide *;
    var first, last := DictFirst(env, cfg, items), DictLast(env, cfg, items);
    var ends := DictEnds(env, cfg, items);
    DictEndsAre(env, cfg, items);
    SatSubAndMax(k, first + last);
    var scored := Scored(env, items);
    ghost var taken;
    keep, taken := TakeMiddle(|items|, ends, scored, SatSub(k, first + last), k);
    PrefixIsRelevant(env, items, scored, taken, ends, keep);
    PrefixFills(env, items, scored, taken, keep, k, SatSub(k, first + last));
  }

  lemma PrefixFills(env: Env, items: seq<Value>, scored: seq<nat>, taken: nat, keep: set<nat>, k: nat, middle: nat)
    requires k < |items| == |scored| && Distinct(scored) && taken <= |scored| && forall i | i in scored :: i < |items|
    requires forall i: nat | i < |items| :: i in scored
    requires forall a, b | 0 <= a < b < |scored| :: ScoresAbove(env, items, scored[a], scored[b])
    requires forall i | i in scored[..taken] :: i in keep
    requires |keep| >= k || taken == middle || taken == |scored|
    ensures MiddleIsFilled(env, items, k, middle, keep)
  {
    hide ScoresAbove;
    var best := scored[..taken];
    DistinctSize(best);
    SubsetSize(Elements(best), keep);
    if |keep| < k {
      forall j: nat | j !in keep && j < |items|
        ensures |AtLeast(env, items, keep, j)| >= middle
      {
        assert j in scored;
        var b: nat :| b < |scored| && scored[b] == j;
        assert b >= taken by {
          assert j !in best;
        }
        forall i | i in best
          ensures i in AtLeast(env, items, keep, j)
        {
          var a: nat :| a < taken && best[a] == i;
          assert ScoresAbove(env, items, scored[a], scored[b]);
        }
        SubsetSize(Elements(best), AtLeast(env, items, keep, j));
      }
    }
  }

  lemma SatSubAndMax(a: nat, b: nat)
    ensures (SatSub(a, b) > 0 <==> b < a) && a <= Max(a, b) && b <= Max(a, b)
  {
  }

  /** Adds the best-scored positions until `k` positions are kept or `middle` were looked at. */
  method TakeMiddle(n: nat, ends: set<nat>, scored: seq<nat>, middle: nat, k: nat) returns (keep: set<nat>, ghost taken: nat)
    requires (forall i | i in ends :: i < n) && (forall i | i in scored :: i < n)
    requires middle > 0 ==> |ends| < k
    ensures taken <= |scored| && ends <= keep && forall i | i in keep :: i < n
    ensures forall i :: i in keep <==> i in ends || i in scored[..taken]
    ensures |keep| <= |ends| || |keep| <= k
    ensures |keep| >= k || taken == middle || taken == |scored|
  {
    keep := ends;
    var t, full := 0, false;
    while t < |scored| && t < middle && !full
      invariant t <= |scored| && ends <= keep && forall i | i in keep :: i < n
      invariant forall i :: i in keep <==> i in ends || i in scored[..t]
      invariant (|keep| <= |ends| || |keep| <= k) && (middle > 0 && !full ==> |keep| < k)
      invariant t <= middle && (full ==> |keep| >= k)
      decreases |scored| - t, !full
    {
      assert scored[..t + 1] == scored[..t] + [scored[t]];
      assert scored[t] in scored;
      keep := keep + {scored[t]};
      t := t + 1;
      full := |keep| >= k;
    }
    taken := t;
  }

  lemma PrefixIsRelevant(env: Env, items: seq<Value>, scored: seq<nat>, taken: nat, ends: set<nat>, keep: set<nat>)
    requires taken <= |scored|
    requires forall i: nat | i < |items| :: i in scored
    requires forall a, b | 0 <= a < b < |scored| :: ScoresAbove(env, items, scored[a], scored[b])
    requires forall i | i in keep :: i < |items|
    requires forall i: nat | i < |items| :: i in keep <==> i in ends || i in scored[..taken]
    ensures KeepsTheRelevant(env, items, ends, keep)
  {
    hide ScoresAbove;
    forall i, j: nat | i in keep && i !in ends && j !in keep && j < |items|
      ensures ScoresAbove(env, items, i, j)
    {
      assert i in scored[..taken];
      var a: nat :| a < taken && scored[a] == i;
      assert j in scored;
      var b: nat :| b < |scored| && scored[b] == j;
      assert b >= taken by {
        assert j !in scored[..taken];
      }
    }
  }

  /** All positions, most relevant first. */
  function Scored(env: Env, items: seq<Value>): (scored: seq<nat>)
    ensures forall i | i in scored :: i < |items|
    ensures forall i: nat | i < |items| :: i in scored
    ensures |scored| == |items| && Distinct(scored)
    ensures forall a, b | 0 <= a < b < |scored| :: ScoresAbove(env, items, scored[a], scored[b])
  {
    var le := (i: int, j: int) => ScoresAbove(env, items, i, j);
    ScoredFacts(items, le);
    SortBy<int>(le, AllPositions(|items|))
  }

  lemma ScoredFacts(items: seq<Value>, le: (int, int) -> bool)
    ensures forall i | i in SortBy<int>(le, AllPositions(|items|)) :: 0 <= i < |items|
    ensures forall k | 0 <= k < |SortBy<int>(le, AllPositions(|items|))| :: 0 <= SortBy<int>(le, AllPositions(|items|))[k] < |items|
    ensures forall i | 0 <= i < |items| :: i in SortBy<int>(le, AllPositions(|items|))
    ensures var s := SortBy<int>(le, AllPositions(|items|)); |s| == |items| && Distinct(s)
    ensures TotalPreorder<int>(le) ==> Sorted<int>(le, SortBy<int>(le, AllPositions(|items|)))
  {
    PickAll(items);
    SortKeepsElements<int>(le, AllPositions(|items|));
    DistinctCounts<int>(AllPositions(|items|), SortBy<int>(le, AllPositions(|items|)));
    forall i: int
      ensures i in SortBy<int>(le, AllPositions(|items|)) <==> i in AllPositions(|items|)
    {
      InSorted<int>(le, AllPositions(|items|), i);
    }
    forall k | 0 <= k < |SortBy<int>(le, AllPositions(|items|))|
      ensures 0 <= SortBy<int>(le, AllPositions(|items|))[k] < |items|
    {
      assert SortBy<int>(le, AllPositions(|items|))[k] in SortBy<int>(le, AllPositions(|items|));
    }
    if TotalPreorder<int>(le) {
      SortSorts<int>(le, AllPositions(|items|));
    }
  }

  // ----- mixed arrays -----

  datatype Kind = KDict | KStr | KBool | KNumber | KList | KNull

  function KindOf(v: Value): Kind {
    match v
    case Object(_) => KDict
    case Str(_) => KStr
    case Bool(_) => KBool
    case Number(_) => KNumber
    case Array(_) => KList
    case Null => KNull
  }

  /** Positions of one kind, in order. */
  function Group(items: seq<Value>, kind: Kind): (positions: seq<nat>)
    ensures Picks(positions, |items|)
    ensures forall i: nat :: i in positions <==> i < |items| && KindOf(items[i]) == kind
  {
    var keep := set i | 0 <= i < |items| && KindOf(items[i]) == kind;
    KeptPositions(keep, |items|);
    Ascending(keep, |items|)
  }

  function Values(items: seq<Value>, kind: Kind): seq<Value> {
    Pick(items, Group(items, kind))
  }

  function StringsOf(values: seq<Value>): seq<string> {
    seq(|values|, i requires 0 <= i < |values| => if values[i].Str? then values[i].s else "")
  }

  function NumbersToKeep(env: Env, cfg: Config, values: seq<Value>): set<nat> {
    var k := ComputeSplit(env, cfg, TextsOf(env, values));
    Ends(|values|, k.first, k.last) + OutliersIn(env, values)
  }

  function NumberPositions(env: Env, cfg: Config, items: seq<Value>): set<nat> {
    set p | p in NumbersToKeep(env, cfg, Values(items, KNumber)) && p < |Group(items, KNumber)| :: Group(items, KNumber)[p]
  }

  /** Positions whose value has the text of a kept value. */
  function SameText(env: Env, items: seq<Value>, positions: seq<nat>, kept: seq<Value>): set<nat> {
    set i | i in positions && i < |items| && exists v | v in kept :: env.toText(v) == env.toText(items[i])
  }

  /** Positions whose string is among `kept`. */
  function WithString(items: seq<Value>, positions: seq<nat>, kept: seq<string>): set<nat> {
    set i | i in positions && i < |items| && items[i].Str? && items[i].s in kept
  }

  ghost predicate Agree(keep: set<nat>, exact: set<nat>, within: set<nat>) {
    forall i | i in within :: i in keep <==> i in exact
  }

  /** What is kept of one kind, exactly: groups that are small or not sampled are kept whole; records and
      strings are kept where their text is among those the sampling of the group keeps; numbers are kept at
      both ends and where they are outliers. */
  ghost predicate GroupSampled(env: Env, cfg: Config, items: seq<Value>, kind: Kind, keep: set<nat>) {
    var group, whole := Group(items, kind), Whole(items, kind);
    if |group| < cfg.minItems then whole <= keep
    else
      match kind
      case KDict => exists idx ::
        DictsChosen(env, cfg, Values(items, KDict), idx) && Agree(keep, SameText(env, items, group, Pick(Values(items, KDict), idx)), whole)
      case KStr => exists idx ::
        StringsChosen(env, cfg, StringsOf(Values(items, KStr)), idx)
        && Agree(keep, WithString(items, group, Pick(StringsOf(Values(items, KStr)), idx)), whole)
      case KNumber => Agree(keep, NumberPositions(env, cfg, items), whole)
      case _ => whole <= keep
  }

  ghost predicate DictsChosen(env: Env, cfg: Config, values: seq<Value>, idx: seq<nat>) {
    Picks(idx, |values|) && DictsSampled(env, cfg, values, idx)
  }

  ghost predicate StringsChosen(env: Env, cfg: Config, strings: seq<string>, idx: seq<nat>) {
    Picks(idx, |strings|) && StringsSampled(env, cfg, strings, idx)
  }

  /** Up to 8 elements are kept whole; longer arrays are sampled kind by kind. */
  ghost predicate MixedSampled(env: Env, cfg: Config, items: seq<Value>, idx: seq<nat>) {
    if |items| <= 8 then forall i: nat | i < |items| :: i in idx
    else forall kind :: GroupSampled(env, cfg, items, kind, Members(idx))
  }

  lemma GrowsItself(env: Env, marked: bool, saves: seq<Saved>)
    ensures Grows(env, marked, saves, saves)
  {
  }

  method CrushMixedArray(env: Env, cfg: Config, items: seq<Value>, marked: bool, saves0: seq<Saved>)
    returns (out: seq<Value>, ghost idx: seq<nat>, saves: seq<Saved>)
    ensures Picks(idx, |items|) && out == Pick(items, idx)
    ensures MixedSampled(env, cfg, items, idx)
    ensures Grows(env, marked, saves0, saves)
  {
    saves := saves0;
    if |items| <= 8 {
      PickAll(items);
      GrowsItself(env, marked, saves);
      return items, AllPositions(|items|), saves;
    }
    hide GroupSampled, Picks, Pick, Ascending, AllPositions, Grows, Members;
    var keep;
    keep, saves := KeepMixed(env, cfg, items, marked, saves);
    out := PickAscending(items, keep);
    idx := Ascending(keep, |items|);
    KeptPositions(keep, |items|);
    MembersOfAscending(keep, |items|);
  }

  method KeepMixed(env: Env, cfg: Config, items: seq<Value>, marked: bool, saves0: seq<Saved>)
    returns (keep: set<nat>, saves: seq<Saved>)
    ensures forall i | i in keep :: i < |items|
    ensures forall kind :: GroupSampled(env, cfg, items, kind, keep)
    ensures Grows(env, marked, saves0, saves)
  {
    hide *;
    var dicts, strings, numbers;
    dicts, saves := KeepDicts(env, cfg, items, marked, saves0);
    strings := KeepStrings(env, cfg, items);
    numbers := KeepNumbers(env, cfg, items);
    keep := dicts + strings + numbers + Whole(items, KBool) + Whole(items, KList) + Whole(items, KNull);
    forall kind
      ensures GroupSampled(env, cfg, items, kind, keep)
    {
      match kind
      case KDict => OnlyThisKind(env, cfg, items, KDict, dicts, keep);
      case KStr => OnlyThisKind(env, cfg, items, KStr, strings, keep);
      case KNumber => OnlyThisKind(env, cfg, items, KNumber, numbers, keep);
      case _ => WholeIsKept(env, cfg, items, kind, keep);
    }
  }

  /** What is kept of a kind is all that matters for it. */
  lemma OnlyThisKind(env: Env, cfg: Config, items: seq<Value>, kind: Kind, part: set<nat>, keep: set<nat>)
    requires GroupSampled(env, cfg, items, kind, part)
    requires forall i | i in Whole(items, kind) :: i in keep <==> i in part
    ensures GroupSampled(env, cfg, items, kind, keep)
  {
    hide Group, Whole, Values, StringsOf, SameText, WithString, Pick, DictsSampled, StringsSampled, NumberPositions;
    var group, whole := Group(items, kind), Whole(items, kind);
    if |group| >= cfg.minItems {
      match kind
      case KDict =>
        var idx :| DictsChosen(env, cfg, Values(items, KDict), idx)
                   && Agree(part, SameText(env, items, group, Pick(Values(items, KDict), idx)), whole);
        assert Agree(keep, SameText(env, items, group, Pick(Values(items, KDict), idx)), whole);
      case KStr =>
        var idx :| StringsChosen(env, cfg, StringsOf(Values(items, KStr)), idx)
                   && Agree(part, WithString(items, group, Pick(StringsOf(Values(items, KStr)), idx)), whole);
        assert Agree(keep, WithString(items, group, Pick(StringsOf(Values(items, KStr)), idx)), whole);
      case _ =>
    }
  }

  function Whole(items: seq<Value>, kind: Kind): (keep: set<nat>)
    ensures forall i: nat :: i in keep <==> i < |items| && KindOf(items[i]) == kind
  {
    set i | i in Group(items, kind)
  }

  /** A group that is small, or of a kind that is not sampled. */
  lemma WholeIsKept(env: Env, cfg: Config, items: seq<Value>, kind: Kind, keep: set<nat>)
    requires Whole(items, kind) <= keep
    requires |Group(items, kind)| < cfg.minItems || kind.KBool? || kind.KList? || kind.KNull?
    ensures GroupSampled(env, cfg, items, kind, keep)
  {
  }

  method KeepDicts(env: Env, cfg: Config, items: seq<Value>, marked: bool, saves0: seq<Saved>)
    returns (keep: set<nat>, saves: seq<Saved>)
    ensures keep <= Whole(items, KDict) && GroupSampled(env, cfg, items, KDict, keep)
    ensures Grows(env, marked, saves0, saves)
  {
    hide *;
    saves := saves0;
    var values := Values(items, KDict);
    if |Group(items, KDict)| < cfg.minItems {
      keep := Whole(items, KDict);
      WholeIsKept(env, cfg, items, KDict, keep);
      GrowsItself(env, marked, saves);
      return;
    }
    var crushed, hash;
    ghost var idx;
    crushed, idx, hash, saves := CrushDictArray(env, cfg, values, marked, saves);
    keep := SameText(env, items, Group(items, KDict), crushed);
    DictsKept(env, cfg, items, idx);
    DictSaves(env, marked, values, saves0, hash);
  }

  lemma DictSaves(env: Env, marked: bool, values: seq<Value>, saves0: seq<Saved>, hash: Option<string>)
    requires hash.Some? ==> marked
    ensures Grows(env, marked, saves0, if hash.Some? then saves0 + [SavedText(env, Canonical(env, values))] else saves0)
  {
  }

  lemma DictsKept(env: Env, cfg: Config, items: seq<Value>, idx: seq<nat>)
    requires |Group(items, KDict)| >= cfg.minItems
    requires Picks(idx, |Values(items, KDict)|) && DictsSampled(env, cfg, Values(items, KDict), idx)
    ensures var keep := SameText(env, items, Group(items, KDict), Pick(Values(items, KDict), idx));
            keep <= Whole(items, KDict) && GroupSampled(env, cfg, items, KDict, keep)
  {
    hide Group, Values, Pick, DictsSampled;
    var keep := SameText(env, items, Group(items, KDict), Pick(Values(items, KDict), idx));
    assert DictsChosen(env, cfg, Values(items, KDict), idx);
    assert Agree(keep, keep, Whole(items, KDict));
  }

  method KeepStrings(env: Env, cfg: Config, items: seq<Value>) returns (keep: set<nat>)
    ensures keep <= Whole(items, KStr) && GroupSampled(env, cfg, items, KStr, keep)
  {
    hide *;
    if |Group(items, KStr)| < cfg.minItems {
      keep := Whole(items, KStr);
      WholeIsKept(env, cfg, items, KStr, keep);
      return;
    }
    var strings := StringsOf(Values(items, KStr));
    var crushed, idx := CrushStringArray(env, cfg, strings);
    keep := WithString(items, Group(items, KStr), crushed);
    StringsKept(env, cfg, items, idx);
  }

  lemma StringsKept(env: Env, cfg: Config, items: seq<Value>, idx: seq<nat>)
    requires |Group(items, KStr)| >= cfg.minItems
    requires Picks(idx, |StringsOf(Values(items, KStr))|) && StringsSampled(env, cfg, StringsOf(Values(items, KStr)), idx)
    ensures var keep := WithString(items, Group(items, KStr), Pick(StringsOf(Values(items, KStr)), idx));
            keep <= Whole(items, KStr) && GroupSampled(env, cfg, items, KStr, keep)
  {
    hide Group, Values, StringsOf, Pick, StringsSampled;
    var keep := WithString(items, Group(items, KStr), Pick(StringsOf(Values(items, KStr)), idx));
    assert StringsChosen(env, cfg, StringsOf(Values(items, KStr)), idx);
    assert Agree(keep, keep, Whole(items, KStr));
  }

  method KeepNumbers(env: Env, cfg: Config, items: seq<Value>) returns (keep: set<nat>)
    ensures keep <= Whole(items, KNumber) && GroupSampled(env, cfg, items, KNumber, keep)
  {
    if |Group(items, KNumber)| < cfg.minItems {
      keep := Whole(items, KNumber);
      WholeIsKept(env, cfg, items, KNumber, keep);
      return;
    }
    hide Values, NumbersToKeep;
    keep := NumberPositions(env, cfg, items);
    assert Agree(keep, keep, Whole(items, KNumber));
  }
}
