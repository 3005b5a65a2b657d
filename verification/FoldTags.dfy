/** Structured fold tags of fold_tags.rs: normalised lists and their merge. */
module FoldTagLists {
  import opened Sets
  import opened Sequences
  import opened Sorting

  const MAX_TAGS_PER_KIND := 64

  datatype FoldTags = FoldTags(toolNames: seq<string>, errorClasses: seq<string>, filePaths: seq<string>)

  datatype FoldTagKind = ToolNameTag | ErrorClassTag | FilePathTag

  function Values(tags: FoldTags, kind: FoldTagKind): seq<string> {
    match kind
    case ToolNameTag => tags.toolNames
    case ErrorClassTag => tags.errorClasses
    case FilePathTag => tags.filePaths
  }

  function LowerAscii(c: char): char {
    if 'A' <= c <= 'Z' then c + 32 as char else c
  }

  predicate SameIgnoringCase(a: string, b: string) {
    |a| == |b| && forall i | 0 <= i < |a| :: LowerAscii(a[i]) == LowerAscii(b[i])
  }

  predicate ContainsTag(tags: FoldTags, kind: FoldTagKind, value: string) {
    exists v | v in Values(tags, kind) :: SameIgnoringCase(v, value)
  }

  // ----- normalisation -----

  /** `Vec::dedup`: drop every element equal to the one before it. */
  function Dedup(s: seq<string>): seq<string> {
    if |s| < 2 then s
    else if s[0] == s[1] then Dedup(s[1..])
    else [s[0]] + Dedup(s[1..])
  }

  function SortedUniqueCapped(values: seq<string>): seq<string> {
    Truncate(Dedup(SortBy(StringLe, values)), MAX_TAGS_PER_KIND)
  }

  ghost predicate StrictlySorted(s: seq<string>) {
    Sorted(StringLe, s) && Distinct(s)
  }

  /** `s` lists, in order, the `k` smallest elements of `all`, or all of them when there are fewer. */
  ghost predicate IsSmallest(k: nat, all: set<string>, s: seq<string>) {
    && StrictlySorted(s)
    && |s| <= k
    && (forall x | x in s :: x in all)
    && (forall y | y in all && y !in s :: |s| == k && forall x | x in s :: StringLe(x, y))
  }

  lemma LargerThanFirst(s: seq<string>, j: nat)
    requires Sorted(StringLe, s) && 1 <= j < |s| && s[0] != s[1]
    ensures s[j] != s[0]
  {
    StringLeTotal(s[0], s[1]);
    if j > 1 {
      assert StringLe(s[1], s[j]);
    }
  }

  lemma {:induction false} DedupSorted(s: seq<string>)
    requires Sorted(StringLe, s)
    ensures StrictlySorted(Dedup(s))
    ensures Elements(Dedup(s)) == Elements(s)
    ensures |s| > 0 ==> |Dedup(s)| > 0 && Dedup(s)[0] == s[0]
  {
    if |s| >= 2 {
      var rest := Dedup(s[1..]);
      DedupSorted(s[1..]);
      assert Elements(s) == {s[0]} + Elements(s[1..]);
      if s[0] != s[1] {
        assert forall x :: x in rest <==> x in Elements(rest);
        forall x | x in rest
          ensures StringLe(s[0], x) && s[0] != x
        {
          var j :| 1 <= j < |s| && s[j] == x;
          LargerThanFirst(s, j);
        }
        assert Elements([s[0]] + rest) == {s[0]} + Elements(rest);
      }
    }
  }

  lemma TruncatedIsSmallest(all: set<string>, unique: seq<string>)
    requires StrictlySorted(unique) && Elements(unique) == all
    ensures IsSmallest(MAX_TAGS_PER_KIND, all, Truncate(unique, MAX_TAGS_PER_KIND))
  {
    forall x
      ensures x in unique <==> x in all
    {
      assert x in Elements(unique) <==> x in unique;
    }
  }

  lemma NormalisedIsSmallest(values: seq<string>)
    ensures IsSmallest(MAX_TAGS_PER_KIND, Elements(values), SortedUniqueCapped(values))
  {
    var sorted := SortBy(StringLe, values);
    StringOrder();
    SortSorts(StringLe, values);
    forall x
      ensures x in sorted <==> x in values
    {
      InSorted(StringLe, values, x);
    }
    DedupSorted(sorted);
    var unique := Dedup(sorted);
    hide *;
    TruncatedIsSmallest(Elements(values), unique);
  }

  lemma NormalisedNonempty(values: seq<string>)
    requires values != []
    ensures SortedUniqueCapped(values) != []
  {
    NormalisedIsSmallest(values);
    assert values[0] in Elements(values);
  }

  // ----- uniqueness -----

  lemma Pigeonhole(a: set<string>, b: set<string>)
    requires |a| < |b|
    ensures exists x :: x in b && x !in a
  {
    if b <= a {
      SubsetSize(b, a);
    }
  }

  lemma SmallestIncludes(k: nat, all: set<string>, s: seq<string>, s': seq<string>, y: string)
    requires IsSmallest(k, all, s) && IsSmallest(k, all, s') && y in s
    ensures y in s'
  {
    if y !in s' {
      DistinctSize(s);
      DistinctSize(s');
      Pigeonhole(Elements(s) - {y}, Elements(s'));
      var x :| x in Elements(s') && x !in Elements(s) - {y};
      assert StringLe(x, y);
      if x !in s {
        assert StringLe(y, x);
        StringLeTotal(x, y);
      }
      assert false;
    }
  }

  lemma BothEmpty(s: seq<string>, t: seq<string>)
    requires forall x :: x in s <==> x in t
    ensures s == [] <==> t == []
  {
    if s != [] {
      assert s[0] in t;
    }
    if t != [] {
      assert t[0] in s;
    }
  }

  lemma {:induction false} SortedSameElements(s: seq<string>, t: seq<string>)
    requires StrictlySorted(s) && StrictlySorted(t)
    requires forall x :: x in s <==> x in t
    ensures s == t
  {
    BothEmpty(s, t);
    if s != [] {
      assert s[0] in t && t[0] in s;
      StringLeTotal(s[0], t[0]);
      assert s[0] == t[0];
      forall x
        ensures x in s[1..] <==> x in t[1..]
      {
        assert x in s[1..] <==> x in s && x != s[0];
        assert x in t[1..] <==> x in t && x != t[0];
      }
      SortedSameElements(s[1..], t[1..]);
      assert s == [s[0]] + s[1..] && t == [t[0]] + t[1..];
    }
  }

  lemma SmallestIsUnique(k: nat, all: set<string>, s: seq<string>, t: seq<string>)
    requires IsSmallest(k, all, s) && IsSmallest(k, all, t)
    ensures s == t
  {
    forall x
      ensures x in s <==> x in t
    {
      if x in s {
        SmallestIncludes(k, all, s, t, x);
      }
      if x in t {
        SmallestIncludes(k, all, t, s, x);
      }
    }
    SortedSameElements(s, t);
  }

  // ----- merging -----

  lemma TruncationLosesNothing(a: seq<string>, b: set<string>, a': seq<string>, r: seq<string>, y: string)
    requires IsSmallest(MAX_TAGS_PER_KIND, Elements(a), a')
    requires IsSmallest(MAX_TAGS_PER_KIND, Elements(a') + b, r)
    requires y in a && y !in r
    ensures |r| == MAX_TAGS_PER_KIND && forall x | x in r :: StringLe(x, y)
  {
    assert y in Elements(a);
    if y in a' {
      assert y in Elements(a') + b;
    } else {
      DistinctSize(a');
      DistinctSize(r);
      assert |a'| == MAX_TAGS_PER_KIND;
      if |r| < MAX_TAGS_PER_KIND {
        Pigeonhole(Elements(r), Elements(a'));
        assert false;
      }
      forall x | x in r
        ensures StringLe(x, y)
      {
        if x in a' {
        } else {
          Pigeonhole(Elements(r) - {x}, Elements(a'));
          var z :| z in Elements(a') && z !in Elements(r) - {x};
          assert StringLe(x, z) && StringLe(z, y);
          StringLeTransitive(x, z, y);
        }
      }
    }
  }

  /** Normalising the parts first loses nothing: the 64 smallest of the union are found either way. */
  lemma MergeOfNormalised(a: seq<string>, b: seq<string>)
    ensures SortedUniqueCapped(SortedUniqueCapped(a) + SortedUniqueCapped(b)) == SortedUniqueCapped(a + b)
  {
    var a', b' := SortedUniqueCapped(a), SortedUniqueCapped(b);
    var r, all := SortedUniqueCapped(a' + b'), Elements(a + b);
    NormalisedIsSmallest(a);
    NormalisedIsSmallest(b);
    NormalisedIsSmallest(a' + b');
    NormalisedIsSmallest(a + b);
    assert Elements(a' + b') == Elements(a') + Elements(b') == Elements(b') + Elements(a');
    forall y | y in all && y !in r
      ensures |r| == MAX_TAGS_PER_KIND && forall x | x in r :: StringLe(x, y)
    {
      if y in a {
        TruncationLosesNothing(a, Elements(b'), a', r, y);
      } else {
        TruncationLosesNothing(b, Elements(a'), b', r, y);
      }
    }
    forall x | x in r
      ensures x in all
    {
      assert x in a' + b';
      assert x in Elements(a) || x in Elements(b);
    }
    SmallestIsUnique(MAX_TAGS_PER_KIND, all, r, SortedUniqueCapped(a + b));
  }

  lemma NormalisingTwice(a: seq<string>)
    ensures SortedUniqueCapped(SortedUniqueCapped(a)) == SortedUniqueCapped(a)
  {
    MergeOfNormalised(a, []);
    assert SortedUniqueCapped([]) == [];
    assert SortedUniqueCapped(a) + [] == SortedUniqueCapped(a) && a + [] == a;
  }

  function MergeInto(a: seq<string>, b: seq<string>): seq<string> {
    if b == [] then a else SortedUniqueCapped(a + b)
  }

  predicate IsEmpty(tags: FoldTags) {
    tags.toolNames == [] && tags.errorClasses == [] && tags.filePaths == []
  }

  function Merge(self: FoldTags, other: FoldTags): FoldTags {
    if IsEmpty(other) then self
    else FoldTags(MergeInto(self.toolNames, other.toolNames),
                  MergeInto(self.errorClasses, other.errorClasses),
                  MergeInto(self.filePaths, other.filePaths))
  }

  lemma MergeValues(self: FoldTags, other: FoldTags, kind: FoldTagKind)
    ensures Values(Merge(self, other), kind) == MergeInto(Values(self, kind), Values(other, kind))
  {
  }

  /** What the extractor returns: every kind normalised. */
  function NormalTags(raw: FoldTags): FoldTags {
    FoldTags(SortedUniqueCapped(raw.toolNames), SortedUniqueCapped(raw.errorClasses), SortedUniqueCapped(raw.filePaths))
  }

  lemma NormalValues(raw: FoldTags, kind: FoldTagKind)
    ensures Values(NormalTags(raw), kind) == SortedUniqueCapped(Values(raw, kind))
  {
  }

  // ----- tags of a document that is indexed again and again -----

  function Concat(lists: seq<seq<string>>): seq<string> {
    if lists == [] then [] else lists[0] + Concat(lists[1..])
  }

  /** Tags of one kind after indexing the same id with `raw[0]`, then `raw[1]`, and so on: the newest
      normalised tags absorb the stored ones. */
  function Observed(raw: seq<seq<string>>): seq<string> {
    if raw == [] then []
    else MergeInto(SortedUniqueCapped(raw[|raw| - 1]), Observed(raw[..|raw| - 1]))
  }

  lemma {:induction false} ObservedIsNormalisedUnion(raw: seq<seq<string>>)
    ensures exists u :: Elements(u) == Elements(Concat(raw)) && Observed(raw) == SortedUniqueCapped(u)
  {
    if raw == [] {
      assert Observed(raw) == SortedUniqueCapped([]);
    } else {
      var last, init := raw[|raw| - 1], raw[..|raw| - 1];
      ObservedIsNormalisedUnion(init);
      var u :| Elements(u) == Elements(Concat(init)) && Observed(init) == SortedUniqueCapped(u);
      ConcatSnoc(init, last);
      assert init + [last] == raw;
      MergeOfNormalised(last, u);
      NormalisingTwice(last);
      if u == [] {
        assert last + u == last;
      } else {
        NormalisedNonempty(u);
      }
      assert Elements(last + u) == Elements(last) + Elements(u);
      assert Elements(Concat(init) + last) == Elements(Concat(init)) + Elements(last);
    }
  }

  lemma {:induction false} ConcatSnoc(init: seq<seq<string>>, last: seq<string>)
    ensures Concat(init + [last]) == Concat(init) + last
  {
    if init == [] {
      assert init + [last] == [last];
      assert Concat([last]) == last + Concat([]);
    } else {
      assert (init + [last])[1..] == init[1..] + [last];
      ConcatSnoc(init[1..], last);
      assert init[0] + (Concat(init[1..]) + last) == (init[0] + Concat(init[1..])) + last;
    }
  }

  /** Whatever the order in which a document is indexed again, its tags are the 64 smallest of the union
      of all tags ever observed for it. */
  lemma ReindexedTagsAreTheSmallestOfTheUnion(raw: seq<seq<string>>)
    ensures IsSmallest(MAX_TAGS_PER_KIND, Elements(Concat(raw)), Observed(raw))
    ensures forall other | Elements(Concat(other)) == Elements(Concat(raw)) :: Observed(other) == Observed(raw)
  {
    ObservedIsSmallest(raw);
    forall other | Elements(Concat(other)) == Elements(Concat(raw))
      ensures Observed(other) == Observed(raw)
    {
      ObservedIsSmallest(other);
      SmallestIsUnique(MAX_TAGS_PER_KIND, Elements(Concat(raw)), Observed(other), Observed(raw));
    }
  }

  lemma ObservedIsSmallest(raw: seq<seq<string>>)
    ensures IsSmallest(MAX_TAGS_PER_KIND, Elements(Concat(raw)), Observed(raw))
  {
    ObservedIsNormalisedUnion(raw);
    var u :| Elements(u) == Elements(Concat(raw)) && Observed(raw) == SortedUniqueCapped(u);
    NormalisedIsSmallest(u);
  }
}
