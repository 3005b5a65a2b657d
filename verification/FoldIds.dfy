/** `uniquify_fold_ids` of session.rs: ledger ids stay pairwise distinct. */
module FoldIds {
  import opened Compact
  import Decimal

  function Candidate(base: string, suffix: nat): string {
    base + "#" + Decimal.ToText(suffix)
  }

  /** Different suffixes give different candidates, because decimal text can be read back. */
  lemma CandidatesDiffer(base: string, x: nat, y: nat)
    requires Candidate(base, x) == Candidate(base, y)
    ensures x == y
  {
    var p := base + "#";
    assert Candidate(base, x)[|p|..] == Decimal.ToText(x);
    assert Candidate(base, y)[|p|..] == Decimal.ToText(y);
    Decimal.ParseOfText(x);
    Decimal.ParseOfText(y);
  }

  /** Candidates from `suffix` on that are taken. Finite, so the search below must end. */
  ghost function Taken(used: set<string>, base: string, suffix: nat): set<string> {
    set id | id in used && exists k :: suffix <= k && id == Candidate(base, k)
  }

  lemma TakenShrinks(used: set<string>, base: string, suffix: nat)
    requires Candidate(base, suffix) in used
    ensures Taken(used, base, suffix + 1) < Taken(used, base, suffix)
  {
    var c := Candidate(base, suffix);
    assert c in Taken(used, base, suffix);
    if c in Taken(used, base, suffix + 1) {
      var k :| suffix + 1 <= k && c == Candidate(base, k);
      CandidatesDiffer(base, suffix, k);
      assert false;
    }
  }

  /** The smallest suffix from `suffix` on whose candidate is free. */
  function FreeSuffix(used: set<string>, base: string, suffix: nat): (k: nat)
    ensures k >= suffix && Candidate(base, k) !in used
    ensures forall j | suffix <= j < k :: Candidate(base, j) in used
    decreases Taken(used, base, suffix)
  {
    if Candidate(base, suffix) in used then
      TakenShrinks(used, base, suffix);
      FreeSuffix(used, base, suffix + 1)
    else suffix
  }

  function FreshId(used: set<string>, id: string): (r: string)
    ensures r !in used
    ensures id !in used ==> r == id
  {
    if id in used then Candidate(id, FreeSuffix(used, id, 2)) else id
  }

  function IdSet(folds: seq<FoldRecord>): set<string> {
    set f | f in folds :: f.id
  }

  function Uniquified(used: set<string>, folds: seq<FoldRecord>): (out: seq<FoldRecord>)
    ensures |out| == |folds|
    ensures forall k | 0 <= k < |folds| :: out[k] == folds[k].(id := out[k].id)
    decreases |folds|
  {
    if folds == [] then []
    else
      var id := FreshId(used, folds[0].id);
      [folds[0].(id := id)] + Uniquified(used + {id}, folds[1..])
  }

  ghost predicate DistinctIds(folds: seq<FoldRecord>) {
    forall i, j | 0 <= i < j < |folds| :: folds[i].id != folds[j].id
  }

  lemma {:induction false} UniquifiedAreNew(used: set<string>, folds: seq<FoldRecord>)
    ensures var out := Uniquified(used, folds);
            DistinctIds(out) && forall k | 0 <= k < |out| :: out[k].id !in used
    decreases |folds|
  {
    if folds != [] {
      var id := FreshId(used, folds[0].id);
      UniquifiedAreNew(used + {id}, folds[1..]);
    }
  }

  /** Appending the uniquified records of a compaction keeps the whole ledger's ids distinct. */
  lemma LedgerStaysDistinct(ledger: seq<FoldRecord>, folds: seq<FoldRecord>)
    requires DistinctIds(ledger)
    ensures DistinctIds(ledger + Uniquified(IdSet(ledger), folds))
  {
    var out := Uniquified(IdSet(ledger), folds);
    UniquifiedAreNew(IdSet(ledger), folds);
    forall i, j | 0 <= i < |ledger| && 0 <= j < |out|
      ensures ledger[i].id != out[j].id
    {
      assert ledger[i] in ledger;
      assert ledger[i].id in IdSet(ledger);
    }
  }

  method FindFreshId(used: set<string>, base: string) returns (id: string)
    ensures id == FreshId(used, base)
  {
    if base !in used {
      return base;
    }
    var suffix := 2;
    while Candidate(base, suffix) in used
      invariant suffix >= 2
      invariant FreeSuffix(used, base, suffix) == FreeSuffix(used, base, 2)
      decreases Taken(used, base, suffix)
    {
      TakenShrinks(used, base, suffix);
      suffix := suffix + 1;
    }
    id := Candidate(base, suffix);
  }

  method UniquifyFoldIds(existing: seq<FoldRecord>, folds: seq<FoldRecord>) returns (out: seq<FoldRecord>)
    ensures out == Uniquified(IdSet(existing), folds)
  {
    var used: set<string> := IdSet(existing);
    out := folds;
    assert folds[0..] == folds;
    for i := 0 to |folds|
      invariant |out| == |folds| && out[i..] == folds[i..]
      invariant Uniquified(IdSet(existing), folds) == out[..i] + Uniquified(used, folds[i..])
    {
      var id := FindFreshId(used, out[i].id);
      UniquifiedStep(used, folds, i);
      assert folds[i] == folds[i..][0] == out[i..][0];
      ghost var before := out;
      var fold := out[i].(id := id);
      used := used + {id};
      out := out[i := fold];
      UpdateSplit(before, i, fold);
      assert before[i + 1..] == before[i..][1..] == folds[i + 1..];
      Append(before[..i], fold, Uniquified(used, folds[i + 1..]));
    }
    assert out[..|folds|] == out;
  }

  lemma UniquifiedStep(used: set<string>, folds: seq<FoldRecord>, i: nat)
    requires i < |folds|
    ensures var id := FreshId(used, folds[i].id);
            Uniquified(used, folds[i..]) == [folds[i].(id := id)] + Uniquified(used + {id}, folds[i + 1..])
  {
    assert folds[i..][1..] == folds[i + 1..];
  }

  lemma UpdateSplit<T>(s: seq<T>, i: nat, x: T)
    requires i < |s|
    ensures s[i := x][..i + 1] == s[..i] + [x] && s[i := x][i + 1..] == s[i + 1..]
  {
  }

  lemma Append<T>(a: seq<T>, x: T, b: seq<T>)
    ensures a + ([x] + b) == (a + [x]) + b
  {
  }
}
