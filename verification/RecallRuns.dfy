/** The recall index over any sequence of indexing and removal. */
module RecallRuns {
  import opened Sorting
  import opened FoldTagLists
  import opened Compact
  import opened Recall

  /** Index a text under an id with the tags observed in it, or forget ids. */
  datatype IndexOp = Put(id: string, kind: FoldKind, observed: FoldTags, text: string) | Drop(ids: set<string>)

  function Apply(lex: Lexicon, docs: seq<Doc>, op: IndexOp): seq<Doc> {
    match op
    case Put(id, kind, observed, text) => Indexed(lex, docs, id, kind, NormalTags(observed), text)
    case Drop(ids) => WithoutAll(docs, ids)
  }

  function Replay(lex: Lexicon, docs: seq<Doc>, ops: seq<IndexOp>): seq<Doc> {
    if ops == [] then docs else Apply(lex, Replay(lex, docs, ops[..|ops| - 1]), ops[|ops| - 1])
  }

  lemma {:induction false} ReplayConcat(lex: Lexicon, docs: seq<Doc>, a: seq<IndexOp>, b: seq<IndexOp>)
    ensures Replay(lex, docs, a + b) == Replay(lex, Replay(lex, docs, a), b)
  {
    hide Apply;
    if b == [] {
      assert a + b == a;
    } else {
      ReplayConcat(lex, docs, a, b[..|b| - 1]);
      assert (a + b)[..|a + b| - 1] == a + b[..|b| - 1];
    }
  }

  /** The tags of one kind observed for `id` since it was last forgotten. */
  function Given(ops: seq<IndexOp>, id: string, kind: FoldTagKind): seq<seq<string>> {
    if ops == [] then [] else NextGiven(Given(ops[..|ops| - 1], id, kind), ops[|ops| - 1], id, kind)
  }

  function NextGiven(given: seq<seq<string>>, op: IndexOp, id: string, kind: FoldTagKind): seq<seq<string>> {
    match op
    case Put(other, _, observed, _) => if other == id then given + [Values(observed, kind)] else given
    case Drop(ids) => if id in ids then [] else given
  }

  /** The document of an id carries what its observations merge to, whatever happened to other ids. */
  ghost predicate Carries(docs: seq<Doc>, id: string, kind: FoldTagKind, given: seq<seq<string>>) {
    && UniqueIds(docs)
    && (id in Ids(docs) <==> given != [])
    && forall d | d in docs && d.ccrId == id :: Values(d.tags, kind) == Observed(given)
  }

  lemma {:induction false} ReplayCarries(lex: Lexicon, ops: seq<IndexOp>, id: string, kind: FoldTagKind)
    ensures Carries(Replay(lex, [], ops), id, kind, Given(ops, id, kind))
  {
    if ops != [] {
      var init, op := ops[..|ops| - 1], ops[|ops| - 1];
      ReplayCarries(lex, init, id, kind);
      hide Carries, Apply, NextGiven;
      ApplyCarries(lex, Replay(lex, [], init), op, id, kind, Given(init, id, kind));
    }
  }

  lemma ApplyCarries(lex: Lexicon, docs: seq<Doc>, op: IndexOp, id: string, kind: FoldTagKind, given: seq<seq<string>>)
    requires Carries(docs, id, kind, given)
    ensures Carries(Apply(lex, docs, op), id, kind, NextGiven(given, op, id, kind))
  {
    match op
    case Put(other, k, observed, text) =>
      IndexedFacts(lex, docs, other, k, NormalTags(observed), text);
      if other == id {
        IndexedMerges(lex, docs, id, k, NormalTags(observed), text, kind, given);
        NormalValues(observed, kind);
        ObservedSnoc(given, Values(observed, kind));
      }
    case Drop(ids) =>
      WithoutAllMembers(docs, ids);
      WithoutAllUnique(docs, ids);
  }

  lemma ObservedSnoc(given: seq<seq<string>>, last: seq<string>)
    ensures Observed(given + [last]) == MergeInto(SortedUniqueCapped(last), Observed(given))
  {
    assert (given + [last])[..|given|] == given;
  }

  lemma IndexedMerges(lex: Lexicon, docs: seq<Doc>, id: string, k: FoldKind, tags: FoldTags, text: string, kind: FoldTagKind, given: seq<seq<string>>)
    requires Carries(docs, id, kind, given)
    ensures forall d | d in Indexed(lex, docs, id, k, tags, text) && d.ccrId == id ::
              Values(d.tags, kind) == MergeInto(Values(tags, kind), Observed(given))
  {
    hide Observed, MergeInto, Merge, Values;
    var i, docs' := FindDoc(docs, id), Indexed(lex, docs, id, k, tags, text);
    IndexedFacts(lex, docs, id, k, tags, text);
    forall d | d in docs' && d.ccrId == id
      ensures Values(d.tags, kind) == MergeInto(Values(tags, kind), Observed(given))
    {
      var j :| 0 <= j < |docs'| && docs'[j] == d;
      assert docs'[i].ccrId == id;
      assert i == j;
      if i < |docs| {
        assert docs[i] in docs;
        MergeValues(tags, docs[i].tags, kind);
      } else {
        NothingGiven(docs, id, kind, given);
        NothingObserved(Values(tags, kind));
      }
    }
  }

  lemma NothingGiven(docs: seq<Doc>, id: string, kind: FoldTagKind, given: seq<seq<string>>)
    requires Carries(docs, id, kind, given) && forall j | 0 <= j < |docs| :: docs[j].ccrId != id
    ensures given == []
  {
  }

  lemma NothingObserved(values: seq<string>)
    ensures MergeInto(values, Observed([])) == values
  {
  }

  /** After any sequence of operations, the document of an id carries, per kind, the 64 smallest of all
      tags observed for that id since it was last forgotten. */
  lemma DocumentTagsAreTheSmallest(lex: Lexicon, ops: seq<IndexOp>, d: Doc, kind: FoldTagKind)
    requires d in Replay(lex, [], ops)
    ensures var given := Given(ops, d.ccrId, kind);
            given != [] && IsSmallest(MAX_TAGS_PER_KIND, Elements(Concat(given)), Values(d.tags, kind))
  {
    hide IsSmallest, Observed;
    ReplayCarries(lex, ops, d.ccrId, kind);
    ReindexedTagsAreTheSmallestOfTheUnion(Given(ops, d.ccrId, kind));
    assert d.ccrId in Ids(Replay(lex, [], ops));
  }
}
