/** The BM25 index over folded content of recall.rs, with scores over the reals. */
module Recall {
  import opened Sequences
  import opened Sorting
  import opened FoldTagLists
  import opened Compact

  /** Text functions kept uninterpreted, and the natural logarithm. */
  datatype Lexicon = Lexicon(extractTerms: string -> seq<string>, preview: string -> string, ln: real -> real)

  /** What the proofs need to know about `ln`. */
  ghost predicate LnLaws(lex: Lexicon) {
    lex.ln(1.0) == 0.0 && forall x, y | 0.0 < x < y :: lex.ln(x) < lex.ln(y)
  }

  /** One indexed document; `terms` holds each term as often as it occurs. */
  datatype Doc = Doc(ccrId: string, kind: FoldKind, tags: FoldTags, preview: string, terms: multiset<string>)

  datatype RecallHit = RecallHit(ccrId: string, kind: FoldKind, tags: FoldTags, preview: string, score: real)

  function ToHit(d: Doc, score: real): RecallHit {
    RecallHit(d.ccrId, d.kind, d.tags, d.preview, score)
  }

  ghost predicate UniqueIds(docs: seq<Doc>) {
    forall i, j | 0 <= i < j < |docs| :: docs[i].ccrId != docs[j].ccrId
  }

  function Ids(docs: seq<Doc>): set<string> {
    set d | d in docs :: d.ccrId
  }

  // ----- scoring -----

  function TotalLength(docs: seq<Doc>): nat {
    if docs == [] then 0 else |docs[0].terms| + TotalLength(docs[1..])
  }

  function DocFrequency(docs: seq<Doc>, term: string): nat {
    if docs == [] then 0 else (if term in docs[0].terms then 1 else 0) + DocFrequency(docs[1..], term)
  }

  function Idf(lex: Lexicon, docs: seq<Doc>, term: string): real {
    var n, df := |docs| as real, DocFrequency(docs, term) as real;
    lex.ln((n - df + 0.5) / (df + 0.5) + 1.0)
  }

  lemma {:induction false} TermsCount(docs: seq<Doc>, d: Doc, term: string)
    requires d in docs && term in d.terms
    ensures TotalLength(docs) > 0 && DocFrequency(docs, term) > 0
  {
    if d == docs[0] {
      assert |d.terms| >= d.terms[term];
    } else {
      TermsCount(docs[1..], d, term);
    }
  }

  lemma {:induction false} FrequencyBound(docs: seq<Doc>, term: string)
    ensures DocFrequency(docs, term) <= |docs|
  {
    if docs != [] {
      FrequencyBound(docs[1..], term);
    }
  }

  /** `tf + K1 * (1 - B + B * len / avg_len)` with K1 = 1.5 and B = 0.75. */
  function Denominator(docs: seq<Doc>, d: Doc, term: string): (r: real)
    requires d in docs && term in d.terms
    ensures r > 0.0
  {
    TermsCount(docs, d, term);
    PositiveProduct(TotalLength(docs) as real, 1.0, |docs| as real);
    var avgLen := TotalLength(docs) as real / |docs| as real;
    assert |d.terms| >= d.terms[term];
    PositiveProduct(0.75 * (|d.terms| as real), 1.0, avgLen);
    d.terms[term] as real + 1.5 * (1.0 - 0.75 + 0.75 * (|d.terms| as real) / avgLen)
  }

  /** Contribution of one query term to the score of one document (BM25). */
  function TermScore(lex: Lexicon, docs: seq<Doc>, d: Doc, term: string): real
    requires d in docs
  {
    if term !in d.terms then 0.0
    else Idf(lex, docs, term) * (d.terms[term] as real * 2.5) / Denominator(docs, d, term)
  }

  function Score(lex: Lexicon, docs: seq<Doc>, d: Doc, query: seq<string>): real
    requires d in docs
  {
    if query == [] then 0.0 else TermScore(lex, docs, d, query[0]) + Score(lex, docs, d, query[1..])
  }

  lemma TermScoreSign(lex: Lexicon, docs: seq<Doc>, d: Doc, term: string)
    requires LnLaws(lex) && d in docs
    ensures TermScore(lex, docs, d, term) >= 0.0
    ensures TermScore(lex, docs, d, term) > 0.0 <==> term in d.terms
  {
    hide Idf, Denominator;
    if term in d.terms {
      IdfIsPositive(lex, docs, d, term);
      PositiveProduct(Idf(lex, docs, term), d.terms[term] as real * 2.5, Denominator(docs, d, term));
    }
  }

  lemma IdfIsPositive(lex: Lexicon, docs: seq<Doc>, d: Doc, term: string)
    requires LnLaws(lex) && d in docs && term in d.terms
    ensures Idf(lex, docs, term) > 0.0
  {
    TermsCount(docs, d, term);
    FrequencyBound(docs, term);
    var n, df := |docs| as real, DocFrequency(docs, term) as real;
    PositiveProduct(n - df + 0.5, 1.0, df + 0.5);
    assert lex.ln(1.0) < lex.ln((n - df + 0.5) / (df + 0.5) + 1.0);
  }

  lemma PositiveProduct(a: real, b: real, c: real)
    requires a > 0.0 && b > 0.0 && c > 0.0
    ensures a * b / c > 0.0
    ensures a / c > 0.0
  {
    assert a * b > 0.0;
  }

  predicate SharesTerm(d: Doc, query: seq<string>) {
    exists i :: 0 <= i < |query| && query[i] in d.terms
  }

  /** A document scores above zero exactly when it shares a term with the query: the inverse document
      frequency never goes negative, however common the term. */
  lemma {:induction false} PositiveScoreIffSharedTerm(lex: Lexicon, docs: seq<Doc>, d: Doc, query: seq<string>)
    requires LnLaws(lex) && d in docs
    ensures Score(lex, docs, d, query) >= 0.0
    ensures Score(lex, docs, d, query) > 0.0 <==> SharesTerm(d, query)
  {
    if query != [] {
      TermScoreSign(lex, docs, d, query[0]);
      PositiveScoreIffSharedTerm(lex, docs, d, query[1..]);
      if i :| 0 <= i < |query| && query[i] in d.terms && i > 0 {
        assert query[1..][i - 1] in d.terms;
      }
    }
  }

  // ----- ranking -----

  /** Better score first, then smaller id. */
  predicate HitLe(a: RecallHit, b: RecallHit) {
    a.score > b.score || (a.score == b.score && StringLe(a.ccrId, b.ccrId))
  }

  lemma HitOrder()
    ensures TotalPreorder(HitLe)
  {
    StringOrder();
    forall a, b, c | HitLe(a, b) && HitLe(b, c)
      ensures HitLe(a, c)
    {
      if a.score == b.score == c.score {
        StringLeTransitive(a.ccrId, b.ccrId, c.ccrId);
      }
    }
    forall a, b
      ensures HitLe(a, b) || HitLe(b, a)
    {
      StringLeTotal(a.ccrId, b.ccrId);
    }
  }

  function QueryTerms(lex: Lexicon, query: string): seq<string> {
    Dedup(SortBy(StringLe, lex.extractTerms(query)))
  }

  /** The hits of the first `n` documents, in index order. */
  function HitsUpTo(lex: Lexicon, docs: seq<Doc>, query: seq<string>, n: nat): seq<RecallHit>
    requires n <= |docs|
  {
    if n == 0 then []
    else
      var before := HitsUpTo(lex, docs, query, n - 1);
      var score := Score(lex, docs, docs[n - 1], query);
      if score > 0.0 then before + [ToHit(docs[n - 1], score)] else before
  }

  lemma {:induction false} HitsAreTheSharers(lex: Lexicon, docs: seq<Doc>, query: seq<string>, n: nat, h: RecallHit)
    requires LnLaws(lex) && n <= |docs|
    ensures h in HitsUpTo(lex, docs, query, n) <==>
            exists i :: 0 <= i < n && SharesTerm(docs[i], query) && h == ToHit(docs[i], Score(lex, docs, docs[i], query))
  {
    if n > 0 {
      HitsAreTheSharers(lex, docs, query, n - 1, h);
      PositiveScoreIffSharedTerm(lex, docs, docs[n - 1], query);
    }
  }

  lemma QueryTermsAreTheTerms(lex: Lexicon, query: string, d: Doc)
    ensures SharesTerm(d, QueryTerms(lex, query)) <==> SharesTerm(d, lex.extractTerms(query))
  {
    var raw := lex.extractTerms(query);
    var sorted := SortBy(StringLe, raw);
    StringOrder();
    SortSorts(StringLe, raw);
    DedupSorted(sorted);
    var unique := Dedup(sorted);
    assert forall x :: x in unique <==> x in Elements(unique);
    assert forall x :: x in sorted <==> x in Elements(sorted);
    if i :| 0 <= i < |unique| && unique[i] in d.terms {
      InSorted(StringLe, raw, unique[i]);
    }
    if i :| 0 <= i < |raw| && raw[i] in d.terms {
      InSorted(StringLe, raw, raw[i]);
    }
  }

  /** A search result: the first `limit` entries, under (score descending, id ascending), of exactly the
      documents that share a term with the query, each of them once. */
  ghost predicate IsSearchResult(lex: Lexicon, docs: seq<Doc>, query: string, limit: nat, hits: seq<RecallHit>) {
    exists all: seq<RecallHit> ::
      && Sorted(HitLe, all) && Distinct(all)
      && (forall h :: h in all <==>
            exists d | d in docs :: SharesTerm(d, lex.extractTerms(query))
                                    && h == ToHit(d, Score(lex, docs, d, QueryTerms(lex, query))))
      && hits == Truncate(all, limit)
  }

  class RecallIndex {
    var docs: seq<Doc>

    ghost predicate Valid()
      reads this
    {
      UniqueIds(docs)
    }

    constructor ()
      ensures Valid() && docs == []
    {
      docs := [];
    }

    /** Index `text` under `ccrId`; indexing an id again replaces its document and merges its tags. */
    method Index(lex: Lexicon, ccrId: string, kind: FoldKind, tags: FoldTags, text: string)
      requires Valid()
      modifies this
      ensures Valid()
      ensures docs == Indexed(lex, old(docs), ccrId, kind, tags, text)
    {
      var doc := Doc(ccrId, kind, tags, lex.preview(text), multiset(lex.extractTerms(text)));
      var i := 0;
      while i < |docs| && docs[i].ccrId != ccrId
        invariant i <= |docs|
        invariant forall j | 0 <= j < i :: docs[j].ccrId != ccrId
      {
        i := i + 1;
      }
      FindDocIs(docs, ccrId, i);
      if i < |docs| {
        doc := doc.(tags := Merge(doc.tags, docs[i].tags));
        docs := docs[i := doc];
      } else {
        docs := docs + [doc];
      }
    }

    /** Forget `ccrId`; tells whether it was there. */
    method Remove(ccrId: string) returns (removed: bool)
      requires Valid()
      modifies this
      ensures Valid()
      ensures docs == Without(old(docs), ccrId)
      ensures removed <==> ccrId in Ids(old(docs))
    {
      var before := |docs|;
      WithoutFacts(docs, ccrId);
      docs := Without(docs, ccrId);
      removed := |docs| != before;
    }

    /** The documents carrying the tag, as hits of score zero; equal scores leave the order to the ids. */
    method FindByTag(kind: FoldTagKind, value: string) returns (hits: seq<RecallHit>)
      requires Valid()
      ensures hits == SortBy(HitLe, TagHits(docs, kind, value, |docs|))
    {
      hits := [];
      for i := 0 to |docs|
        invariant hits == TagHits(docs, kind, value, i)
      {
        if ContainsTag(docs[i].tags, kind, value) {
          hits := hits + [ToHit(docs[i], 0.0)];
        }
      }
      hits := SortBy(HitLe, hits);
    }

    method Search(lex: Lexicon, query: string, limit: nat) returns (hits: seq<RecallHit>)
      requires Valid() && LnLaws(lex)
      ensures IsSearchResult(lex, docs, query, limit, hits)
      ensures |hits| <= limit
    {
      hide Score, QueryTerms, IsSearchResult, SortBy, SharesTerm;
      var terms := QueryTerms(lex, query);
      if docs == [] || limit == 0 {
        hits := [];
        RankedHits(lex, docs, query, limit);
        NothingToRank(lex, docs, terms);
        assert Truncate(SortBy(HitLe, HitsUpTo(lex, docs, terms, |docs|)), limit) == [];
        return;
      }
      hits := [];
      for i := 0 to |docs|
        invariant hits == HitsUpTo(lex, docs, terms, i)
      {
        var score := Score(lex, docs, docs[i], terms);
        if score > 0.0 {
          hits := hits + [ToHit(docs[i], score)];
        }
      }
      RankedHits(lex, docs, query, limit);
      hits := Truncate(SortBy(HitLe, hits), limit);
    }
  }

  function TagHits(docs: seq<Doc>, kind: FoldTagKind, value: string, n: nat): seq<RecallHit>
    requires n <= |docs|
  {
    if n == 0 then []
    else if ContainsTag(docs[n - 1].tags, kind, value) then TagHits(docs, kind, value, n - 1) + [ToHit(docs[n - 1], 0.0)]
    else TagHits(docs, kind, value, n - 1)
  }

  lemma {:induction false} TagHitsAreTheCarriers(docs: seq<Doc>, kind: FoldTagKind, value: string, n: nat, h: RecallHit)
    requires n <= |docs|
    ensures h in TagHits(docs, kind, value, n)
       <==> exists i :: 0 <= i < n && ContainsTag(docs[i].tags, kind, value) && h == ToHit(docs[i], 0.0)
  {
    if n > 0 {
      TagHitsAreTheCarriers(docs, kind, value, n - 1, h);
    }
  }

  lemma {:induction false} TagHitsAreDistinct(docs: seq<Doc>, kind: FoldTagKind, value: string, n: nat)
    requires UniqueIds(docs) && n <= |docs|
    ensures Distinct(TagHits(docs, kind, value, n))
  {
    if n > 0 {
      TagHitsAreDistinct(docs, kind, value, n - 1);
      TagHitsAreTheCarriers(docs, kind, value, n - 1, ToHit(docs[n - 1], 0.0));
    }
  }

  /** A tag lookup finds exactly the documents carrying the tag, each once, ordered by id. */
  lemma TaggedHitsAreExact(docs: seq<Doc>, kind: FoldTagKind, value: string)
    requires UniqueIds(docs)
    ensures var hits := SortBy(HitLe, TagHits(docs, kind, value, |docs|));
            && Sorted(HitLe, hits) && Distinct(hits)
            && (forall h :: h in hits <==> exists i :: 0 <= i < |docs| && ContainsTag(docs[i].tags, kind, value) && h == ToHit(docs[i], 0.0))
  {
    var found := TagHits(docs, kind, value, |docs|);
    HitOrder();
    SortSorts(HitLe, found);
    SortKeepsElements(HitLe, found);
    TagHitsAreDistinct(docs, kind, value, |docs|);
    DistinctCounts(found, SortBy(HitLe, found));
    hide ContainsTag, SortBy, Sorted, TagHits;
    forall h
      ensures h in SortBy(HitLe, found)
         <==> exists i :: 0 <= i < |docs| && ContainsTag(docs[i].tags, kind, value) && h == ToHit(docs[i], 0.0)
    {
      InSorted(HitLe, found, h);
      TagHitsAreTheCarriers(docs, kind, value, |docs|, h);
    }
  }

  lemma {:induction false} HitsAreDistinct(lex: Lexicon, docs: seq<Doc>, query: seq<string>, n: nat)
    requires LnLaws(lex) && UniqueIds(docs) && n <= |docs|
    ensures Distinct(HitsUpTo(lex, docs, query, n))
  {
    hide Score, SharesTerm, LnLaws;
    if n > 0 {
      HitsAreDistinct(lex, docs, query, n - 1);
      HitsAreTheSharers(lex, docs, query, n - 1, ToHit(docs[n - 1], Score(lex, docs, docs[n - 1], query)));
    }
  }

  lemma NothingToRank(lex: Lexicon, docs: seq<Doc>, terms: seq<string>)
    ensures docs == [] ==> SortBy(HitLe, HitsUpTo(lex, docs, terms, |docs|)) == []
  {
  }

  lemma RankedHits(lex: Lexicon, docs: seq<Doc>, query: string, limit: nat)
    requires LnLaws(lex) && UniqueIds(docs)
    ensures var all := SortBy(HitLe, HitsUpTo(lex, docs, QueryTerms(lex, query), |docs|));
            IsSearchResult(lex, docs, query, limit, Truncate(all, limit))
  {
    hide Score, TermScore, QueryTerms, HitsUpTo, SortBy, SharesTerm, HitLe, Sorted, UniqueIds, Distinct;
    var terms := QueryTerms(lex, query);
    var hits := HitsUpTo(lex, docs, terms, |docs|);
    var all := SortBy(HitLe, hits);
    HitOrder();
    SortSorts(HitLe, hits);
    SortKeepsElements(HitLe, hits);
    HitsAreDistinct(lex, docs, terms, |docs|);
    DistinctCounts(hits, all);
    forall h
      ensures h in all <==> exists d | d in docs :: SharesTerm(d, lex.extractTerms(query)) && h == ToHit(d, Score(lex, docs, d, terms))
    {
      InSorted(HitLe, hits, h);
      HitsAreTheSharers(lex, docs, terms, |docs|, h);
      if i :| 0 <= i < |docs| && SharesTerm(docs[i], terms) && h == ToHit(docs[i], Score(lex, docs, docs[i], terms)) {
        QueryTermsAreTheTerms(lex, query, docs[i]);
        assert docs[i] in docs;
      }
      if d :| d in docs && SharesTerm(d, lex.extractTerms(query)) && h == ToHit(d, Score(lex, docs, d, terms)) {
        QueryTermsAreTheTerms(lex, query, d);
        var i :| 0 <= i < |docs| && docs[i] == d;
      }
    }
  }

  // ----- the index as a keyed collection -----

  function FindDoc(docs: seq<Doc>, id: string): (i: nat)
    ensures i <= |docs|
    ensures i < |docs| ==> docs[i].ccrId == id
    ensures forall j | 0 <= j < i :: docs[j].ccrId != id
  {
    if docs == [] || docs[0].ccrId == id then 0 else 1 + FindDoc(docs[1..], id)
  }

  lemma FindDocIs(docs: seq<Doc>, id: string, i: nat)
    requires i <= |docs| && (i < |docs| ==> docs[i].ccrId == id)
    requires forall j | 0 <= j < i :: docs[j].ccrId != id
    ensures FindDoc(docs, id) == i
  {
  }

  function Indexed(lex: Lexicon, docs: seq<Doc>, id: string, kind: FoldKind, tags: FoldTags, text: string): seq<Doc> {
    var doc := Doc(id, kind, tags, lex.preview(text), multiset(lex.extractTerms(text)));
    var i := FindDoc(docs, id);
    if i < |docs| then docs[i := doc.(tags := Merge(tags, docs[i].tags))] else docs + [doc]
  }

  function Without(docs: seq<Doc>, id: string): seq<Doc> {
    if docs == [] then []
    else if docs[0].ccrId == id then Without(docs[1..], id)
    else [docs[0]] + Without(docs[1..], id)
  }

  /** Indexing keeps ids unique, adds exactly one id and leaves every other document as it was. */
  lemma IndexedFacts(lex: Lexicon, docs: seq<Doc>, id: string, kind: FoldKind, tags: FoldTags, text: string)
    requires UniqueIds(docs)
    ensures var docs' := Indexed(lex, docs, id, kind, tags, text);
            && UniqueIds(docs')
            && Ids(docs') == Ids(docs) + {id}
            && (forall d: Doc | d.ccrId != id :: d in docs' <==> d in docs)
  {
    var docs', i := Indexed(lex, docs, id, kind, tags, text), FindDoc(docs, id);
    forall d: Doc | d.ccrId != id
      ensures d in docs' <==> d in docs
    {
      if d in docs {
        var j :| 0 <= j < |docs| && docs[j] == d;
        assert docs'[j] == d;
      }
      if d in docs' {
        var j :| 0 <= j < |docs'| && docs'[j] == d;
        assert j < |docs| && docs[j] == d;
      }
    }
    assert docs'[i].ccrId == id;
    forall x
      ensures x in Ids(docs') <==> x in Ids(docs) + {id}
    {
      if x in Ids(docs') && x != id {
        var d :| d in docs' && d.ccrId == x;
        assert d in docs;
      }
      if x in Ids(docs) && x != id {
        var d :| d in docs && d.ccrId == x;
        assert d in docs';
      }
      if x == id {
        assert docs'[i] in docs';
      }
    }
  }

  lemma {:induction false} WithoutMembers(docs: seq<Doc>, id: string)
    ensures forall d :: d in Without(docs, id) <==> d in docs && d.ccrId != id
    ensures |Without(docs, id)| <= |docs|
    ensures |Without(docs, id)| == |docs| <==> forall d | d in docs :: d.ccrId != id
  {
    if docs != [] {
      WithoutMembers(docs[1..], id);
      assert docs == [docs[0]] + docs[1..];
    }
  }

  lemma {:induction false} WithoutUnique(docs: seq<Doc>, id: string)
    requires UniqueIds(docs)
    ensures UniqueIds(Without(docs, id))
  {
    if docs != [] {
      var rest := docs[1..];
      WithoutUnique(rest, id);
      WithoutMembers(rest, id);
      assert docs == [docs[0]] + rest;
      UniqueCons(docs[0], rest, Without(rest, id));
    }
  }

  /** Removing keeps ids unique, removes exactly one id and leaves every other document as it was. */
  lemma WithoutFacts(docs: seq<Doc>, id: string)
    ensures var docs' := Without(docs, id);
            && (UniqueIds(docs) ==> UniqueIds(docs'))
            && Ids(docs') == Ids(docs) - {id}
            && (forall d: Doc | d.ccrId != id :: d in docs' <==> d in docs)
            && |docs'| <= |docs| && (|docs'| != |docs| <==> id in Ids(docs))
  {
    hide Without, UniqueIds;
    WithoutMembers(docs, id);
    if UniqueIds(docs) {
      WithoutUnique(docs, id);
    }
  }

  lemma UniqueCons(d: Doc, rest: seq<Doc>, sub: seq<Doc>)
    requires UniqueIds([d] + rest) && UniqueIds(sub) && Ids(sub) <= Ids(rest)
    ensures UniqueIds([d] + sub)
  {
    forall j | 0 <= j < |sub|
      ensures sub[j].ccrId != d.ccrId
    {
      assert sub[j].ccrId in Ids(rest);
      var r :| r in rest && r.ccrId == sub[j].ccrId;
      var k :| 0 <= k < |rest| && rest[k] == r;
      assert ([d] + rest)[k + 1] == r && ([d] + rest)[0] == d;
    }
  }

  // ----- removing several ids -----

  function WithoutAll(docs: seq<Doc>, ids: set<string>): seq<Doc> {
    if docs == [] then []
    else if docs[0].ccrId in ids then WithoutAll(docs[1..], ids)
    else [docs[0]] + WithoutAll(docs[1..], ids)
  }

  lemma {:induction false} WithoutNone(docs: seq<Doc>)
    ensures WithoutAll(docs, {}) == docs
  {
    if docs != [] {
      WithoutNone(docs[1..]);
    }
  }

  lemma {:induction false} WithoutOneMore(docs: seq<Doc>, ids: set<string>, id: string)
    ensures Without(WithoutAll(docs, ids), id) == WithoutAll(docs, ids + {id})
  {
    if docs != [] {
      WithoutOneMore(docs[1..], ids, id);
      if docs[0].ccrId !in ids {
        assert ([docs[0]] + WithoutAll(docs[1..], ids))[1..] == WithoutAll(docs[1..], ids);
      }
    }
  }

  lemma {:induction false} WithoutAllMembers(docs: seq<Doc>, ids: set<string>)
    ensures forall d :: d in WithoutAll(docs, ids) <==> d in docs && d.ccrId !in ids
  {
    if docs != [] {
      WithoutAllMembers(docs[1..], ids);
      assert docs == [docs[0]] + docs[1..];
    }
  }

  lemma {:induction false} WithoutAllUnique(docs: seq<Doc>, ids: set<string>)
    requires UniqueIds(docs)
    ensures UniqueIds(WithoutAll(docs, ids))
  {
    if docs != [] {
      WithoutAllUnique(docs[1..], ids);
      WithoutAllMembers(docs[1..], ids);
      assert docs == [docs[0]] + docs[1..];
      UniqueCons(docs[0], docs[1..], WithoutAll(docs[1..], ids));
    }
  }
}
