/** What a score rewards, and which texts a query finds. */
module RecallScores {
  import opened Options
  import opened Sorting
  import opened FoldTagLists
  import opened Compact
  import opened Recall
  import opened RecallRuns

  // ----- what a score rewards -----

  lemma FractionsCompare(a: real, b: real, c: real, d: real)
    requires b > 0.0 && d > 0.0 && a * d < c * b
    ensures a / b < c / d
  {
    var x, y := a / b, c / d;
    assert a == x * b && c == y * d;
    if x >= y {
      LargerFactor(y, x, b * d);
    }
  }

  lemma LargerFactor(x: real, y: real, f: real)
    requires x <= y && f > 0.0
    ensures x * f <= y * f
  {
  }

  lemma StrictlyLargerFactor(x: real, y: real, f: real)
    requires x < y && f > 0.0
    ensures x * f < y * f
  {
  }

  /** The rarer of two terms weighs more. */
  lemma RarerWeighsMore(lex: Lexicon, docs: seq<Doc>, rare: string, common: string)
    requires LnLaws(lex) && DocFrequency(docs, rare) < DocFrequency(docs, common)
    ensures Idf(lex, docs, rare) > Idf(lex, docs, common)
  {
    FrequencyBound(docs, common);
    OddsCompare(lex, |docs| as real, DocFrequency(docs, rare) as real, DocFrequency(docs, common) as real);
  }

  lemma OddsCompare(lex: Lexicon, n: real, a: real, b: real)
    requires LnLaws(lex) && 0.0 <= a < b <= n
    ensures lex.ln((n - b + 0.5) / (b + 0.5) + 1.0) < lex.ln((n - a + 0.5) / (a + 0.5) + 1.0)
  {
    hide LnLaws;
    CrossProducts(n, a, b);
    FractionsCompare(n - b + 0.5, b + 0.5, n - a + 0.5, a + 0.5);
    PositiveProduct(n - b + 0.5, 1.0, b + 0.5);
    LnGrows(lex, (n - b + 0.5) / (b + 0.5) + 1.0, (n - a + 0.5) / (a + 0.5) + 1.0);
  }

  lemma LnGrows(lex: Lexicon, x: real, y: real)
    requires LnLaws(lex) && 0.0 < x < y
    ensures lex.ln(x) < lex.ln(y)
  {
  }

  lemma CrossProducts(n: real, a: real, b: real)
    requires 0.0 <= a < b <= n
    ensures (n - b + 0.5) * (a + 0.5) < (n - a + 0.5) * (b + 0.5)
  {
    var u, v := a + 0.5, b + 0.5;
    StrictlyLargerFactor(u, v, n + 1.0);
    assert (n + 1.0 - v) * u == (n + 1.0) * u - v * u;
    assert (n + 1.0 - u) * v == (n + 1.0) * v - u * v;
  }

  /** What the denominator adds to the term's count: more for longer documents. */
  function LengthPart(docs: seq<Doc>, d: Doc): real
    requires TotalLength(docs) > 0 && docs != []
  {
    1.5 * (0.25 + 0.75 * (|d.terms| as real) / (TotalLength(docs) as real / |docs| as real))
  }

  lemma LengthParts(docs: seq<Doc>, d: Doc, e: Doc)
    requires TotalLength(docs) > 0 && docs != [] && |d.terms| <= |e.terms|
    ensures 0.0 < LengthPart(docs, d) <= LengthPart(docs, e)
    ensures |d.terms| < |e.terms| ==> LengthPart(docs, d) < LengthPart(docs, e)
  {
    PositiveProduct(TotalLength(docs) as real, 1.0, |docs| as real);
    var avg, x, y := TotalLength(docs) as real / |docs| as real, 0.75 * (|d.terms| as real), 0.75 * (|e.terms| as real);
    StrictlyLargerFactor(0.0, avg, 1.0);
    if x < y {
      StrictlyLargerFactor(x, y, avg);
      FractionsCompare(x, avg, y, avg);
    }
    QuotientSign(x, avg);
  }

  lemma QuotientSign(x: real, y: real)
    requires x >= 0.0 && y > 0.0
    ensures x / y >= 0.0
  {
  }

  lemma DenominatorIs(docs: seq<Doc>, d: Doc, term: string)
    requires d in docs && term in d.terms
    ensures TotalLength(docs) > 0 && Denominator(docs, d, term) == d.terms[term] as real + LengthPart(docs, d)
  {
    TermsCount(docs, d, term);
  }

  lemma TermScoreIs(lex: Lexicon, docs: seq<Doc>, d: Doc, term: string)
    requires d in docs && term in d.terms
    ensures TermScore(lex, docs, d, term) == Idf(lex, docs, term) * (d.terms[term] as real * 2.5) / Denominator(docs, d, term)
  {
    hide Idf, Denominator;
  }

  /** `x` in place of `y` is at least as good in every respect, and better in one. */
  lemma SaturationCompares(i: real, i': real, tf: real, tf': real, len: real, len': real)
    requires i >= i' > 0.0 && tf >= tf' > 0.0 && 0.0 < len <= len'
    requires i > i' || tf > tf' || len < len'
    ensures i * (tf * 2.5) / (tf + len) > i' * (tf' * 2.5) / (tf' + len')
  {
    var p, p' := tf * (tf' + len'), tf' * (tf + len);
    CrossCompare(tf, tf', len, len');
    StrictlyLargerFactor(0.0, tf', tf + len);
    ProductsCompare(i, i', p, p');
    Rearranged(i', tf', tf + len);
    Rearranged(i, tf, tf' + len');
    FractionsCompare(i' * (tf' * 2.5), tf' + len', i * (tf * 2.5), tf + len);
  }

  lemma CrossCompare(tf: real, tf': real, len: real, len': real)
    requires tf >= tf' > 0.0 && 0.0 < len <= len'
    ensures tf' * (tf + len) <= tf * (tf' + len')
    ensures tf > tf' || len < len' ==> tf' * (tf + len) < tf * (tf' + len')
  {
    MiddleProduct(tf, tf', len, len');
    Distributes(tf, tf', len, len');
  }

  lemma MiddleProduct(tf: real, tf': real, len: real, len': real)
    requires tf >= tf' > 0.0 && 0.0 < len <= len'
    ensures tf' * len <= tf * len'
    ensures tf > tf' || len < len' ==> tf' * len < tf * len'
  {
    var x, y := tf - tf', len' - len;
    assert tf * len' == tf' * len + tf' * y + x * len + x * y;
    Sign(tf', y);
    Sign(x, len);
    Sign(x, y);
  }

  lemma Sign(a: real, b: real)
    requires a >= 0.0 && b >= 0.0
    ensures a * b >= 0.0
    ensures a > 0.0 && b > 0.0 ==> a * b > 0.0
  {
  }

  lemma Distributes(tf: real, tf': real, len: real, len': real)
    ensures tf * (tf' + len') == tf * tf' + tf * len'
    ensures tf' * (tf + len) == tf * tf' + tf' * len
  {
  }

  lemma Rearranged(i: real, tf: real, d: real)
    ensures (i * (tf * 2.5)) * d == 2.5 * (i * (tf * d))
  {
    assert i * (tf * 2.5) == 2.5 * (i * tf);
    assert (i * tf) * d == i * (tf * d);
  }

  lemma ProductsCompare(i: real, i': real, p: real, p': real)
    requires i >= i' > 0.0 && p >= p' > 0.0 && (i > i' || p > p')
    ensures i * p > i' * p'
  {
    if p > p' {
      StrictlyLargerFactor(p', p, i');
      LargerFactor(i', i, p);
    } else {
      StrictlyLargerFactor(i', i, p);
    }
  }

  /** A term scores higher in one document than another term in another document when it is at least as
      rare, occurs at least as often in a document at most as long, and one of these strictly. */
  lemma ScoreRewards(lex: Lexicon, docs: seq<Doc>, d: Doc, term: string, d': Doc, term': string)
    requires LnLaws(lex) && d in docs && d' in docs && term in d.terms && term' in d'.terms
    requires DocFrequency(docs, term) <= DocFrequency(docs, term') && d.terms[term] >= d'.terms[term'] && |d.terms| <= |d'.terms|
    requires DocFrequency(docs, term) < DocFrequency(docs, term') || d.terms[term] > d'.terms[term'] || |d.terms| < |d'.terms|
    ensures TermScore(lex, docs, d, term) > TermScore(lex, docs, d', term')
  {
    hide *;
    TermScoreIs(lex, docs, d, term);
    TermScoreIs(lex, docs, d', term');
    DenominatorIs(docs, d, term);
    DenominatorIs(docs, d', term');
    LengthParts(docs, d, d');
    IdfCompares(lex, docs, d', term, term');
    Compared(TermScore(lex, docs, d, term), TermScore(lex, docs, d', term'),
             Idf(lex, docs, term), Idf(lex, docs, term'), d.terms[term] as real, d'.terms[term'] as real,
             LengthPart(docs, d), LengthPart(docs, d'));
  }

  lemma Compared(score: real, score': real, i: real, i': real, tf: real, tf': real, len: real, len': real)
    requires i >= i' > 0.0 && tf >= tf' > 0.0 && 0.0 < len <= len'
    requires i > i' || tf > tf' || len < len'
    requires score == i * (tf * 2.5) / (tf + len) && score' == i' * (tf' * 2.5) / (tf' + len')
    ensures score > score'
  {
    SaturationCompares(i, i', tf, tf', len, len');
  }

  lemma IdfCompares(lex: Lexicon, docs: seq<Doc>, d': Doc, term: string, term': string)
    requires LnLaws(lex) && d' in docs && term' in d'.terms && DocFrequency(docs, term) <= DocFrequency(docs, term')
    ensures Idf(lex, docs, term) >= Idf(lex, docs, term') > 0.0
    ensures DocFrequency(docs, term) < DocFrequency(docs, term') ==> Idf(lex, docs, term) > Idf(lex, docs, term')
  {
    hide *;
    IdfIsPositive(lex, docs, d', term');
    if DocFrequency(docs, term) < DocFrequency(docs, term') {
      RarerWeighsMore(lex, docs, term, term');
    } else {
      SameFrequency(lex, docs, term, term');
    }
  }

  lemma SameFrequency(lex: Lexicon, docs: seq<Doc>, a: string, b: string)
    requires DocFrequency(docs, a) == DocFrequency(docs, b)
    ensures Idf(lex, docs, a) == Idf(lex, docs, b)
  {
  }

  // ----- which texts a query finds -----

  /** The text an id was last indexed with, if it was not forgotten since. */
  function LatestText(ops: seq<IndexOp>, id: string): Option<string> {
    if ops == [] then None
    else
      match ops[|ops| - 1]
      case Put(other, _, _, text) => if other == id then Some(text) else LatestText(ops[..|ops| - 1], id)
      case Drop(ids) => if id in ids then None else LatestText(ops[..|ops| - 1], id)
  }

  ghost predicate HoldsText(lex: Lexicon, docs: seq<Doc>, id: string, latest: Option<string>) {
    && UniqueIds(docs)
    && (id in Ids(docs) <==> latest.Some?)
    && forall d | d in docs && d.ccrId == id && latest.Some? ::
         d.terms == multiset(lex.extractTerms(latest.value)) && d.preview == lex.preview(latest.value)
  }

  /** After any sequence of operations the document of an id holds the terms of its latest text. */
  lemma {:induction false} DocumentsHoldTheLatestText(lex: Lexicon, ops: seq<IndexOp>, id: string)
    ensures HoldsText(lex, Replay(lex, [], ops), id, LatestText(ops, id))
  {
    if ops != [] {
      var init, op := ops[..|ops| - 1], ops[|ops| - 1];
      DocumentsHoldTheLatestText(lex, init, id);
      var docs := Replay(lex, [], init);
      match op
      case Put(other, k, observed, text) =>
        IndexedFacts(lex, docs, other, k, NormalTags(observed), text);
        if other == id {
          IndexedHolds(lex, docs, id, k, NormalTags(observed), text);
        }
      case Drop(ids) =>
        WithoutAllMembers(docs, ids);
        WithoutAllUnique(docs, ids);
    }
  }

  lemma IndexedHolds(lex: Lexicon, docs: seq<Doc>, id: string, k: FoldKind, tags: FoldTags, text: string)
    requires UniqueIds(docs)
    ensures HoldsText(lex, Indexed(lex, docs, id, k, tags, text), id, Some(text))
  {
    hide Merge;
    var i, docs' := FindDoc(docs, id), Indexed(lex, docs, id, k, tags, text);
    IndexedFacts(lex, docs, id, k, tags, text);
    assert docs'[i].ccrId == id;
    forall d | d in docs' && d.ccrId == id
      ensures d == docs'[i]
    {
      var j :| 0 <= j < |docs'| && docs'[j] == d;
      assert i == j;
    }
  }

  /** A search that is not cut short by its limit finds an id exactly when the text it was last indexed
      with shares a term with the query. */
  lemma FoundIff(lex: Lexicon, ops: seq<IndexOp>, query: string, limit: nat, hits: seq<RecallHit>, id: string)
    requires LnLaws(lex) && IsSearchResult(lex, Replay(lex, [], ops), query, limit, hits) && |hits| < limit
    ensures (exists h :: h in hits && h.ccrId == id)
       <==> LatestText(ops, id).Some?
            && exists t :: t in lex.extractTerms(LatestText(ops, id).value) && t in lex.extractTerms(query)
  {
    hide Replay, Score, QueryTerms, Sorted, Distinct, LnLaws, LatestText, HitLe;
    var docs, latest, terms := Replay(lex, [], ops), LatestText(ops, id), lex.extractTerms(query);
    DocumentsHoldTheLatestText(lex, ops, id);
    if h :| h in hits && h.ccrId == id {
      var d :| d in docs && SharesTerm(d, terms) && h == ToHit(d, Score(lex, docs, d, QueryTerms(lex, query)));
      var i :| 0 <= i < |terms| && terms[i] in d.terms;
      assert terms[i] in lex.extractTerms(latest.value);
    }
    if latest.Some? {
      if t :| t in lex.extractTerms(latest.value) && t in terms {
        var d :| d in docs && d.ccrId == id;
        var i :| 0 <= i < |terms| && terms[i] == t;
        assert terms[i] in d.terms;
        assert ToHit(d, Score(lex, docs, d, QueryTerms(lex, query))) in hits;
      }
    }
  }
}
