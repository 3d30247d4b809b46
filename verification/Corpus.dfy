/** A corpus of documents, and BM25 search over it by a full scan: no index, no incremental state.
    This is what the inverted index has to agree with. */
module Corpus {
  import opened Text
  import opened Order

  /** The words of every document that has any. */
  type Docs = map<string, Doc>

  /** The words of one document, with multiplicity. */
  datatype Doc = Doc(words: multiset<string>)

  ghost predicate NoEmpty(docs: Docs) {
    forall k | k in docs :: docs[k].words != multiset{}
  }

  /** The document `k` now has words `ws`; a document without words is not indexed. */
  ghost function Put(docs: Docs, k: string, ws: multiset<string>): Docs {
    if ws == multiset{} then docs - {k} else docs[k := Doc(ws)]
  }

  ghost function Terms(docs: Docs): set<string> {
    set k, t | k in docs && t in docs[k].words :: t
  }

  ghost function Holding(docs: Docs, t: string): set<string> {
    set k | k in docs && t in docs[k].words
  }

  ghost function Pick<T>(s: set<T>): T
    requires s != {}
  {
    var x :| x in s; x
  }

  /** The number of words in the documents `ks`. */
  ghost function WordCount(docs: Docs, ks: set<string>): nat
    requires ks <= docs.Keys
  {
    if ks == {} then 0 else |docs[Pick(ks)].words| + WordCount(docs, ks - {Pick(ks)})
  }

  lemma {:induction false} WordCountWithout(docs: Docs, ks: set<string>, k: string)
    requires ks <= docs.Keys && k in ks
    ensures WordCount(docs, ks) == |docs[k].words| + WordCount(docs, ks - {k})
    decreases |ks|
  {
    var x := Pick(ks);
    if x != k {
      WordCountWithout(docs, ks - {x}, k);
      WordCountWithout(docs, ks - {k}, x);
      assert ks - {x} - {k} == ks - {k} - {x};
    }
  }

  lemma {:induction false} WordCountSame(docs: Docs, docs': Docs, ks: set<string>)
    requires ks <= docs.Keys && ks <= docs'.Keys
    requires forall k | k in ks :: docs[k] == docs'[k]
    ensures WordCount(docs, ks) == WordCount(docs', ks)
    decreases |ks|
  {
    if ks != {} {
      WordCountSame(docs, docs', ks - {Pick(ks)});
    }
  }

  /** Every document has at least one word. */
  lemma {:induction false} WordCountAtLeast(docs: Docs, ks: set<string>)
    requires NoEmpty(docs) && ks <= docs.Keys
    ensures WordCount(docs, ks) >= |ks|
    decreases |ks|
  {
    if ks != {} {
      var k := Pick(ks);
      WordCountAtLeast(docs, ks - {k});
      assert |docs[k].words| >= 1;
    }
  }

  lemma HoldingIsSmaller(docs: Docs, t: string)
    ensures |Holding(docs, t)| <= |docs|
  {
    SubsetSize(Holding(docs, t), docs.Keys);
  }

  lemma {:induction false} SubsetSize<T>(a: set<T>, b: set<T>)
    requires a <= b
    ensures |a| <= |b|
    decreases |a|
  {
    if a != {} {
      var x := Pick(a);
      SubsetSize(a - {x}, b - {x});
    }
  }

  // ---------------------------------------------------------------- BM25

  const K1 := 1.2
  const B := 0.75

  ghost function AverageLength(docs: Docs): real
    requires docs != map[]
  {
    WordCount(docs, docs.Keys) as real / |docs| as real
  }

  function Idf(p: Platform, n: real, df: real): real
    requires df >= 0.0
  {
    p.log((n - df + 0.5) / (df + 0.5) + 1.0)
  }

  /** The saturating term-frequency factor; `ratio` is document length over average length. */
  function Saturation(tf: real, ratio: real): real
    requires tf > 0.0 && ratio >= 0.0
  {
    tf * (K1 + 1.0) / (tf + K1 * (1.0 - B + B * ratio))
  }

  /** What the term `t` contributes to the document `k`. */
  ghost function Weight(p: Platform, docs: Docs, t: string, k: string): real
    requires NoEmpty(docs) && k in docs
  {
    if t !in docs[k].words then 0.0 else
      assert docs != map[];
      WordCountAtLeast(docs, docs.Keys);
      Idf(p, |docs| as real, |Holding(docs, t)| as real)
        * Saturation(docs[k].words[t] as real, |docs[k].words| as real / AverageLength(docs))
  }

  /** The BM25 score of document `k` for a set of query terms. */
  ghost function Relevance(p: Platform, docs: Docs, terms: set<string>, k: string): real
    requires NoEmpty(docs) && k in docs
  {
    if terms == {} then 0.0
    else Weight(p, docs, Pick(terms), k) + Relevance(p, docs, terms - {Pick(terms)}, k)
  }

  /** The order in which terms are summed does not matter. */
  lemma {:induction false} RelevanceWithout(p: Platform, docs: Docs, terms: set<string>, k: string, t: string)
    requires NoEmpty(docs) && k in docs && t in terms
    ensures Relevance(p, docs, terms, k) == Weight(p, docs, t, k) + Relevance(p, docs, terms - {t}, k)
    decreases |terms|
  {
    var x := Pick(terms);
    if x != t {
      RelevanceWithout(p, docs, terms - {x}, k, t);
      RelevanceWithout(p, docs, terms - {t}, k, x);
      assert terms - {x} - {t} == terms - {t} - {x};
    }
  }

  lemma {:induction false} NoSharedTermNoRelevance(p: Platform, docs: Docs, terms: set<string>, k: string)
    requires NoEmpty(docs) && k in docs
    requires forall t | t in terms :: t !in docs[k].words
    ensures Relevance(p, docs, terms, k) == 0.0
    decreases |terms|
  {
    if terms != {} {
      NoSharedTermNoRelevance(p, docs, terms - {Pick(terms)}, k);
    }
  }

  // ---------------------------------------------------------------- ranking

  /** The documents sharing a word with the query. */
  ghost function Matching(docs: Docs, terms: set<string>): set<string> {
    set k | k in docs && exists t | t in terms :: t in docs[k].words
  }

  /** `s` lists exactly the matching documents, best score first, equal scores by key. */
  ghost predicate IsRanking(p: Platform, docs: Docs, terms: set<string>, s: seq<string>)
    requires NoEmpty(docs)
  {
    && Elements(s) == Matching(docs, terms)
    && (forall i | 0 <= i < |s| :: s[i] in docs)
    && (forall i, j | 0 <= i < j < |s| ::
          var a, b := Relevance(p, docs, terms, s[i]), Relevance(p, docs, terms, s[j]);
          a > b || (a == b && StrLess(s[i], s[j])))
  }

  /** The order of the ranking, totally defined. */
  ghost predicate Ahead(p: Platform, docs: Docs, terms: set<string>, x: string, y: string)
    requires NoEmpty(docs)
  {
    var a := if x in docs then Relevance(p, docs, terms, x) else 0.0;
    var b := if y in docs then Relevance(p, docs, terms, y) else 0.0;
    a > b || (a == b && StrLess(x, y))
  }

  /** A query has one ranking: it cannot depend on the order in which anything was visited. */
  lemma RankingUnique(p: Platform, docs: Docs, terms: set<string>, s: seq<string>, t: seq<string>)
    requires NoEmpty(docs)
    requires IsRanking(p, docs, terms, s) && IsRanking(p, docs, terms, t)
    ensures s == t
  {
    StrLessStrict();
    var less := (x, y) => Ahead(p, docs, terms, x, y);
    assert Ascending(less, s) by {
      forall i, j | 0 <= i < j < |s| ensures less(s[i], s[j]) {}
    }
    assert Ascending(less, t) by {
      forall i, j | 0 <= i < j < |t| ensures less(t[i], t[j]) {}
    }
    AscendingUnique(less, s, t);
  }

  /** The better document stands first in a ranking, and of two equally good ones the one with the smaller key. */
  lemma RankingOrders(p: Platform, docs: Docs, terms: set<string>, s: seq<string>, i: nat, j: nat)
    requires NoEmpty(docs) && IsRanking(p, docs, terms, s) && i < |s| && j < |s| && s[i] in docs && s[j] in docs
    requires var a, b := Relevance(p, docs, terms, s[i]), Relevance(p, docs, terms, s[j]);
      a > b || (a == b && StrLess(s[i], s[j]))
    ensures i < j
  {
    StrLessStrict();
    hide Relevance, StrLess;
  }

  /** A ranking lists exactly the documents that have a word of the query. */
  lemma RankingFinds(p: Platform, docs: Docs, terms: set<string>, s: seq<string>, k: string)
    requires NoEmpty(docs) && IsRanking(p, docs, terms, s)
    ensures k in s <==> k in docs && exists t :: t in terms && t in docs[k].words
  {
    assert k in s <==> k in Elements(s);
    hide Relevance, StrLess;
  }

  /** The first `limit` of a listing; a limit that is not positive keeps all. */
  function Cut<T>(s: seq<T>, limit: int): seq<T> {
    if 0 < limit < |s| then s[..limit] else s
  }

  /** Cutting keeps the front, and as much of it as the limit allows. */
  lemma CutIs<T>(s: seq<T>, limit: int)
    ensures Cut(s, limit) <= s
    ensures |Cut(s, limit)| == |s| || |Cut(s, limit)| == limit
    ensures limit <= 0 || limit >= |s| ==> Cut(s, limit) == s
    ensures 0 < limit <= |s| ==> |Cut(s, limit)| == limit
  {
  }
}

/** The arithmetic of BM25 (internal/memory/index.go:82-93, 182-191, 229-234). */
module Bm25 {
  import opened Text
  import opened Corpus

  lemma SumOfFractions(a: real, b: real, d: real)
    requires d > 0.0
    ensures a / d + b / d == (a + b) / d
    ensures d / d == 1.0
  {
  }

  lemma Cancel(x: real, d: real)
    requires d > 0.0
    ensures x * d / d == x
  {
  }

  /** The argument of the logarithm, in one fraction. */
  lemma IdfArgument(n: real, df: real)
    requires df > 0.0
    ensures (n - df + 0.5) / (df + 0.5) + 1.0 == (n + 1.0) / (df + 0.5)
  {
    SumOfFractions(n - df + 0.5, df + 0.5, df + 0.5);
  }

  lemma FractionFalls(a: real, b: real, c: real)
    requires a > 0.0 && 0.0 < b < c
    ensures a / c < a / b
  {
    assert a / b - a / c == (a * c - a * b) / (b * c);
    assert a * c - a * b == a * (c - b);
    assert a * (c - b) > 0.0 && b * c > 0.0;
  }

  /** A term some document holds has a strictly positive IDF, however common it is. */
  lemma IdfPositive(p: Platform, n: real, df: real)
    requires p.Lawful() && 0.0 < df <= n
    ensures Idf(p, n, df) > 0.0
  {
    IdfArgument(n, df);
    assert (n + 1.0) / (df + 0.5) > 1.0;
  }

  /** The rarer the term, the larger its IDF. */
  lemma IdfFalls(p: Platform, n: real, df: real, df': real)
    requires p.Lawful() && 0.0 < df < df' <= n
    ensures Idf(p, n, df') < Idf(p, n, df)
  {
    IdfArgument(n, df);
    IdfArgument(n, df');
    FractionFalls(n + 1.0, df + 0.5, df' + 0.5);
    assert (n + 1.0) / (df' + 0.5) > 0.0;
  }

  /** The denominator of `Saturation` less the term frequency. */
  function LengthNorm(ratio: real): real {
    K1 * (1.0 - B + B * ratio)
  }

  /** The IDF is the logarithm of the number of documents over the number of those that hold the term, smoothed. */
  lemma IdfIs(p: Platform, n: real, df: real)
    requires df > 0.0
    ensures Idf(p, n, df) == p.log((n + 1.0) / (df + 0.5))
  {
    IdfArgument(n, df);
  }

  /** The equation that fixes the saturation. */
  lemma SaturationIs(tf: real, ratio: real)
    requires tf > 0.0 && ratio >= 0.0
    ensures Saturation(tf, ratio) * (tf + 0.3 + 0.9 * ratio) == 2.2 * tf
  {
    var d := tf + 0.3 + 0.9 * ratio;
    assert K1 * (1.0 - B + B * ratio) == 0.3 + 0.9 * ratio && tf * (K1 + 1.0) == 2.2 * tf;
    assert tf + K1 * (1.0 - B + B * ratio) == d;
    TimesQuotient(2.2 * tf, d);
  }

  /** The equation that fixes what a term contributes to a document: `n` documents, `df` of them holding the term,
      this one `tf` times, and `ratio` times as long as the average. */
  lemma WeightIs(p: Platform, docs: Docs, t: string, k: string)
    requires p.Lawful() && NoEmpty(docs) && k in docs && t in docs[k].words
    ensures AverageLength(docs) >= 1.0
    ensures var n, df, tf := |docs| as real, |Holding(docs, t)| as real, docs[k].words[t] as real;
      var ratio := |docs[k].words| as real / AverageLength(docs);
      df > 0.0 && Weight(p, docs, t, k) * (tf + 0.3 + 0.9 * ratio) == 2.2 * tf * p.log((n + 1.0) / (df + 0.5))
  {
    AverageAtLeastOne(docs);
    WeightBounds(p, docs, t, k);
    var n, df, tf := |docs| as real, |Holding(docs, t)| as real, docs[k].words[t] as real;
    var ratio := |docs[k].words| as real / AverageLength(docs);
    IdfIs(p, n, df);
    SaturationIs(tf, ratio);
    Product(Idf(p, n, df), Saturation(tf, ratio), tf + 0.3 + 0.9 * ratio, 2.2 * tf);
  }

  lemma Product(idf: real, s: real, d: real, x: real)
    requires s * d == x
    ensures idf * s * d == x * idf
  {
  }

  /** Saturation is positive and never reaches 2.2. */
  lemma SaturationBounds(tf: real, ratio: real)
    requires tf > 0.0 && ratio >= 0.0
    ensures 0.0 < Saturation(tf, ratio) < 2.2
  {
    var d := tf + LengthNorm(ratio);
    assert d > tf;
    assert Saturation(tf, ratio) == tf * 2.2 / d;
    assert tf * 2.2 < 2.2 * d;
    assert tf * 2.2 / d < 2.2 * d / d == 2.2;
  }

  /** More occurrences weigh more. */
  lemma SaturationRises(tf: real, tf': real, ratio: real)
    requires 0.0 < tf < tf' && ratio >= 0.0
    ensures Saturation(tf, ratio) < Saturation(tf', ratio)
  {
    var c := LengthNorm(ratio);
    SaturationComplement(tf, c);
    SaturationComplement(tf', c);
    FractionFalls(2.2 * c, tf + c, tf' + c);
  }

  lemma SaturationComplement(tf: real, c: real)
    requires tf > 0.0 && c > 0.0
    ensures tf * 2.2 / (tf + c) == 2.2 - 2.2 * c / (tf + c)
  {
    SumOfFractions(tf * 2.2, 2.2 * c, tf + c);
    Cancel(2.2, tf + c);
    assert tf * 2.2 + 2.2 * c == 2.2 * (tf + c);
  }

  /** The same occurrences weigh less in a longer document. */
  lemma SaturationFallsWithLength(tf: real, ratio: real, ratio': real)
    requires tf > 0.0 && 0.0 <= ratio < ratio'
    ensures Saturation(tf, ratio') < Saturation(tf, ratio)
  {
    FractionFalls(tf * 2.2, tf + LengthNorm(ratio), tf + LengthNorm(ratio'));
  }

  /** In a corpus of non-empty documents the average length is at least one. */
  lemma AverageAtLeastOne(docs: Docs)
    requires NoEmpty(docs) && docs != map[]
    ensures AverageLength(docs) >= 1.0
  {
    WordCountAtLeast(docs, docs.Keys);
    var n, w := |docs| as real, WordCount(docs, docs.Keys) as real;
    RatioAtLeastOne(w, n);
  }

  lemma RatioAtLeastOne(w: real, n: real)
    requires w >= n > 0.0
    ensures w / n >= 1.0
  {
    assert w == (w / n) * n;
    LessThanWhole(w / n, n);
  }

  lemma {:induction false} EqualLengthsCount(docs: Docs, ks: set<string>, n: nat)
    requires ks <= docs.Keys && forall k | k in ks :: |docs[k].words| == n
    ensures WordCount(docs, ks) == n * |ks|
    decreases |ks|
  {
    if ks != {} {
      EqualLengthsCount(docs, ks - {Pick(ks)}, n);
      assert n * |ks| == n * (|ks| - 1) + n;
    }
  }

  /** Average times number is total. */
  lemma AverageIs(docs: Docs)
    requires docs != map[]
    ensures |docs| as real * AverageLength(docs) == WordCount(docs, docs.Keys) as real
  {
    hide WordCount;
    TimesQuotient(WordCount(docs, docs.Keys) as real, |docs| as real);
  }

  /** Documents of one length have that average length. */
  lemma AverageOfEqual(docs: Docs, n: nat)
    requires docs != map[] && forall k | k in docs :: |docs[k].words| == n
    ensures AverageLength(docs) == n as real
  {
    hide WordCount, AverageLength;
    EqualLengthsCount(docs, docs.Keys, n);
    AverageIs(docs);
    RealProduct(n, |docs|);
    SameFactor(|docs| as real, AverageLength(docs), n as real);
  }

  lemma RealProduct(a: nat, b: nat)
    ensures (a * b) as real == b as real * a as real
  {
  }

  lemma SameFactor(d: real, x: real, y: real)
    requires d > 0.0 && d * x == d * y
    ensures x == y
  {
    Cancel(x, d);
    Cancel(y, d);
  }

  /** One more document moves the average by what it is longer or shorter. */
  lemma AverageMoves(docs: Docs, k: string, ws: multiset<string>)
    requires docs != map[] && k !in docs && ws != multiset{}
    ensures (|docs| + 1) as real * AverageLength(Put(docs, k, ws))
         == |docs| as real * AverageLength(docs) + |ws| as real
  {
    hide WordCount, AverageLength;
    var more := Put(docs, k, ws);
    assert more.Keys == docs.Keys + {k} && more[k].words == ws;
    assert |more| == |docs| + 1 && more.Keys - {k} == docs.Keys;
    WordCountWithout(more, more.Keys, k);
    WordCountSame(more, docs, docs.Keys);
    hide Put;
    AverageIs(docs);
    AverageIs(more);
  }

  lemma TimesQuotient(x: real, d: real)
    requires d > 0.0
    ensures d * (x / d) == x
  {
  }

  lemma LessThanWhole(q: real, n: real)
    requires n > 0.0
    ensures q < 1.0 ==> q * n < n
  {
  }

  /** A term in a document contributes something positive, bounded by 2.2 times its IDF. */
  lemma WeightBounds(p: Platform, docs: Docs, t: string, k: string)
    requires p.Lawful() && NoEmpty(docs) && k in docs && t in docs[k].words
    ensures 0 < |Holding(docs, t)| <= |docs|
    ensures 0.0 < Weight(p, docs, t, k)
          < 2.2 * Idf(p, |docs| as real, |Holding(docs, t)| as real)
  {
    assert k in Holding(docs, t);
    HoldingIsSmaller(docs, t);
    AverageAtLeastOne(docs);
    IdfPositive(p, |docs| as real, |Holding(docs, t)| as real);
    var ratio := |docs[k].words| as real / AverageLength(docs);
    SaturationBounds(docs[k].words[t] as real, ratio);
    Scaled(Idf(p, |docs| as real, |Holding(docs, t)| as real), Saturation(docs[k].words[t] as real, ratio));
  }

  lemma Scaled(idf: real, x: real)
    requires idf > 0.0 && 0.0 < x < 2.2
    ensures 0.0 < idf * x < 2.2 * idf
  {
  }

  /** Of two documents of equal length, the one with more occurrences of a term gets more for it; of two
      with equally many, the shorter one. */
  lemma WeightOrder(p: Platform, docs: Docs, t: string, k: string, k': string)
    requires p.Lawful() && NoEmpty(docs) && k in docs && k' in docs && t in docs[k].words && t in docs[k'].words
    requires || (|docs[k].words| == |docs[k'].words| && docs[k].words[t] < docs[k'].words[t])
             || (docs[k].words[t] == docs[k'].words[t] && |docs[k].words| > |docs[k'].words|)
    ensures Weight(p, docs, t, k) < Weight(p, docs, t, k')
  {
    WeightBounds(p, docs, t, k);
    AverageAtLeastOne(docs);
    var idf, avg := Idf(p, |docs| as real, |Holding(docs, t)| as real), AverageLength(docs);
    IdfPositive(p, |docs| as real, |Holding(docs, t)| as real);
    ContributionOrder(idf, avg, docs[k].words[t] as real, docs[k'].words[t] as real,
                      |docs[k].words| as real, |docs[k'].words| as real);
  }

  lemma ContributionOrder(idf: real, avg: real, tf: real, tf': real, len: real, len': real)
    requires idf > 0.0 && avg > 0.0 && tf > 0.0 && tf' > 0.0 && len >= 0.0 && len' >= 0.0
    requires (len == len' && tf < tf') || (tf == tf' && len > len')
    ensures idf * Saturation(tf, len / avg) < idf * Saturation(tf', len' / avg)
  {
    if len == len' {
      SaturationRises(tf, tf', len / avg);
    } else {
      QuotientOrder(len', len, avg);
      SaturationFallsWithLength(tf, len' / avg, len / avg);
    }
    ScaledOrder(idf, Saturation(tf, len / avg), Saturation(tf', len' / avg));
  }

  lemma QuotientOrder(x: real, y: real, d: real)
    requires d > 0.0 && x < y
    ensures x / d < y / d
  {
  }

  lemma ScaledOrder(idf: real, x: real, y: real)
    requires idf > 0.0 && x < y
    ensures idf * x < idf * y
  {
  }

  /** Of two terms occurring equally often in a document, the one fewer documents hold counts for more. */
  lemma RarerTermWeighsMore(p: Platform, docs: Docs, t: string, t': string, k: string)
    requires p.Lawful() && NoEmpty(docs) && k in docs && t in docs[k].words && t' in docs[k].words
    requires docs[k].words[t] == docs[k].words[t'] && |Holding(docs, t)| < |Holding(docs, t')|
    ensures Weight(p, docs, t, k) > Weight(p, docs, t', k)
  {
    WeightBounds(p, docs, t, k);
    WeightBounds(p, docs, t', k);
    AverageAtLeastOne(docs);
    var n, x := |docs| as real, Saturation(docs[k].words[t] as real, |docs[k].words| as real / AverageLength(docs));
    SaturationBounds(docs[k].words[t] as real, |docs[k].words| as real / AverageLength(docs));
    IdfFalls(p, n, |Holding(docs, t)| as real, |Holding(docs, t')| as real);
    ScaledOrder(x, Idf(p, n, |Holding(docs, t')| as real), Idf(p, n, |Holding(docs, t)| as real));
  }

  lemma {:induction false} RelevanceNonNegative(p: Platform, docs: Docs, terms: set<string>, k: string)
    requires p.Lawful() && NoEmpty(docs) && k in docs
    ensures Relevance(p, docs, terms, k) >= 0.0
    decreases |terms|
  {
    if terms != {} {
      var t := Pick(terms);
      RelevanceNonNegative(p, docs, terms - {t}, k);
      if t in docs[k].words {
        WeightBounds(p, docs, t, k);
      }
    }
  }

  /** A document scores above zero exactly when it shares a word with the query. */
  lemma MatchingScoresPositive(p: Platform, docs: Docs, terms: set<string>, k: string)
    requires p.Lawful() && NoEmpty(docs) && k in docs
    ensures Relevance(p, docs, terms, k) > 0.0 <==> k in Matching(docs, terms)
  {
    if k in Matching(docs, terms) {
      var t :| t in terms && t in docs[k].words;
      RelevanceWithout(p, docs, terms, k, t);
      WeightBounds(p, docs, t, k);
      RelevanceNonNegative(p, docs, terms - {t}, k);
    } else {
      NoSharedTermNoRelevance(p, docs, terms, k);
    }
  }
}
