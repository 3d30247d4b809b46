/** The inverted index (internal/memory/index.go:95-243), kept incrementally, against the index a rescan of
    the corpus would build. */
module Index {
  import opened Text
  import opened Order
  import opened Corpus
  import opened Bm25

  // ---------------------------------------------------------------- the index of a corpus, from scratch

  ghost function Freq(ws: multiset<string>): map<string, int> {
    map t | t in ws :: ws[t]
  }

  ghost function PostingsOf(docs: Docs, t: string): map<string, int> {
    map k | k in Holding(docs, t) :: docs[k].words[t]
  }

  ghost function Postings(docs: Docs): map<string, map<string, int>> {
    map t | t in Terms(docs) :: PostingsOf(docs, t)
  }

  ghost function TermFreqs(docs: Docs): map<string, map<string, int>> {
    map k | k in docs :: Freq(docs[k].words)
  }

  ghost function Lengths(docs: Docs): map<string, int> {
    map k | k in docs :: |docs[k].words|
  }

  /** The sum of a frequency table over the terms `ts`. */
  ghost function FreqSum(f: map<string, int>, ts: set<string>): int
    requires ts <= f.Keys
  {
    if ts == {} then 0 else f[Pick(ts)] + FreqSum(f, ts - {Pick(ts)})
  }

  lemma {:induction false} FreqSumIsSize(ws: multiset<string>, f: map<string, int>, ts: set<string>)
    requires ts <= f.Keys && (forall t | t in ts :: f[t] == ws[t]) && (forall t | t in ws :: t in ts)
    ensures FreqSum(f, ts) == |ws|
    decreases |ts|
  {
    if ts == {} {
      assert ws == multiset{};
    } else {
      var t := Pick(ts);
      var rest := ws[t := 0];
      FreqSumIsSize(rest, f, ts - {t});
      assert ws == rest[t := ws[t]];
    }
  }

  /** The five fields hold what a rescan of `docs` would build. */
  ghost predicate Describes(docs: Docs, postings: map<string, map<string, int>>,
                            docTermFreq: map<string, map<string, int>>, docLen: map<string, int>,
                            totalLen: int, docCount: int)
  {
    && NoEmpty(docs)
    && postings == Postings(docs)
    && docTermFreq == TermFreqs(docs)
    && docLen == Lengths(docs)
    && totalLen == WordCount(docs, docs.Keys)
    && docCount == |docs|
  }

  class InvertedIndex {
    /** The corpus this index stands for. */
    ghost var docs: Docs

    var postings: map<string, map<string, int>>
    var docTermFreq: map<string, map<string, int>>
    var docLen: map<string, int>
    var totalLen: int
    var docCount: int

    /** The index is exactly the one a rescan of `docs` would build. */
    ghost predicate Valid()
      reads this
    {
      Describes(docs, postings, docTermFreq, docLen, totalLen, docCount)
    }

    constructor ()
      ensures Valid() && docs == map[]
    {
      docs, postings, docTermFreq, docLen := map[], map[], map[], map[];
      totalLen, docCount := 0, 0;
    }

    /** The writes of `Add`, ranging over the document's terms in any order. */
    method Enter(key: string, freq: map<string, int>, len: int)
      modifies this`postings, this`docTermFreq, this`docLen, this`totalLen, this`docCount
      ensures postings == WithDoc(old(postings), key, freq, freq.Keys)
      ensures docTermFreq == old(docTermFreq)[key := freq]
      ensures docLen == old(docLen)[key := len]
      ensures totalLen == old(totalLen) + len && docCount == old(docCount) + 1
    {
      docTermFreq := docTermFreq[key := freq];
      docLen := docLen[key := len];
      totalLen := totalLen + len;
      docCount := docCount + 1;
      var todo := freq.Keys;
      while todo != {}
        invariant todo <= freq.Keys
        invariant postings == WithDoc(old(postings), key, freq, freq.Keys - todo)
        modifies this`postings
      {
        var t :| t in todo;
        var m := if t in postings then postings[t] else map[];
        WithDocStep(old(postings), key, freq, freq.Keys - todo, t);
        postings := postings[t := m[key := freq[t]]];
        assert freq.Keys - todo + {t} == freq.Keys - (todo - {t});
        todo := todo - {t};
      }
    }

    /** The writes of `Remove`, ranging over the document's terms and dropping postings that become empty. */
    method Strike(key: string)
      requires key in docTermFreq && key in docLen
      modifies this`postings, this`docTermFreq, this`docLen, this`totalLen, this`docCount
      ensures postings == WithoutDoc(old(postings), key, old(docTermFreq[key].Keys))
      ensures docTermFreq == old(docTermFreq) - {key}
      ensures docLen == old(docLen) - {key}
      ensures totalLen == old(totalLen - docLen[key]) && docCount == old(docCount) - 1
    {
      var freq := docTermFreq[key];
      var todo := freq.Keys;
      while todo != {}
        invariant todo <= freq.Keys
        invariant postings == WithoutDoc(old(postings), key, freq.Keys - todo)
        modifies this`postings
      {
        var t :| t in todo;
        hide WithoutDoc;
        WithoutDocStep(old(postings), key, freq.Keys - todo, t);
        if t in postings {
          var m := postings[t] - {key};
          assert |m| == 0 <==> m == map[];
          postings := if |m| == 0 then postings - {t} else postings[t := m];
        }
        assert freq.Keys - todo + {t} == freq.Keys - (todo - {t});
        todo := todo - {t};
      }
      totalLen := totalLen - docLen[key];
      docCount := docCount - 1;
      docLen := docLen - {key};
      docTermFreq := docTermFreq - {key};
    }

    /** Index a document under a key that is not indexed. */
    method Add(key: string, tokens: seq<string>)
      requires Valid() && key !in docs
      modifies this
      ensures Valid() && docs == Put(old(docs), key, multiset(tokens))
    {
      ghost var ws := multiset(tokens);
      AddDescribes(docs, postings, docTermFreq, docLen, totalLen, docCount, key, ws);
      hide Describes, Put, WithDoc, Freq, NoEmpty, Postings, TermFreqs, Lengths, WordCount;
      if |tokens| == 0 {
        return;
      }
      assert tokens[0] in ws;
      var freq := CountTokens(tokens);
      Enter(key, freq, |tokens|);
      docs := Put(docs, key, ws);
    }

    /** Un-index a key; nothing happens when it is not indexed. */
    method Remove(key: string)
      requires Valid()
      modifies this
      ensures Valid() && docs == old(docs) - {key}
    {
      RemoveDescribes(docs, postings, docTermFreq, docLen, totalLen, docCount, key);
      hide Describes, WithoutDoc, Freq, NoEmpty, Postings, TermFreqs, Lengths, WordCount;
      if key !in docTermFreq {
        return;
      }
      Strike(key);
      docs := docs - {key};
    }

    /** Replace whatever is indexed under a key. */
    method Update(key: string, tokens: seq<string>)
      requires Valid()
      modifies this
      ensures Valid() && docs == Put(old(docs), key, multiset(tokens))
    {
      Remove(key);
      Add(key, tokens);
      PutAfterRemove(old(docs), key, multiset(tokens));
    }

    /** The mean document length; 1 for an empty corpus. */
    method AvgDocLen() returns (avg: real)
      requires Valid()
      ensures avg == if docs == map[] then 1.0 else AverageLength(docs)
      ensures avg >= 1.0
    {
      if docCount == 0 {
        return 1.0;
      }
      avg := totalLen as real / docCount as real;
      AverageAtLeastOne(docs);
      if avg == 0.0 {
        return 1.0;
      }
    }

    /** What one indexed query term adds to the scores collected so far. */
    method ScoreTerm(p: Platform, term: string, avgdl: real, n: real, acc: map<string, real>)
      returns (r: map<string, real>)
      requires Valid() && term in postings
      requires docs != map[] && avgdl == AverageLength(docs) && avgdl >= 1.0 && n == |docs| as real
      ensures r == Accumulated(acc, Weights(p, docs, term), Holding(docs, term))
    {
      ReadyToScore(p, docs, postings, docTermFreq, docLen, totalLen, docCount, term);
      hide Describes, Weights, Holding, NoEmpty, WordCount, AverageLength, Accumulated, Contribution;
      var m := postings[term];
      var df := |m| as real;
      var idf := p.log((n - df + 0.5) / (df + 0.5) + 1.0);
      r := AddContributions(m, docLen, idf, avgdl, acc, Weights(p, docs, term));
    }

    /** BM25 scores of all documents holding at least one query token, in no particular order. */
    method Score(p: Platform, queryTokens: seq<string>) returns (results: seq<ScoredDoc>)
      requires Valid()
      ensures AreHits(p, docs, Elements(queryTokens), results)
    {
      results := [];
      assert NoEmpty(docs) && docCount == |docs|;
      assert docs == map[] ==> Matching(docs, Elements(queryTokens)) == {};
      if docCount == 0 {
        return;
      }
      var uniq := ToSet(queryTokens);
      hide Describes, Scores, Accumulated, Weights, Holding;
      var avgdl := AvgDocLen();
      var n := docCount as real;
      var acc: map<string, real> := map[];
      var todo := uniq;
      while todo != {}
        invariant todo <= uniq
        invariant acc == Scores(p, docs, uniq - todo)
      {
        var term :| term in todo;
        ScoresStep(p, docs, uniq - todo, term);
        if term in postings {
          acc := ScoreTerm(p, term, avgdl, n, acc);
        } else {
          UnindexedTerm(p, docs, postings, docTermFreq, docLen, totalLen, docCount, term, acc);
        }
        assert uniq - (todo - {term}) == uniq - todo + {term};
        todo := todo - {term};
      }
      assert uniq - todo == uniq;
      results := Listed(acc);
      ListedScoresAreHits(p, docs, uniq, results);
    }
  }

  /** The inner loop of `score`: one term's postings, in any order. */
  method AddContributions(m: map<string, int>, docLen: map<string, int>, idf: real, avgdl: real,
                          acc: map<string, real>, ghost weights: map<string, real>) returns (r: map<string, real>)
    requires avgdl >= 1.0
    requires forall k | k in m :: k in docLen && m[k] > 0 && docLen[k] > 0 && k in weights
                                  && Contribution(idf, m[k] as real, docLen[k] as real / avgdl) == weights[k]
    ensures r == Accumulated(acc, weights, m.Keys)
  {
    r := acc;
    var todo := m.Keys;
    while todo != {}
      invariant todo <= m.Keys
      invariant r == Accumulated(acc, weights, m.Keys - todo)
    {
      var key :| key in todo;
      var tf, dl := m[key] as real, docLen[key] as real;
      var denom := tf + K1 * (1.0 - B + B * (dl / avgdl));
      var contribution := idf * (tf * (K1 + 1.0)) / denom;
      assert contribution == Contribution(idf, tf, dl / avgdl);
      AccumulatedStep(acc, weights, m.Keys - todo, key);
      r := r[key := (if key in r then r[key] else 0.0) + contribution];
      assert m.Keys - (todo - {key}) == m.Keys - todo + {key};
      todo := todo - {key};
    }
    assert m.Keys - todo == m.Keys;
  }

  /** One unranked search hit. */
  datatype ScoredDoc = ScoredDoc(key: string, score: real)

  function HitKeys(hits: seq<ScoredDoc>): seq<string> {
    seq(|hits|, i requires 0 <= i < |hits| => hits[i].key)
  }

  ghost predicate Distinct<T>(s: seq<T>) {
    forall i, j | 0 <= i < j < |s| :: s[i] != s[j]
  }

  /** `hits` holds every matching document once, with its BM25 score. */
  ghost predicate AreHits(p: Platform, docs: Docs, terms: set<string>, hits: seq<ScoredDoc>)
    requires NoEmpty(docs)
  {
    && Distinct(HitKeys(hits))
    && Elements(HitKeys(hits)) == Matching(docs, terms)
    && (forall i | 0 <= i < |hits| :: hits[i].key in docs && hits[i].score == Relevance(p, docs, terms, hits[i].key))
  }

  /** The scores of all documents for the terms `terms`. */
  ghost function Scores(p: Platform, docs: Docs, terms: set<string>): map<string, real>
    requires NoEmpty(docs)
  {
    map k | k in Matching(docs, terms) :: Relevance(p, docs, terms, k)
  }

  ghost function Weights(p: Platform, docs: Docs, t: string): map<string, real>
    requires NoEmpty(docs)
  {
    map k | k in docs :: Weight(p, docs, t, k)
  }

  /** The summand of `score`, as the code groups it. */
  function Contribution(idf: real, tf: real, ratio: real): real
    requires tf > 0.0 && ratio >= 0.0
  {
    idf * (tf * (K1 + 1.0)) / (tf + LengthNorm(ratio))
  }

  /** `acc` after adding the weights of the documents `ks`. */
  ghost function Accumulated(acc: map<string, real>, weights: map<string, real>, ks: set<string>): map<string, real>
    requires ks <= weights.Keys
  {
    map k | k in acc.Keys + ks :: (if k in acc then acc[k] else 0.0) + (if k in ks then weights[k] else 0.0)
  }

  /** Summing one more term turns the scores for `terms` into those for `terms + {t}`. */
  lemma ScoresStep(p: Platform, docs: Docs, terms: set<string>, t: string)
    requires NoEmpty(docs) && t !in terms
    ensures Holding(docs, t) <= Weights(p, docs, t).Keys
    ensures Scores(p, docs, terms + {t}) == Accumulated(Scores(p, docs, terms), Weights(p, docs, t), Holding(docs, t))
  {
    assert Holding(docs, t) <= Weights(p, docs, t).Keys;
    hide Scores, Accumulated, Weights, Holding, NoEmpty;
    forall k {
      ScoresStepAt(p, docs, terms, t, k);
    }
    SameMap(Scores(p, docs, terms + {t}), Accumulated(Scores(p, docs, terms), Weights(p, docs, t), Holding(docs, t)));
  }

  lemma ScoresStepAt(p: Platform, docs: Docs, terms: set<string>, t: string, k: string)
    requires NoEmpty(docs) && t !in terms
    ensures Holding(docs, t) <= Weights(p, docs, t).Keys
    ensures var a, b := Scores(p, docs, terms + {t}),
                        Accumulated(Scores(p, docs, terms), Weights(p, docs, t), Holding(docs, t));
            (k in a <==> k in b) && (k in a ==> a[k] == b[k])
  {
    if k in docs {
      MatchingStep(docs, terms, t, k);
      RelevanceStep(p, docs, terms, t, k);
    }
  }

  lemma RelevanceStep(p: Platform, docs: Docs, terms: set<string>, t: string, k: string)
    requires NoEmpty(docs) && t !in terms && k in docs
    ensures Relevance(p, docs, terms + {t}, k)
         == (if k in Matching(docs, terms) then Relevance(p, docs, terms, k) else 0.0)
            + (if k in Holding(docs, t) then Weight(p, docs, t, k) else 0.0)
  {
    RelevanceWithout(p, docs, terms + {t}, k, t);
    assert terms + {t} - {t} == terms;
    if k !in Matching(docs, terms) {
      NoSharedTermNoRelevance(p, docs, terms, k);
    }
  }

  lemma AccumulatedStep(acc: map<string, real>, weights: map<string, real>, ks: set<string>, k: string)
    requires ks <= weights.Keys && k in weights && k !in ks
    ensures ks + {k} <= weights.Keys
    ensures var r := Accumulated(acc, weights, ks);
            Accumulated(acc, weights, ks + {k}) == r[k := (if k in r then r[k] else 0.0) + weights[k]]
  {
  }

  lemma ListedScoresAreHits(p: Platform, docs: Docs, terms: set<string>, r: seq<ScoredDoc>)
    requires NoEmpty(docs)
    requires Distinct(HitKeys(r)) && Elements(HitKeys(r)) == Scores(p, docs, terms).Keys
    requires forall i | 0 <= i < |r| ::
      r[i].key in Scores(p, docs, terms) && r[i].score == Scores(p, docs, terms)[r[i].key]
    ensures AreHits(p, docs, terms, r)
  {
  }

  lemma MatchingStep(docs: Docs, terms: set<string>, t: string, k: string)
    requires k in docs
    ensures k in Matching(docs, terms + {t}) <==> k in Matching(docs, terms) || k in Holding(docs, t)
  {
    if k in Matching(docs, terms) {
      var u :| u in terms && u in docs[k].words;
      assert u in terms + {t};
    }
    if k in Holding(docs, t) {
      assert t in terms + {t};
    }
  }

  lemma RegroupFraction(a: real, b: real, d: real)
    requires d > 0.0
    ensures a * b / d == a * (b / d)
  {
  }

  /** The summands of `score` for one term are the weights of the documents holding it. */
  lemma PostingContributions(p: Platform, docs: Docs, t: string)
    requires NoEmpty(docs) && docs != map[] && AverageLength(docs) >= 1.0
    ensures var n, df := |docs| as real, |Holding(docs, t)| as real;
      forall k | k in Holding(docs, t) ::
        && k in Weights(p, docs, t)
        && docs[k].words[t] > 0 && |docs[k].words| > 0
        && Contribution(p.log((n - df + 0.5) / (df + 0.5) + 1.0),
             docs[k].words[t] as real, |docs[k].words| as real / AverageLength(docs)) == Weights(p, docs, t)[k]
  {
    var idf := Idf(p, |docs| as real, |Holding(docs, t)| as real);
    forall k | k in Holding(docs, t)
      ensures docs[k].words[t] > 0 && |docs[k].words| > 0
      ensures Contribution(idf, docs[k].words[t] as real, |docs[k].words| as real / AverageLength(docs))
           == Weight(p, docs, t, k)
    {
      var tf, ratio := docs[k].words[t] as real, |docs[k].words| as real / AverageLength(docs);
      RegroupFraction(idf, tf * (K1 + 1.0), tf + LengthNorm(ratio));
    }
  }

  /** The reads `Score` makes of the index for one term, as facts about the corpus. */
  lemma DescribesReads(docs: Docs, postings: map<string, map<string, int>>,
                       docTermFreq: map<string, map<string, int>>, docLen: map<string, int>,
                       totalLen: int, docCount: int, t: string)
    requires Describes(docs, postings, docTermFreq, docLen, totalLen, docCount)
    ensures t in postings <==> Holding(docs, t) != {}
    ensures t in postings ==> postings[t].Keys == Holding(docs, t) && |postings[t]| == |Holding(docs, t)|
    ensures t in postings ==> forall k | k in postings[t] ::
      k in docs && k in docLen && postings[t][k] == docs[k].words[t] && docLen[k] == |docs[k].words|
  {
    TermsAreHeld(docs, t);
    assert t in postings ==> postings[t].Keys == Holding(docs, t);
  }

  lemma ReadyToScore(p: Platform, docs: Docs, postings: map<string, map<string, int>>,
                     docTermFreq: map<string, map<string, int>>, docLen: map<string, int>,
                     totalLen: int, docCount: int, t: string)
    requires Describes(docs, postings, docTermFreq, docLen, totalLen, docCount)
    requires t in postings && docs != map[] && AverageLength(docs) >= 1.0
    ensures postings[t].Keys == Holding(docs, t)
    ensures var m, n, df := postings[t], |docs| as real, |postings[t]| as real;
      forall k | k in m ::
        && k in docLen && m[k] > 0 && docLen[k] > 0 && k in Weights(p, docs, t)
        && Contribution(p.log((n - df + 0.5) / (df + 0.5) + 1.0), m[k] as real,
             docLen[k] as real / AverageLength(docs)) == Weights(p, docs, t)[k]
  {
    DescribesReads(docs, postings, docTermFreq, docLen, totalLen, docCount, t);
    PostingContributions(p, docs, t);
    hide Describes, Contribution, Weights, Holding, AverageLength;
  }

  lemma UnindexedTerm(p: Platform, docs: Docs, postings: map<string, map<string, int>>,
                      docTermFreq: map<string, map<string, int>>, docLen: map<string, int>,
                      totalLen: int, docCount: int, t: string, acc: map<string, real>)
    requires Describes(docs, postings, docTermFreq, docLen, totalLen, docCount) && t !in postings
    ensures Holding(docs, t) <= Weights(p, docs, t).Keys
    ensures Accumulated(acc, Weights(p, docs, t), Holding(docs, t)) == acc
  {
    DescribesReads(docs, postings, docTermFreq, docLen, totalLen, docCount, t);
    hide Describes, Weights, Holding;
  }

  /** The pairs of a map as a slice, in any order. */
  method Listed(acc: map<string, real>) returns (r: seq<ScoredDoc>)
    ensures Distinct(HitKeys(r)) && Elements(HitKeys(r)) == acc.Keys
    ensures forall i | 0 <= i < |r| :: r[i].key in acc && r[i].score == acc[r[i].key]
  {
    r := [];
    var todo := acc.Keys;
    while todo != {}
      invariant todo <= acc.Keys
      invariant Distinct(HitKeys(r)) && Elements(HitKeys(r)) == acc.Keys - todo
      invariant forall i | 0 <= i < |r| :: r[i].key in acc && r[i].score == acc[r[i].key]
    {
      var key :| key in todo;
      assert key !in Elements(HitKeys(r));
      assert HitKeys(r + [ScoredDoc(key, acc[key])]) == HitKeys(r) + [key];
      assert Elements(HitKeys(r) + [key]) == Elements(HitKeys(r)) + {key};
      r := r + [ScoredDoc(key, acc[key])];
      todo := todo - {key};
    }
  }

  method ToSet(tokens: seq<string>) returns (uniq: set<string>)
    ensures uniq == Elements(tokens)
  {
    uniq := {};
    for i := 0 to |tokens|
      invariant uniq == Elements(tokens[..i])
    {
      uniq := uniq + {tokens[i]};
    }
    assert tokens[..|tokens|] == tokens;
  }

  method CountTokens(tokens: seq<string>) returns (freq: map<string, int>)
    ensures freq == Freq(multiset(tokens))
  {
    freq := map[];
    for i := 0 to |tokens|
      invariant freq == Freq(multiset(tokens[..i]))
    {
      var t := tokens[i];
      assert tokens[..i + 1] == tokens[..i] + [t];
      freq := freq[t := (if t in freq then freq[t] else 0) + 1];
    }
    assert tokens[..|tokens|] == tokens;
  }

  lemma PutAfterRemove(docs: Docs, key: string, ws: multiset<string>)
    ensures Put(docs - {key}, key, ws) == Put(docs, key, ws)
  {
  }

  // ---------------------------------------------------------------- postings, one term at a time

  /** `p` with the frequencies of document `key` entered for the terms in `done`. */
  ghost function WithDoc(p: map<string, map<string, int>>, key: string, freq: map<string, int>, done: set<string>)
    : map<string, map<string, int>>
    requires done <= freq.Keys
  {
    map t | t in p.Keys + done ::
      if t in done then (if t in p then p[t] else map[])[key := freq[t]] else p[t]
  }

  lemma WithDocStep(p: map<string, map<string, int>>, key: string, freq: map<string, int>, done: set<string>, t: string)
    requires done < freq.Keys && t in freq.Keys - done
    ensures done + {t} <= freq.Keys
    ensures var q := WithDoc(p, key, freq, done);
            WithDoc(p, key, freq, done + {t}) == q[t := (if t in q then q[t] else map[])[key := freq[t]]]
  {
  }

  /** `p` with document `key` deleted from the postings of the terms in `done`, empty postings dropped. */
  ghost function WithoutDoc(p: map<string, map<string, int>>, key: string, done: set<string>)
    : map<string, map<string, int>>
  {
    map t | t in p && !(t in done && p[t] - {key} == map[]) :: if t in done then p[t] - {key} else p[t]
  }

  lemma WithoutDocStep(p: map<string, map<string, int>>, key: string, done: set<string>, t: string)
    requires t !in done
    ensures var q := WithoutDoc(p, key, done);
            WithoutDoc(p, key, done + {t}) ==
              if t !in q then q else if q[t] - {key} == map[] then q - {t} else q[t := q[t] - {key}]
  {
  }

  lemma HoldingWith(docs: Docs, key: string, ws: multiset<string>, t: string)
    requires key !in docs
    ensures Holding(docs[key := Doc(ws)], t) == if t in ws then Holding(docs, t) + {key} else Holding(docs, t)
  {
  }

  lemma HoldingWithout(docs: Docs, key: string, t: string)
    ensures Holding(docs - {key}, t) == Holding(docs, t) - {key}
  {
  }

  lemma TermsAreHeld(docs: Docs, t: string)
    ensures t in Terms(docs) <==> Holding(docs, t) != {}
  {
    if t in Terms(docs) {
      var k :| k in docs && t in docs[k].words;
      assert k in Holding(docs, t);
    }
    if Holding(docs, t) != {} {
      var k :| k in Holding(docs, t);
    }
  }

  lemma PostingWith(docs: Docs, key: string, ws: multiset<string>, t: string)
    requires key !in docs
    ensures t in Terms(docs[key := Doc(ws)]) <==> t in Terms(docs) || t in ws
    ensures PostingsOf(docs[key := Doc(ws)], t) ==
            if t in ws then PostingsOf(docs, t)[key := ws[t]] else PostingsOf(docs, t)
    ensures t !in Terms(docs) ==> PostingsOf(docs, t) == map[]
  {
    TermsAreHeld(docs, t);
    TermsAreHeld(docs[key := Doc(ws)], t);
    HoldingWith(docs, key, ws, t);
  }

  lemma PostingsWith(docs: Docs, key: string, ws: multiset<string>)
    requires key !in docs
    ensures WithDoc(Postings(docs), key, Freq(ws), Freq(ws).Keys) == Postings(docs[key := Doc(ws)])
  {
    var after := docs[key := Doc(ws)];
    var p, q := Postings(docs), Postings(after);
    var w := WithDoc(p, key, Freq(ws), Freq(ws).Keys);
    forall t
      ensures t in w <==> t in q
      ensures t in w ==> w[t] == q[t]
    {
      PostingWith(docs, key, ws, t);
    }
  }

  lemma PostingsWithout(docs: Docs, key: string)
    requires key in docs
    ensures WithoutDoc(Postings(docs), key, Freq(docs[key].words).Keys) == Postings(docs - {key})
  {
    var after := docs - {key};
    var p := WithoutDoc(Postings(docs), key, Freq(docs[key].words).Keys);
    forall t
      ensures t in p <==> t in Postings(after)
      ensures t in p ==> p[t] == PostingsOf(after, t)
    {
      PostingWithout(docs, key, t);
    }
    hide WithoutDoc, PostingsOf, Terms;
  }

  lemma PostingWithout(docs: Docs, key: string, t: string)
    requires key in docs
    ensures var p, after := WithoutDoc(Postings(docs), key, Freq(docs[key].words).Keys), docs - {key};
      (t in p <==> t in Postings(after)) && (t in p ==> p[t] == PostingsOf(after, t))
  {
    var after := docs - {key};
    TermsAreHeld(docs, t);
    TermsAreHeld(after, t);
    HoldingWithout(docs, key, t);
    if t in Terms(docs) {
      assert PostingsOf(docs, t) - {key} == PostingsOf(after, t);
      assert PostingsOf(docs, t).Keys == Holding(docs, t);
      assert PostingsOf(after, t) == map[] <==> Holding(after, t) == {};
    }
    hide Terms, Holding;
  }

  lemma CountsWith(docs: Docs, key: string, ws: multiset<string>)
    requires key !in docs
    ensures WordCount(docs[key := Doc(ws)], docs[key := Doc(ws)].Keys) == WordCount(docs, docs.Keys) + |ws|
    ensures |docs[key := Doc(ws)]| == |docs| + 1
  {
    var after := docs[key := Doc(ws)];
    WordCountWithout(after, after.Keys, key);
    assert after.Keys - {key} == docs.Keys;
    WordCountSame(docs, after, docs.Keys);
  }

  lemma CountsWithout(docs: Docs, key: string)
    requires key in docs
    ensures WordCount(docs - {key}, (docs - {key}).Keys) == WordCount(docs, docs.Keys) - |docs[key].words|
    ensures |docs - {key}| == |docs| - 1
  {
    var after := docs - {key};
    WordCountWithout(docs, docs.Keys, key);
    assert docs.Keys - {key} == after.Keys;
    WordCountSame(docs, after, after.Keys);
    assert |docs.Keys - {key}| == |docs.Keys| - 1;
  }

  lemma TablesKeys(docs: Docs)
    ensures TermFreqs(docs).Keys == docs.Keys && Lengths(docs).Keys == docs.Keys
    ensures forall k | k in docs :: TermFreqs(docs)[k] == Freq(docs[k].words) && Lengths(docs)[k] == |docs[k].words|
  {
  }

  lemma PutKeeps(docs: Docs, key: string, ws: multiset<string>)
    requires NoEmpty(docs)
    ensures NoEmpty(Put(docs, key, ws))
    ensures Put(docs, key, ws) == if ws == multiset{} then docs - {key} else docs[key := Doc(ws)]
    ensures key !in docs ==> docs - {key} == docs
  {
  }

  lemma TablesWith(docs: Docs, key: string, ws: multiset<string>)
    ensures TermFreqs(docs[key := Doc(ws)]) == TermFreqs(docs)[key := Freq(ws)]
    ensures Lengths(docs[key := Doc(ws)]) == Lengths(docs)[key := |ws|]
  {
  }

  lemma TablesWithout(docs: Docs, key: string)
    ensures TermFreqs(docs - {key}) == TermFreqs(docs) - {key}
    ensures Lengths(docs - {key}) == Lengths(docs) - {key}
  {
  }

  /** The incremental change made by `Add` leads to the index built from scratch. */
  lemma AddDescribes(docs: Docs, postings: map<string, map<string, int>>,
                     docTermFreq: map<string, map<string, int>>, docLen: map<string, int>,
                     totalLen: int, docCount: int, key: string, ws: multiset<string>)
    requires Describes(docs, postings, docTermFreq, docLen, totalLen, docCount) && key !in docs
    ensures ws == multiset{} ==> Put(docs, key, ws) == docs
    ensures ws != multiset{} ==>
      Describes(Put(docs, key, ws), WithDoc(postings, key, Freq(ws), Freq(ws).Keys),
                docTermFreq[key := Freq(ws)], docLen[key := |ws|], totalLen + |ws|, docCount + 1)
  {
    TablesKeys(docs);
    PutKeeps(docs, key, ws);
    hide Postings, WithDoc, TermFreqs, Lengths, WordCount, Freq, Put, NoEmpty;
    TablesWith(docs, key, ws);
    CountsWith(docs, key, ws);
    PostingsWith(docs, key, ws);
  }

  /** The incremental change made by `Remove` leads to the index built from scratch. */
  lemma RemoveDescribes(docs: Docs, postings: map<string, map<string, int>>,
                        docTermFreq: map<string, map<string, int>>, docLen: map<string, int>,
                        totalLen: int, docCount: int, key: string)
    requires Describes(docs, postings, docTermFreq, docLen, totalLen, docCount)
    ensures key !in docTermFreq ==> docs - {key} == docs
    ensures key in docTermFreq ==>
      && key in docLen
      && Describes(docs - {key}, WithoutDoc(postings, key, docTermFreq[key].Keys),
                   docTermFreq - {key}, docLen - {key}, totalLen - docLen[key], docCount - 1)
  {
    TablesKeys(docs);
    PutKeeps(docs, key, multiset{});
    hide Postings, WithoutDoc, TermFreqs, Lengths, WordCount, Freq, Put, NoEmpty;
    if key in docs {
      TablesWithout(docs, key);
      CountsWithout(docs, key);
      PostingsWithout(docs, key);
    }
  }

  // ---------------------------------------------------------------- what the invariant says of the five fields

  /** `postings` and `docTermFreq` are transposes of each other, and no posting list is empty. */
  lemma Transposed(docs: Docs, postings: map<string, map<string, int>>,
                   docTermFreq: map<string, map<string, int>>, docLen: map<string, int>,
                   totalLen: int, docCount: int, t: string, k: string)
    requires Describes(docs, postings, docTermFreq, docLen, totalLen, docCount)
    ensures (t in postings && k in postings[t]) <==> (k in docTermFreq && t in docTermFreq[k])
    ensures t in postings && k in postings[t] ==> postings[t][k] == docTermFreq[k][t] > 0
    ensures t in postings ==> postings[t] != map[]
  {
    TermsAreHeld(docs, t);
    assert t in postings ==> postings[t].Keys == Holding(docs, t);
  }

  /** Every length is the sum of the document's frequencies, the total is the sum of the lengths, and exactly
      the documents with at least one token are counted. */
  lemma Totals(docs: Docs, postings: map<string, map<string, int>>,
               docTermFreq: map<string, map<string, int>>, docLen: map<string, int>,
               totalLen: int, docCount: int)
    requires Describes(docs, postings, docTermFreq, docLen, totalLen, docCount)
    ensures docLen.Keys == docTermFreq.Keys && docCount == |docLen|
    ensures forall k | k in docLen :: docLen[k] == FreqSum(docTermFreq[k], docTermFreq[k].Keys) > 0
    ensures totalLen == FreqSum(docLen, docLen.Keys)
  {
    TablesKeys(docs);
    assert docLen.Keys == docs.Keys;
    forall k | k in docLen
      ensures docLen[k] == FreqSum(docTermFreq[k], docTermFreq[k].Keys) > 0
    {
      FreqSumIsSize(docs[k].words, docTermFreq[k], docTermFreq[k].Keys);
    }
    FreqSumIsWordCount(docs, docLen, docs.Keys);
  }

  lemma {:induction false} FreqSumIsWordCount(docs: Docs, f: map<string, int>, ks: set<string>)
    requires ks <= docs.Keys && ks <= f.Keys && forall k | k in ks :: f[k] == |docs[k].words|
    ensures FreqSum(f, ks) == WordCount(docs, ks)
    decreases |ks|
  {
    if ks != {} {
      FreqSumIsWordCount(docs, f, ks - {Pick(ks)});
    }
  }
}
