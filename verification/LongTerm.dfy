/** Long-term memory (internal/memory/long_term.go): a cache of parsed entries and an inverted index over it,
    both meant to agree with the directory at all times. */
module LongTerm {
  import opened Options
  import opened Text
  import opened Order
  import opened Corpus
  import opened Storage
  import opened Index

  // ---------------------------------------------------------------- cache, index and directory as values

  /** What the cache knows of an entry: the words it was indexed under, and the entry. */
  ghost function Cached(p: Platform, e: Entry): Content {
    Content(Words(p, e), Normal(p, e))
  }

  /** An entry is cached as it will be read back exactly when its value survives. */
  lemma CachedAsStoredIff(p: Platform, e: Entry)
    requires p.Lawful()
    ensures Cached(p, e) == Meaning(p, e) <==> Survives(p, e.value)
  {
    ReadBackKeepsWordsIff(p, e);
  }

  /** What was read back is cached as what is stored. */
  lemma CachedReadBack(p: Platform, e: Entry, now: int)
    requires p.Lawful()
    ensures Cached(p, ReadBack(p, e)) == Meaning(p, e)
    ensures Cached(p, ReadBack(p, e).(lastAccessed := now)) == Meaning(p, e)
  {
    ReadBackTwice(p, e);
  }

  ghost function CacheCatalog(p: Platform, entries: map<string, Entry>): Catalog {
    map k | k in entries :: Cached(p, entries[k])
  }

  /** The index is the one a rescan of the cached entries would build. */
  ghost predicate InSync(p: Platform, entries: map<string, Entry>, docs: Docs) {
    && (forall k | k in entries :: entries[k].key == k)
    && docs == DocsOf(CacheCatalog(p, entries))
  }

  /** The cache holds what a rescan of the directory would find; before loading, nothing. */
  ghost predicate Agrees(p: Platform, entries: map<string, Entry>, loaded: bool, cat: Catalog) {
    if loaded then CacheCatalog(p, entries) == cat else entries == map[]
  }

  ghost predicate AllAgree(p: Platform, entries: map<string, Entry>, loaded: bool, docs: Docs, files: Files) {
    InSync(p, entries, docs) && WellNamed(files) && Agrees(p, entries, loaded, CatalogOf(p, files))
  }

  lemma DocsAfterPut(cat: Catalog, k: string, c: Content)
    ensures DocsOf(cat[k := c]) == Put(DocsOf(cat), k, c.words)
  {
  }

  lemma DocsAfterDelete(cat: Catalog, k: string)
    ensures DocsOf(cat - {k}) == DocsOf(cat) - {k}
  {
  }

  lemma CacheAfterPut(p: Platform, entries: map<string, Entry>, k: string, e: Entry)
    ensures CacheCatalog(p, entries[k := e]) == CacheCatalog(p, entries)[k := Cached(p, e)]
  {
  }

  lemma CacheAfterDelete(p: Platform, entries: map<string, Entry>, k: string)
    ensures CacheCatalog(p, entries - {k}) == CacheCatalog(p, entries) - {k}
  {
  }

  /** Caching an entry under its own key and indexing its words keeps cache and index in sync. */
  lemma SyncAfterStore(p: Platform, entries: map<string, Entry>, docs: Docs, e: Entry)
    requires InSync(p, entries, docs)
    ensures InSync(p, entries[e.key := e], Put(docs, e.key, Words(p, e)))
  {
    CacheAfterPut(p, entries, e.key, e);
    DocsAfterPut(CacheCatalog(p, entries), e.key, Cached(p, e));
  }

  lemma SyncAfterForget(p: Platform, entries: map<string, Entry>, docs: Docs, k: string)
    requires InSync(p, entries, docs)
    ensures InSync(p, entries - {k}, docs - {k})
  {
    CacheAfterDelete(p, entries, k);
    DocsAfterDelete(CacheCatalog(p, entries), k);
  }

  /** Re-caching an entry with the same content needs no index update. */
  lemma SyncAfterRecall(p: Platform, entries: map<string, Entry>, docs: Docs, e: Entry)
    requires InSync(p, entries, docs)
    requires e.key in entries && Cached(p, e) == Cached(p, entries[e.key])
    ensures InSync(p, entries[e.key := e], docs)
    ensures CacheCatalog(p, entries[e.key := e]) == CacheCatalog(p, entries)
  {
    CacheAfterPut(p, entries, e.key, e);
    assert CacheCatalog(p, entries)[e.key] == Cached(p, entries[e.key]);
    hide CacheCatalog, Cached, DocsOf;
    SameUpdate(CacheCatalog(p, entries), e.key);
  }

  lemma SameUpdate<V>(m: map<string, V>, k: string)
    requires k in m
    ensures m[k := m[k]] == m
  {
  }

  // ---------------------------------------------------------------- reading the directory

  /** `all` holds the entries of the files in `names`, each once, as read back. */
  ghost predicate ReadFrom(p: Platform, files: Files, names: set<string>, all: seq<Entry>)
    requires WellNamed(files)
  {
    && (forall i, j | 0 <= i < j < |all| :: all[i].key != all[j].key)
    && (forall i | 0 <= i < |all| ::
          && Loads(files, Path(all[i].key)) && Path(all[i].key) in names
          && all[i] == ReadBack(p, files[Path(all[i].key)].entry))
    && (forall f | f in names && Loads(files, f) :: HasPath(all, f))
  }

  ghost predicate HasPath(all: seq<Entry>, f: string) {
    exists i :: 0 <= i < |all| && Path(all[i].key) == f
  }

  /** Reading one more file extends the listing, and never with a key it already has. */
  lemma ReadOneMore(p: Platform, files: Files, names: set<string>, all: seq<Entry>, f: string)
    requires WellNamed(files) && ReadFrom(p, files, names, all) && f !in names
    ensures !Loads(files, f) ==> ReadFrom(p, files, names + {f}, all)
    ensures Loads(files, f) ==> ReadFrom(p, files, names + {f}, all + [ReadBack(p, files[f].entry)])
  {
    if Loads(files, f) {
      var e := ReadBack(p, files[f].entry);
      assert Path(e.key) == f && files[f].entry.key == e.key;
      hide Path, ReadBack, Loads, HasPath, WellNamed;
      forall g | g in names + {f} && Loads(files, g) ensures HasPath(all + [e], g) {
        OneMorePath(all, e, g);
      }
    }
  }

  lemma OneMorePath(all: seq<Entry>, e: Entry, g: string)
    ensures HasPath(all + [e], g) <==> HasPath(all, g) || Path(e.key) == g
  {
    hide Path;
    if i :| 0 <= i < |all| && Path(all[i].key) == g {
      assert (all + [e])[i] == all[i];
    }
    assert (all + [e])[|all|] == e;
  }

  ghost function KeysOf(all: seq<Entry>): set<string> {
    set i | 0 <= i < |all| :: all[i].key
  }

  lemma ReadingFindsEveryKey(p: Platform, files: Files, all: seq<Entry>, k: string)
    requires WellNamed(files) && ReadFrom(p, files, files.Keys, all)
    ensures k in KeysOf(all) <==> k in CatalogOf(p, files)
  {
    CatalogAt(p, files, k);
    if k in CatalogOf(p, files) {
      assert HasPath(all, Path(k));
      var i :| 0 <= i < |all| && Path(all[i].key) == Path(k);
      assert all[i].key == k;
    }
  }

  /** Cached entries that were all read from the directory, for all its keys, agree with it. */
  lemma LoadedAgrees(p: Platform, files: Files, all: seq<Entry>, entries: map<string, Entry>)
    requires p.Lawful() && WellNamed(files) && ReadFrom(p, files, files.Keys, all)
    requires entries.Keys == KeysOf(all)
    requires forall k | k in entries :: Loads(files, Path(k)) && entries[k] == ReadBack(p, files[Path(k)].entry)
    ensures CacheCatalog(p, entries) == CatalogOf(p, files)
  {
    hide CatalogOf, ReadFrom, KeysOf, Meaning, Cached, WellNamed;
    forall k
      ensures k in entries <==> k in CatalogOf(p, files)
      ensures k in entries ==> Cached(p, entries[k]) == CatalogOf(p, files)[k]
    {
      ReadingFindsEveryKey(p, files, all, k);
      CatalogAt(p, files, k);
      if k in entries {
        CachedReadBack(p, files[Path(k)].entry, 0);
      }
    }
    SameMap(CacheCatalog(p, entries), CatalogOf(p, files));
  }

  /** Loading skips a file it cannot read. If that happens to some for a moment only, what was cached agrees with the
      directory exactly when none of them holds an entry. */
  lemma SkippedAgreesIff(p: Platform, files: Files, skipped: set<string>, all: seq<Entry>, entries: map<string, Entry>)
    requires p.Lawful() && WellNamed(files) && ReadFrom(p, files, files.Keys - skipped, all)
    requires entries.Keys == KeysOf(all)
    requires forall k | k in entries :: Loads(files, Path(k)) && entries[k] == ReadBack(p, files[Path(k)].entry)
    ensures CacheCatalog(p, entries) == CatalogOf(p, files) <==> forall f | f in skipped :: !Loads(files, f)
  {
    if f :| f in skipped && Loads(files, f) {
      var k := files[f].entry.key;
      assert Path(k) == f && k !in KeysOf(all);
      CatalogAt(p, files, k);
      hide CatalogOf;
      assert k !in CacheCatalog(p, entries) && k in CatalogOf(p, files);
    } else {
      hide CatalogOf, CacheCatalog, HasPath, Loads, WellNamed;
      LoadedAgrees(p, files, all, entries);
    }
  }

  /** What the file of a key reads back as, with a new access time. */
  ghost function Recalled(p: Platform, files: Files, key: string, now: int): Option<Entry> {
    if Loads(files, Path(key)) then Some(ReadBack(p, files[Path(key)].entry).(lastAccessed := now)) else None
  }

  /** The recalled entry's file holds it again - or was left alone, if the operating system failed - and no other file
      but its temporary one changed. */
  ghost predicate Refreshed(files: Files, files': Files, r: Option<Entry>, works: bool) {
    match r
    case None => files' == files
    case Some(e) =>
      || Directory.OnlyDiffersAt(files', files[Path(e.key) := Json(e)], Temp(e.key))
      || (!works && Directory.OnlyDiffersAt(files', files, Temp(e.key)))
  }

  // ---------------------------------------------------------------- answers

  /** strings.TrimSpace(query) == "" */
  predicate Blank(p: Platform, query: string) {
    forall c | c in query :: p.isSpace(c)
  }

  /** The full answer to a query, read off a catalog by a naive scan: every key in order for a blank query,
      otherwise the BM25 ranking of the entries sharing a token with it. */
  ghost predicate FullAnswer(p: Platform, cat: Catalog, query: string, keys: seq<string>) {
    if Blank(p, query) then Elements(keys) == cat.Keys && Ascending(StrLess, keys)
    else IsRanking(p, DocsOf(cat), Elements(Tokens(p, query)), keys)
  }

  ghost predicate IsAnswer(p: Platform, cat: Catalog, query: string, limit: int, keys: seq<string>) {
    exists full :: FullAnswer(p, cat, query, full) && keys == Cut(full, limit)
  }

  /** A catalog has one answer to a query: map iteration order, caching and indexing cannot show. */
  lemma AnswerUnique(p: Platform, cat: Catalog, query: string, limit: int, a: seq<string>, b: seq<string>)
    requires IsAnswer(p, cat, query, limit, a) && IsAnswer(p, cat, query, limit, b)
    ensures a == b
  {
    var x :| FullAnswer(p, cat, query, x) && a == Cut(x, limit);
    var y :| FullAnswer(p, cat, query, y) && b == Cut(y, limit);
    if Blank(p, query) {
      StrLessStrict();
      AscendingUnique(StrLess, x, y);
    } else {
      RankingUnique(p, DocsOf(cat), Elements(Tokens(p, query)), x, y);
    }
  }

  /** What a search answers. A blank query finds every entry, in order of the keys; any other exactly those sharing a
      token with it. A positive limit keeps the front of that listing, as much of it as there is. */
  lemma AnswerIs(p: Platform, cat: Catalog, query: string, limit: int, keys: seq<string>, k: string)
    requires IsAnswer(p, cat, query, limit, keys)
    ensures k in keys ==> Found(p, cat, query, k)
    ensures limit <= 0 ==> (k in keys <==> Found(p, cat, query, k))
    ensures limit > 0 ==> |keys| <= limit && (|keys| < limit ==> (k in keys <==> Found(p, cat, query, k)))
    ensures (forall c | c in query :: p.isSpace(c)) ==> Ascending(StrLess, keys)
  {
    var full :| FullAnswer(p, cat, query, full) && keys == Cut(full, limit);
    CutIs(full, limit);
    assert k in full <==> k in Elements(full);
    assert k in keys ==> k in full;
    if !Blank(p, query) {
      RankingFinds(p, DocsOf(cat), Elements(Tokens(p, query)), full, k);
    }
    hide Cut, IsRanking, Tokens, StrLess;
  }

  ghost predicate Found(p: Platform, cat: Catalog, query: string, k: string) {
    && k in cat
    && ((forall c | c in query :: p.isSpace(c)) || exists t :: t in Tokens(p, query) && t in cat[k].words)
  }

  function EntryKeys(es: seq<Entry>): seq<string> {
    seq(|es|, i requires 0 <= i < |es| => es[i].key)
  }

  /** The results carry the content stored under their keys. */
  ghost predicate AreStored(p: Platform, cat: Catalog, es: seq<Entry>) {
    forall e | e in es :: e.key in cat && Cached(p, e) == cat[e.key]
  }

  /** The results are the cached entries themselves. */
  ghost predicate FromCache(entries: map<string, Entry>, es: seq<Entry>) {
    forall e | e in es :: e.key in entries && e == entries[e.key]
  }

  /** What loading has made true, with the directory reduced to its catalog. */
  ghost predicate Mirrors(p: Platform, entries: map<string, Entry>, docs: Docs, cat: Catalog) {
    && entries.Keys == cat.Keys
    && docs == DocsOf(cat)
    && forall k | k in entries :: entries[k].key == k && Cached(p, entries[k]) == cat[k]
  }

  lemma AgreeingMirrors(p: Platform, entries: map<string, Entry>, docs: Docs, files: Files)
    requires AllAgree(p, entries, true, docs, files)
    ensures WellNamed(files) && NoEmpty(docs) && Mirrors(p, entries, docs, CatalogOf(p, files))
  {
    assert entries.Keys == CacheCatalog(p, entries).Keys;
  }

  lemma MirroredKeys(p: Platform, entries: map<string, Entry>, docs: Docs, cat: Catalog)
    requires Mirrors(p, entries, docs, cat)
    ensures entries.Keys == cat.Keys && docs == DocsOf(cat) && docs.Keys <= entries.Keys
    ensures forall k | k in entries :: entries[k].key == k
  {
  }

  lemma CachedAreStored(p: Platform, entries: map<string, Entry>, docs: Docs, cat: Catalog, es: seq<Entry>)
    requires Mirrors(p, entries, docs, cat) && FromCache(entries, es)
    ensures AreStored(p, cat, es)
    ensures forall n | 0 <= n <= |es| :: AreStored(p, cat, es[..n])
  {
  }

  lemma BlankAnswer(p: Platform, cat: Catalog, query: string, limit: int, keys: seq<string>)
    requires Blank(p, query) && Elements(keys) == cat.Keys && Ascending(StrLess, keys)
    ensures IsAnswer(p, cat, query, limit, Cut(keys, limit))
  {
    assert FullAnswer(p, cat, query, keys);
  }

  lemma RankedAnswer(p: Platform, cat: Catalog, query: string, limit: int, keys: seq<string>)
    requires !Blank(p, query) && IsRanking(p, DocsOf(cat), Elements(Tokens(p, query)), keys)
    ensures IsAnswer(p, cat, query, limit, Cut(keys, limit))
  {
    assert FullAnswer(p, cat, query, keys);
  }

  /** A query of stopwords and separators matches nothing. */
  lemma NoTokensAnswer(p: Platform, cat: Catalog, query: string, limit: int)
    requires !Blank(p, query) && Tokens(p, query) == []
    ensures IsAnswer(p, cat, query, limit, [])
  {
    assert Matching(DocsOf(cat), Elements(Tokens(p, query))) == {};
    assert IsRanking(p, DocsOf(cat), Elements(Tokens(p, query)), []);
    RankedAnswer(p, cat, query, limit, []);
  }

  lemma CutKeys(ranked: seq<ScoredDoc>, limit: int)
    ensures Cut(HitKeys(ranked), limit) == HitKeys(Cut(ranked, limit))
    ensures Cut(ranked, limit) == if limit > 0 && |ranked| > limit then ranked[..limit] else ranked
  {
  }

  /** strings.ToLower on both sides, as in `SearchByTag`. */
  ghost predicate SomeTag(p: Platform, tags: seq<string>, tag: string) {
    exists t | t in tags :: Lowered(p, t) == Lowered(p, tag)
  }

  method HasLowerTag(p: Platform, tags: seq<string>, tag: string) returns (hit: bool)
    ensures hit <==> SomeTag(p, tags, tag)
  {
    for i := 0 to |tags|
      invariant !SomeTag(p, tags[..i], tag)
    {
      if Lowered(p, tags[i]) == Lowered(p, tag) {
        return true;
      }
      assert tags[..i + 1] == tags[..i] + [tags[i]];
    }
    assert tags[..|tags|] == tags;
    return false;
  }

  ghost function Tagged(p: Platform, cat: Catalog, tag: string): set<string> {
    set k | k in cat && SomeTag(p, cat[k].entry.tags, tag)
  }

  /** Every key carrying the tag, in order. */
  ghost predicate IsTagAnswer(p: Platform, cat: Catalog, tag: string, keys: seq<string>) {
    Elements(keys) == Tagged(p, cat, tag) && Ascending(StrLess, keys)
  }

  /** What a tag search answers: the keys of the entries that have the tag in some spelling, in order. */
  lemma TagAnswerIs(p: Platform, cat: Catalog, tag: string, keys: seq<string>, k: string)
    requires IsTagAnswer(p, cat, tag, keys)
    ensures k in keys <==> k in cat && exists t :: t in cat[k].entry.tags && SameLowered(p, t, tag)
    ensures forall i, j | 0 <= i < j < |keys| :: StrLess(keys[i], keys[j])
  {
    assert k in keys <==> k in Elements(keys);
    forall t ensures SameLowered(p, t, tag) <==> Lowered(p, t) == Lowered(p, tag) {
      if SameLowered(p, t, tag) {
        assert Lowered(p, t) == Lowered(p, tag);
      } else if |t| == |tag| {
        var i :| 0 <= i < |t| && p.lower(t[i]) != p.lower(tag[i]);
        assert Lowered(p, t)[i] != Lowered(p, tag)[i];
      }
    }
    hide Lowered, StrLess, SameLowered;
  }

  /** Equal but for upper and lower case. */
  ghost predicate SameLowered(p: Platform, a: string, b: string) {
    |a| == |b| && forall i | 0 <= i < |a| :: p.lower(a[i]) == p.lower(b[i])
  }

  lemma MirroredTags(p: Platform, entries: map<string, Entry>, docs: Docs, cat: Catalog, tag: string)
    requires Mirrors(p, entries, docs, cat)
    ensures Tagged(p, cat, tag) == (set k | k in entries && SomeTag(p, entries[k].tags, tag)) <= entries.Keys
    ensures forall k | k in entries :: entries[k].key == k
  {
    forall k | k in entries ensures entries[k].tags == cat[k].entry.tags {
      assert Cached(p, entries[k]) == cat[k];
    }
  }

  /** The order `SearchTopN` sorts by. */
  predicate BetterHit(a: ScoredDoc, b: ScoredDoc) {
    a.score > b.score || (a.score == b.score && StrLess(a.key, b.key))
  }

  method SortHits(hits: seq<ScoredDoc>) returns (ranked: seq<ScoredDoc>)
    requires Distinct(HitKeys(hits))
    ensures Ascending(BetterHit, ranked) && Elements(ranked) == Elements(hits)
  {
    BetterHitIsStrict(hits);
    ranked := SortDistinct(BetterHit, hits);
  }

  lemma BetterHitIsStrict(hits: seq<ScoredDoc>)
    requires Distinct(HitKeys(hits))
    ensures StrictOn(BetterHit, Elements(hits))
    ensures forall i, j | 0 <= i < j < |hits| :: hits[i] != hits[j]
  {
    StrLessStrict();
    forall i, j | 0 <= i < j < |hits| ensures hits[i].key != hits[j].key {
      assert HitKeys(hits)[i] != HitKeys(hits)[j];
    }
    forall a, b | a in Elements(hits) && b in Elements(hits) && a != b ensures a.key != b.key {
      var i :| 0 <= i < |hits| && hits[i] == a;
      var j :| 0 <= j < |hits| && hits[j] == b;
    }
  }

  /** Sorted hits are the ranking. */
  lemma RankedHits(p: Platform, docs: Docs, terms: set<string>, hits: seq<ScoredDoc>, ranked: seq<ScoredDoc>)
    requires NoEmpty(docs) && AreHits(p, docs, terms, hits)
    requires Ascending(BetterHit, ranked) && Elements(ranked) == Elements(hits)
    ensures IsRanking(p, docs, terms, HitKeys(ranked))
    ensures forall i | 0 <= i < |ranked| :: ranked[i].key in docs
  {
    forall i | 0 <= i < |ranked|
      ensures ranked[i].key in docs && ranked[i].score == Relevance(p, docs, terms, ranked[i].key)
    {
      assert ranked[i] in Elements(ranked) && ranked[i] in hits;
    }
    forall k ensures k in Elements(HitKeys(ranked)) <==> k in Elements(HitKeys(hits)) {
      if k in HitKeys(ranked) {
        var i :| 0 <= i < |ranked| && HitKeys(ranked)[i] == k;
        assert ranked[i] in Elements(ranked);
        var j :| 0 <= j < |hits| && hits[j] == ranked[i];
        assert HitKeys(hits)[j] == k;
      }
      if k in HitKeys(hits) {
        var i :| 0 <= i < |hits| && HitKeys(hits)[i] == k;
        assert hits[i] in Elements(hits) && hits[i] in ranked;
        var j :| 0 <= j < |ranked| && ranked[j] == hits[i];
        assert HitKeys(ranked)[j] == k;
      }
    }
  }

  lemma ByKeyIsStrict(list: seq<Entry>)
    requires Distinct(EntryKeys(list))
    ensures StrictOn((a: Entry, b: Entry) => StrLess(a.key, b.key), Elements(list))
    ensures forall i, j | 0 <= i < j < |list| :: list[i] != list[j]
  {
    StrLessStrict();
    forall i, j | 0 <= i < j < |list| ensures list[i].key != list[j].key {
      assert EntryKeys(list)[i] != EntryKeys(list)[j];
    }
    forall a, b | a in Elements(list) && b in Elements(list) && a != b ensures a.key != b.key {
      var i :| 0 <= i < |list| && list[i] == a;
      var j :| 0 <= j < |list| && list[j] == b;
    }
  }

  lemma SameElementsSameKeys(a: seq<Entry>, b: seq<Entry>)
    requires Elements(a) == Elements(b)
    requires Ascending((a: Entry, b: Entry) => StrLess(a.key, b.key), b)
    ensures Elements(EntryKeys(a)) == Elements(EntryKeys(b)) && Ascending(StrLess, EntryKeys(b))
    ensures forall e | e in b :: e in a
  {
    KeysIncluded(a, b);
    KeysIncluded(b, a);
    assert forall e | e in b :: e in Elements(b);
  }

  lemma KeysIncluded(a: seq<Entry>, b: seq<Entry>)
    requires Elements(a) <= Elements(b)
    ensures Elements(EntryKeys(a)) <= Elements(EntryKeys(b))
  {
    forall k | k in EntryKeys(a) ensures k in EntryKeys(b) {
      var i :| 0 <= i < |a| && EntryKeys(a)[i] == k;
      assert a[i] in Elements(a) && a[i] in b;
      var j :| 0 <= j < |b| && b[j] == a[i];
      assert EntryKeys(b)[j] == k;
    }
  }

  // ---------------------------------------------------------------- the store

  class LongTermMemory {
    const p: Platform
    const dir: Directory
    const idx: InvertedIndex
    var loaded: bool
    var entries: map<string, Entry>

    /** Index and cache are in sync, whatever the directory holds. */
    ghost predicate Synced()
      reads this, idx
    {
      p.Lawful() && idx.Valid() && InSync(p, entries, idx.docs)
    }

    /** Index, cache and directory agree. */
    ghost predicate Valid()
      reads this, idx, dir`files
      ensures Valid() ==> WellNamed(dir.files)
    {
      p.Lawful() && idx.Valid() && AllAgree(p, entries, loaded, idx.docs, dir.files)
    }

    /** What a rescan of the directory would find now. */
    ghost function Stored(): Catalog
      requires WellNamed(dir.files)
      reads dir`files
    {
      CatalogOf(p, dir.files)
    }

    /** A process starting on an existing directory: nothing is read until first use. */
    constructor (p: Platform, dir: Directory)
      requires p.Lawful() && WellNamed(dir.files)
      ensures Valid() && this.p == p && this.dir == dir && fresh(idx) && !loaded
    {
      this.p, this.dir := p, dir;
      idx := new InvertedIndex();
      loaded, entries := false, map[];
      new;
      assert CacheCatalog(p, entries) == map[];
      assert DocsOf(map[]) == map[];
    }

    /** Parse every entry file, in whatever order the directory lists them. */
    method LoadAll() returns (ok: bool, all: seq<Entry>)
      requires WellNamed(dir.files)
      ensures ok ==> ReadFrom(p, dir.files, dir.files.Keys, all)
      ensures dir.works ==> ok
    {
      all := [];
      ok := *;
      ok := ok || dir.works;
      if !ok {
        return;
      }
      var todo := dir.files.Keys;
      while todo != {}
        invariant todo <= dir.files.Keys
        invariant ReadFrom(p, dir.files, dir.files.Keys - todo, all)
      {
        var name :| name in todo;
        ReadOneMore(p, dir.files, dir.files.Keys - todo, all, name);
        if IsEntryFile(name) && dir.files[name].Json? {
          all := all + [ReadBack(p, dir.files[name].entry)];
        }
        assert dir.files.Keys - (todo - {name}) == dir.files.Keys - todo + {name};
        todo := todo - {name};
      }
      assert dir.files.Keys - todo == dir.files.Keys;
    }

    /** Persist an entry under `key`. `json` is the value's JSON text, if it has one. Everything agrees
        afterwards exactly when the key's file was not holding another key's entry. */
    method Store(key: string, json: Option<string>, tags: seq<string>, now: int) returns (ok: bool)
      requires Valid()
      modifies this, idx, dir`files, dir`history
      ensures Synced() && WellNamed(dir.files)
      ensures !ok ==> Valid() && Stored() == old(Stored())
      ensures dir.works && json.Some? ==> ok
      ensures ok ==> json.Some? && loaded && key in entries && entries[key] == Entry(key, json.value, tags, now, now)
      ensures ok && old(loaded) ==> entries == old(entries)[key := Entry(key, json.value, tags, now, now)]
      ensures ok ==> Directory.OnlyDiffersAt(dir.files,
        old(dir.files)[Path(key) := Json(Entry(key, json.value, tags, now, now))], Temp(key))
      ensures !ok ==> Directory.OnlyDiffersAt(dir.files, old(dir.files), Temp(key))
      ensures ok ==>
        Stored() == old(Evicted(p, dir.files, key))[key := Meaning(p, Entry(key, json.value, tags, now, now))]
      ensures Valid() <==> !(ok && (old(Clash(dir.files, key)) || !Survives(p, json.value)))
      ensures CrashSafe(old(dir.history), dir.history, old(dir.files), dir.files)
    {
      hide InSync, Describes, CatalogOf, WellNamed, Meaning, Evicted, Clash, CacheCatalog;
      ok := EnsureLoaded();
      var made: bool := *;
      if !ok || (!made && !dir.works) || json.None? {
        return false;
      }
      var entry := Entry(key, json.value, tags, now, now);
      StoreAgreement(p, entries, dir.files, entry);
      ok := Persist(entry);
      if ok {
        CacheOver(entry);
      }
    }

    /** The file writes of `Store`: a temporary file renamed into place, and removed if that fails. */
    method Persist(entry: Entry) returns (ok: bool)
      requires WellNamed(dir.files)
      modifies dir`files, dir`history
      ensures WellNamed(dir.files) && (dir.works ==> ok)
      ensures CatalogOf(p, dir.files) ==
        if ok then old(Evicted(p, dir.files, entry.key)[entry.key := Meaning(p, entry)])
        else old(CatalogOf(p, dir.files))
      ensures CrashSafe(old(dir.history), dir.history, old(dir.files), dir.files)
      ensures Directory.OnlyDiffersAt(dir.files,
        if ok then old(dir.files)[Path(entry.key) := Json(entry)] else old(dir.files), Temp(entry.key))
    {
      hide CatalogOf, WellNamed, Meaning, Evicted, SameEntries;
      ghost var before := dir.files;
      var r := dir.ReplaceEntry(p, entry);
      if r == RenameFailed {
        var _ := dir.Remove(Temp(entry.key));
        TempStateReadsBack(before, dir.files, entry.key);
        OnlyEntryFilesMatter(p, before, dir.files);
      }
      ok := r == Renamed;
    }

    /** Read an entry back from disk, refreshing its access time there (best effort) and in the cache. */
    method Recall(key: string, now: int) returns (r: Option<Entry>)
      requires Valid()
      modifies this`entries, dir`files, dir`history
      ensures WellNamed(dir.files) && Stored() == old(Stored())
      ensures r == Recalled(p, old(dir.files), key, now)
      ensures entries == if r.Some? && loaded then old(entries)[key := r.value] else old(entries)
      ensures Refreshed(old(dir.files), dir.files, r, dir.works)
      ensures Valid() <==> !(loaded && old(Clash(dir.files, key)))
      ensures CrashSafe(old(dir.history), dir.history, old(dir.files), dir.files)
    {
      hide AllAgree, Describes, CatalogOf, WellNamed, Clash, Path, Loads, ReadBack, CrashSafe;
      r := Reread(key, now);
      RecallAgreement(p, entries, idx.docs, loaded, old(dir.files), dir.files, key, r, now);
      if r.Some? && loaded {
        entries := entries[key := r.value];
      }
    }

    /** Read an entry back from its file and rewrite the file with the new access time. */
    method Reread(key: string, now: int) returns (r: Option<Entry>)
      requires p.Lawful() && WellNamed(dir.files)
      modifies dir`files, dir`history
      ensures WellNamed(dir.files) && CatalogOf(p, dir.files) == old(CatalogOf(p, dir.files))
      ensures r == Recalled(p, old(dir.files), key, now)
      ensures Refreshed(old(dir.files), dir.files, r, dir.works)
      ensures CrashSafe(old(dir.history), dir.history, old(dir.files), dir.files)
    {
      PathIsEntryFile(key);
      r := None;
      if Path(key) in dir.files && dir.files[Path(key)].Json? {
        hide CatalogOf, WellNamed, CrashSafe;
        var entry := ReadBack(p, dir.files[Path(key)].entry).(lastAccessed := now);
        RecalledEntry(p, dir.files, key, entry, now);
        Refresh(entry);
        r := Some(entry);
      }
    }

    /** The best-effort rewrite of a recalled entry. */
    method Refresh(entry: Entry)
      requires WellNamed(dir.files)
      requires Evicted(p, dir.files, entry.key)[entry.key := Meaning(p, entry)] == CatalogOf(p, dir.files)
      modifies dir`files, dir`history
      ensures WellNamed(dir.files) && CatalogOf(p, dir.files) == old(CatalogOf(p, dir.files))
      ensures CrashSafe(old(dir.history), dir.history, old(dir.files), dir.files)
      ensures Refreshed(old(dir.files), dir.files, Some(entry), dir.works)
    {
      hide CatalogOf, WellNamed, Meaning, Evicted, SameEntries, Directory.OnlyDiffersAt;
      var _ := dir.ReplaceEntry(p, entry);
    }

    /** Delete the entry of a key. */
    method Forget(key: string) returns (ok: bool)
      requires Valid()
      modifies this, idx, dir`files, dir`history
      ensures Synced() && WellNamed(dir.files)
      ensures !ok ==> Valid() && Stored() == old(Stored())
      ensures dir.works && Path(key) in old(dir.files) ==> ok
      ensures ok ==> loaded && Path(key) in old(dir.files) && Stored() == old(Evicted(p, dir.files, key))
      ensures ok && old(loaded) ==> entries == old(entries) - {key}
      ensures dir.files == if ok then old(dir.files) - {Path(key)} else old(dir.files)
      ensures Valid() <==> !(ok && old(Clash(dir.files, key)))
      ensures CrashSafe(old(dir.history), dir.history, old(dir.files), dir.files)
    {
      hide InSync, Describes, CatalogOf, WellNamed, Meaning, Evicted, Clash, CacheCatalog, Path;
      ok := EnsureLoaded();
      if !ok {
        return false;
      }
      ForgetAgreement(p, entries, idx.docs, dir.files, key);
      ok := dir.Remove(Path(key));
      if ok {
        idx.Remove(key);
        entries := entries - {key};
      }
    }

    /** The entries relevant to a query, best first, at most `limit` of them when that is positive: exactly what
        a naive scan of the directory would answer. */
    method SearchTopN(query: string, limit: int) returns (ok: bool, results: seq<Entry>)
      requires Valid()
      modifies this, idx
      ensures Valid() && (dir.works ==> ok)
      ensures ok ==> IsAnswer(p, Stored(), query, limit, EntryKeys(results))
      ensures ok ==> AreStored(p, Stored(), results) && FromCache(entries, results)
    {
      results := [];
      ok := EnsureLoaded();
      if ok {
        AgreeingMirrors(p, entries, idx.docs, dir.files);
        hide AllAgree, Describes, CatalogOf, WellNamed, AreStored, Mirrors, IsAnswer, NoEmpty;
        var blank := IsBlank(query);
        if blank {
          results := BlankSearch(query, limit, Stored());
        } else {
          results := RankedSearch(query, limit, Stored());
        }
      }
    }

    /** A blank query: every entry, by key, without ranking. */
    method BlankSearch(query: string, limit: int, ghost cat: Catalog) returns (results: seq<Entry>)
      requires Blank(p, query) && Mirrors(p, entries, idx.docs, cat)
      ensures IsAnswer(p, cat, query, limit, EntryKeys(results)) && AreStored(p, cat, results)
      ensures FromCache(entries, results)
    {
      hide DocsOf, AreStored, Mirrors, IsAnswer;
      MirroredKeys(p, entries, idx.docs, cat);
      results := SortedEntries(entries.Keys);
      CachedAreStored(p, entries, idx.docs, cat, results);
      BlankAnswer(p, cat, query, limit, EntryKeys(results));
      assert EntryKeys(Cut(results, limit)) == Cut(EntryKeys(results), limit);
      if limit > 0 && |results| > limit {
        results := results[..limit];
      }
    }

    /** Any other query: the index scores, the scores are sorted and cut, the cache resolves. */
    method RankedSearch(query: string, limit: int, ghost cat: Catalog) returns (results: seq<Entry>)
      requires !Blank(p, query) && idx.Valid() && NoEmpty(idx.docs) && Mirrors(p, entries, idx.docs, cat)
      ensures IsAnswer(p, cat, query, limit, EntryKeys(results)) && AreStored(p, cat, results)
      ensures FromCache(entries, results)
    {
      hide Describes, DocsOf, AreStored, Mirrors, IsAnswer, Cut, NoEmpty;
      MirroredKeys(p, entries, idx.docs, cat);
      var tokens := Tokenize(p, query);
      var ranked: seq<ScoredDoc> := [];
      if |tokens| == 0 {
        NoTokensAnswer(p, cat, query, limit);
      } else {
        ranked := Ranked(tokens);
        RankedAnswer(p, cat, query, limit, HitKeys(ranked));
        CutKeys(ranked, limit);
        if limit > 0 && |ranked| > limit {
          ranked := ranked[..limit];
        }
      }
      results := Resolve(ranked);
      CachedAreStored(p, entries, idx.docs, cat, results);
    }

    /** Score, then sort by score descending and key ascending. */
    method Ranked(tokens: seq<string>) returns (ranked: seq<ScoredDoc>)
      requires idx.Valid() && NoEmpty(idx.docs)
      ensures IsRanking(p, idx.docs, Elements(tokens), HitKeys(ranked))
      ensures forall i | 0 <= i < |ranked| :: ranked[i].key in idx.docs
    {
      var scored := idx.Score(p, tokens);
      ranked := SortHits(scored);
      RankedHits(p, idx.docs, Elements(tokens), scored, ranked);
    }

    method IsBlank(query: string) returns (b: bool)
      ensures b <==> Blank(p, query)
    {
      for i := 0 to |query|
        invariant forall c | c in query[..i] :: p.isSpace(c)
      {
        if !p.isSpace(query[i]) {
          return false;
        }
        assert query[..i + 1] == query[..i] + [query[i]];
      }
      assert query[..|query|] == query;
      return true;
    }

    /** Every entry carrying a tag, compared in lower case, by key. */
    method SearchByTag(tag: string) returns (ok: bool, results: seq<Entry>)
      requires Valid()
      modifies this, idx
      ensures Valid() && (dir.works ==> ok)
      ensures ok ==> IsTagAnswer(p, Stored(), tag, EntryKeys(results))
      ensures ok ==> AreStored(p, Stored(), results) && FromCache(entries, results)
      ensures old(loaded) ==> loaded && entries == old(entries)
    {
      results := [];
      ok := EnsureLoaded();
      if ok {
        AgreeingMirrors(p, entries, idx.docs, dir.files);
        hide AllAgree, Describes, CatalogOf, WellNamed, AreStored, Mirrors, Tagged;
        results := TagSearch(tag, Stored());
      }
    }

    method KeysTagged(tag: string) returns (found: set<string>)
      ensures found == set k | k in entries && SomeTag(p, entries[k].tags, tag)
    {
      found := {};
      var todo := entries.Keys;
      while todo != {}
        invariant todo <= entries.Keys
        invariant found == set k | k in entries.Keys - todo && SomeTag(p, entries[k].tags, tag)
      {
        var k :| k in todo;
        var hit := HasLowerTag(p, entries[k].tags, tag);
        if hit {
          found := found + {k};
        }
        todo := todo - {k};
      }
    }

    method TagSearch(tag: string, ghost cat: Catalog) returns (results: seq<Entry>)
      requires Mirrors(p, entries, idx.docs, cat)
      ensures IsTagAnswer(p, cat, tag, EntryKeys(results))
      ensures AreStored(p, cat, results) && FromCache(entries, results)
    {
      var found := KeysTagged(tag);
      MirroredTags(p, entries, idx.docs, cat, tag);
      hide Mirrors, AreStored, SomeTag, Tagged;
      results := SortedEntries(found);
      CachedAreStored(p, entries, idx.docs, cat, results);
    }

    /** The cached entries of the keys `ks`, by key: range over a map, then sort.Slice. */
    method SortedEntries(ks: set<string>) returns (results: seq<Entry>)
      requires ks <= entries.Keys
      requires forall k | k in entries :: entries[k].key == k
      ensures Elements(EntryKeys(results)) == ks && Ascending(StrLess, EntryKeys(results))
      ensures FromCache(entries, results)
    {
      var list: seq<Entry> := [];
      var todo := ks;
      while todo != {}
        invariant todo <= ks
        invariant Elements(EntryKeys(list)) == ks - todo && Distinct(EntryKeys(list))
        invariant forall e | e in list :: e.key in entries && e == entries[e.key]
      {
        var k :| k in todo;
        assert k !in Elements(EntryKeys(list));
        assert EntryKeys(list + [entries[k]]) == EntryKeys(list) + [k];
        assert Elements(EntryKeys(list) + [k]) == Elements(EntryKeys(list)) + {k};
        list := list + [entries[k]];
        todo := todo - {k};
      }
      ByKeyIsStrict(list);
      results := SortDistinct((a: Entry, b: Entry) => StrLess(a.key, b.key), list);
      SameElementsSameKeys(list, results);
    }

    /** Resolve index hits through the cache. None is dropped: every indexed key is cached. */
    method Resolve(hits: seq<ScoredDoc>) returns (results: seq<Entry>)
      requires forall i | 0 <= i < |hits| :: hits[i].key in entries
      requires forall k | k in entries :: entries[k].key == k
      ensures EntryKeys(results) == HitKeys(hits)
      ensures FromCache(entries, results)
    {
      results := [];
      for i := 0 to |hits|
        invariant EntryKeys(results) == HitKeys(hits[..i])
        invariant forall e | e in results :: e.key in entries && e == entries[e.key]
      {
        assert HitKeys(hits[..i + 1]) == HitKeys(hits[..i]) + [hits[i].key];
        if hits[i].key in entries {
          assert EntryKeys(results + [entries[hits[i].key]]) == EntryKeys(results) + [hits[i].key];
          results := results + [entries[hits[i].key]];
        }
      }
      assert hits[..|hits|] == hits;
    }

    /** Populate cache and index from disk on first use. The bare `Add` is sound: no key is read twice. */
    method EnsureLoaded() returns (ok: bool)
      requires Valid()
      modifies this, idx
      ensures Valid() && (ok ==> loaded) && (dir.works ==> ok)
      ensures !ok || old(loaded) ==> loaded == old(loaded) && entries == old(entries)
    {
      if loaded {
        return true;
      }
      var all;
      ok, all := LoadAll();
      if !ok {
        return;
      }
      Cache(all);
      LoadedAgrees(p, dir.files, all, entries);
      loaded := true;
    }

    method Cache(all: seq<Entry>)
      requires Synced() && entries == map[]
      requires forall i, j | 0 <= i < j < |all| :: all[i].key != all[j].key
      modifies this`entries, idx
      ensures Synced() && entries.Keys == KeysOf(all)
      ensures forall i | 0 <= i < |all| :: entries[all[i].key] == all[i]
    {
      hide Valid, InSync, Describes;
      for i := 0 to |all|
        invariant Synced() && entries.Keys == KeysOf(all[..i])
        invariant forall j | 0 <= j < i :: entries[all[j].key] == all[j]
      {
        KeysOfStep(all, i);
        CacheNew(all[i]);
      }
      assert all[..|all|] == all;
    }

    /** Cache and index an entry whose key is new: the loop body of loading. */
    method CacheNew(e: Entry)
      requires Synced() && e.key !in entries
      modifies this`entries, idx
      ensures Synced() && entries == old(entries)[e.key := e]
    {
      SyncAfterStore(p, entries, idx.docs, e);
      NotCachedNotIndexed(p, entries, idx.docs, e.key);
      hide InSync, Describes;
      entries := entries[e.key := e];
      var text := DocumentText(e);
      var tokens := Tokenize(p, text);
      idx.Add(e.key, tokens);
    }

    /** Cache and re-index an entry: the last two writes of `Store`. */
    method CacheOver(e: Entry)
      requires Synced()
      modifies this`entries, idx
      ensures Synced() && entries == old(entries)[e.key := e]
    {
      SyncAfterStore(p, entries, idx.docs, e);
      hide InSync, Describes;
      entries := entries[e.key := e];
      var text := DocumentText(e);
      var tokens := Tokenize(p, text);
      idx.Update(e.key, tokens);
    }
  }

  lemma StoreAgreement(p: Platform, entries: map<string, Entry>, files: Files, e: Entry)
    requires p.Lawful() && WellNamed(files) && CacheCatalog(p, entries) == CatalogOf(p, files)
    ensures CacheCatalog(p, entries[e.key := e]) == Evicted(p, files, e.key)[e.key := Meaning(p, e)]
      <==> !Clash(files, e.key) && Survives(p, e.value)
  {
    CacheAfterPut(p, entries, e.key, e);
    WriteKeepsOthersIff(p, files, e.key, Meaning(p, e));
    CachedAsStoredIff(p, e);
    hide CacheCatalog, CatalogOf, Evicted, Clash, Survives, Meaning, Cached;
    var cached, stored := CacheCatalog(p, entries[e.key := e]), Evicted(p, files, e.key)[e.key := Meaning(p, e)];
    assert cached[e.key] == Cached(p, e) && stored[e.key] == Meaning(p, e);
  }

  lemma ForgetAgreement(p: Platform, entries: map<string, Entry>, docs: Docs, files: Files, key: string)
    requires WellNamed(files) && CacheCatalog(p, entries) == CatalogOf(p, files) && InSync(p, entries, docs)
    ensures WellNamed(files - {Path(key)})
    ensures CatalogOf(p, files - {Path(key)}) == Evicted(p, files, key)
    ensures CacheCatalog(p, entries - {key}) == Evicted(p, files, key) <==> !Clash(files, key)
    ensures InSync(p, entries - {key}, docs - {key})
  {
    CatalogAfterRemove(p, files, key);
    CacheAfterDelete(p, entries, key);
    RemoveKeepsOthersIff(p, files, key);
    SyncAfterForget(p, entries, docs, key);
  }

  lemma RecalledEntry(p: Platform, files: Files, key: string, e: Entry, now: int)
    requires p.Lawful() && WellNamed(files)
    requires Loads(files, Path(key)) && e == ReadBack(p, files[Path(key)].entry).(lastAccessed := now)
    ensures e.key == files[Path(key)].entry.key && Path(e.key) == Path(key)
    ensures Meaning(p, e) == Meaning(p, files[Path(key)].entry)
    ensures Evicted(p, files, e.key)[e.key := Meaning(p, e)] == CatalogOf(p, files)
  {
    MeaningOfReadBack(p, files[Path(key)].entry, now);
    RewriteKeepsCatalog(p, files, e);
  }

  lemma RecallAgreement(p: Platform, entries: map<string, Entry>, docs: Docs, loaded: bool,
                        files: Files, files': Files, key: string, r: Option<Entry>, now: int)
    requires p.Lawful() && AllAgree(p, entries, loaded, docs, files)
    requires WellNamed(files') && CatalogOf(p, files') == CatalogOf(p, files)
    requires r == Recalled(p, files, key, now)
    ensures AllAgree(p, if r.Some? && loaded then entries[key := r.value] else entries, loaded, docs, files')
      <==> !(loaded && Clash(files, key))
  {
    PathIsEntryFile(key);
    if r.Some? && loaded {
      RecalledEntry(p, files, key, r.value, now);
      CachedReadBack(p, files[Path(key)].entry, now);
      CatalogAt(p, files, key);
      hide CatalogOf, Meaning, Cached, WellNamed, CacheCatalog;
      if r.value.key == key {
        CacheAt(p, entries, key);
        SyncAfterRecall(p, entries, docs, r.value);
      } else {
        assert entries[key := r.value][key].key != key;
      }
    }
  }

  lemma CacheAt(p: Platform, entries: map<string, Entry>, k: string)
    ensures k in entries <==> k in CacheCatalog(p, entries)
    ensures k in entries ==> CacheCatalog(p, entries)[k] == Cached(p, entries[k])
  {
  }

  lemma KeysOfStep(all: seq<Entry>, i: nat)
    requires i < |all|
    requires forall i, j | 0 <= i < j < |all| :: all[i].key != all[j].key
    ensures KeysOf(all[..i + 1]) == KeysOf(all[..i]) + {all[i].key}
    ensures all[i].key !in KeysOf(all[..i])
  {
    assert all[..i + 1] == all[..i] + [all[i]];
    forall k ensures k in KeysOf(all[..i + 1]) <==> k in KeysOf(all[..i]) || k == all[i].key {
      if k in KeysOf(all[..i]) {
        var j :| 0 <= j < i && all[..i][j].key == k;
        assert all[..i + 1][j].key == k;
      }
      assert all[..i + 1][i].key == all[i].key;
    }
  }

  lemma NotCachedNotIndexed(p: Platform, entries: map<string, Entry>, docs: Docs, k: string)
    requires InSync(p, entries, docs) && k !in entries
    ensures k !in docs
  {
  }
}
