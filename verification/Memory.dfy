/** Context search and directives on top of long-term memory (internal/memory/memory.go:93-197). */
module Memory {
  import opened Options
  import opened Text
  import opened Order
  import opened Corpus
  import opened Storage
  import opened Index
  import opened LongTerm
  import opened Runs

  const DIRECTIVE_TAG := "directive"

  function DirectiveKey(id: string): string {
    "directive:" + id
  }

  /** Directives of different ids are stored under different keys. */
  lemma DirectiveKeysDiffer(a: string, b: string)
    ensures DirectiveKey(a) == DirectiveKey(b) ==> a == b
  {
    assert DirectiveKey(a)[10..] == a && DirectiveKey(b)[10..] == b;
  }

  /** strings.EqualFold */
  predicate EqualFold(p: Platform, a: string, b: string) {
    |a| == |b| && forall i | 0 <= i < |a| :: p.fold(a[i]) == p.fold(b[i])
  }

  ghost predicate HasTag(p: Platform, tags: seq<string>, tag: string) {
    exists t | t in tags :: EqualFold(p, t, tag)
  }

  ghost predicate IsDirective(p: Platform, cat: Catalog, key: string) {
    key in cat && HasTag(p, cat[key].entry.tags, DIRECTIVE_TAG)
  }

  /** A listing without the directives in it. */
  ghost function Undirected(p: Platform, cat: Catalog, keys: seq<string>): seq<string> {
    if keys == [] then []
    else
      var n := |keys| - 1;
      Undirected(p, cat, keys[..n]) + (if IsDirective(p, cat, keys[n]) then [] else [keys[n]])
  }

  /** The full answer to the query, without its directives, and only then cut. */
  ghost predicate IsContextAnswer(p: Platform, cat: Catalog, query: string, limit: int, keys: seq<string>) {
    exists full :: FullAnswer(p, cat, query, full) && keys == Cut(Undirected(p, cat, full), limit)
  }

  lemma {:induction false} UndirectedElements(p: Platform, cat: Catalog, keys: seq<string>, k: string)
    ensures k in Undirected(p, cat, keys) <==> k in keys && !IsDirective(p, cat, k)
    decreases |keys|
  {
    if keys != [] {
      var n := |keys| - 1;
      assert keys == keys[..n] + [keys[n]];
      UndirectedElements(p, cat, keys[..n], k);
    }
  }

  /** Filtering keeps the order: what survives of a prefix is a prefix of what survives. */
  lemma {:induction false} UndirectedPrefix(p: Platform, cat: Catalog, keys: seq<string>, i: nat)
    requires i <= |keys|
    ensures Undirected(p, cat, keys[..i]) <= Undirected(p, cat, keys)
    decreases |keys|
  {
    if i < |keys| {
      assert keys[..|keys| - 1][..i] == keys[..i];
      UndirectedPrefix(p, cat, keys[..|keys| - 1], i);
    } else {
      assert keys[..i] == keys;
    }
  }

  lemma {:induction false} UndirectedDistinct(p: Platform, cat: Catalog, keys: seq<string>)
    requires Distinct(keys)
    ensures Distinct(Undirected(p, cat, keys))
    decreases |keys|
  {
    if keys != [] {
      var n := |keys| - 1;
      UndirectedDistinct(p, cat, keys[..n]);
      UndirectedElements(p, cat, keys[..n], keys[n]);
    }
  }

  lemma FullAnswerDistinct(p: Platform, cat: Catalog, query: string, full: seq<string>)
    requires FullAnswer(p, cat, query, full)
    ensures Distinct(full)
  {
    StrLessStrict();
  }

  /** No directive is ever in a context answer, and a hit that is no directive is in it exactly when fewer than
      `limit` hits that are no directives rank before it: directives displace nothing. */
  lemma NoDirectiveDisplaces(p: Platform, cat: Catalog, query: string, limit: int, full: seq<string>, i: nat)
    requires FullAnswer(p, cat, query, full) && i < |full|
    ensures var keys := Cut(Undirected(p, cat, full), limit);
      full[i] in keys <==>
        !IsDirective(p, cat, full[i]) && (limit <= 0 || |Undirected(p, cat, full[..i])| < limit)
  {
    FullAnswerDistinct(p, cat, query, full);
    hide FullAnswer;
    UndirectedElements(p, cat, full, full[i]);
    if !IsDirective(p, cat, full[i]) {
      UndirectedStep(p, cat, full, i);
      UndirectedPrefix(p, cat, full, i + 1);
      UndirectedDistinct(p, cat, full);
      hide Undirected, IsDirective, Cut, Distinct;
      InCut(Undirected(p, cat, full[..i]), full[i], Undirected(p, cat, full), limit);
    }
  }

  lemma UndirectedStep(p: Platform, cat: Catalog, keys: seq<string>, i: nat)
    requires i < |keys| && !IsDirective(p, cat, keys[i])
    ensures Undirected(p, cat, keys[..i + 1]) == Undirected(p, cat, keys[..i]) + [keys[i]]
  {
    assert keys[..i + 1][..i] == keys[..i];
  }

  lemma InCut<T>(before: seq<T>, x: T, all: seq<T>, limit: int)
    requires before + [x] <= all && Distinct(all)
    ensures x in Cut(all, limit) <==> limit <= 0 || |before| < limit
  {
    var n := |before|;
    assert all[n] == (before + [x])[n];
    if 0 < limit && n < limit {
      assert n < |Cut(all, limit)| && Cut(all, limit)[n] == x;
    }
  }

  // ---------------------------------------------------------------- directives

  datatype Directive = Directive(id: string, priority: int, description: string, immutable: bool)

  /** The JSON text of a directive, and the directive a JSON text stands for, if it stands for one. */
  datatype Codec = Codec(encode: Directive -> string, decode: string -> Option<Directive>) {
    /** Decoding undoes encoding. */
    ghost predicate Lawful() {
      forall d :: decode(encode(d)) == Some(d)
    }

    /** A value stands for the same directive once it has been read back. Not so a directive whose priority
        float64 cannot hold: it comes back with another one. */
    ghost predicate Keeps(p: Platform, value: string) {
      decode(p.reparse(value)) == decode(value)
    }
  }

  type Values = map<string, string>

  /** The values in the cache. */
  ghost function ValuesOf(entries: map<string, Entry>): Values {
    map k | k in entries :: entries[k].value
  }

  /** The values a restarted process finds. */
  ghost function StoredValues(cat: Catalog): Values {
    map k | k in cat :: cat[k].entry.value
  }

  /** The directives under the keys `keys`, leaving out what does not decode. */
  ghost function Decoded(codec: Codec, values: Values, keys: seq<string>): seq<Directive>
    requires forall k | k in keys :: k in values
  {
    if keys == [] then []
    else
      var n := |keys| - 1;
      Decoded(codec, values, keys[..n]) +
      match codec.decode(values[keys[n]]) case Some(d) => [d] case None => []
  }

  /** `ds` lists what `values` gives for the directives of a catalog, by key. */
  ghost predicate IsDirectiveList(p: Platform, codec: Codec, cat: Catalog, values: Values, ds: seq<Directive>) {
    exists keys :: IsTagAnswer(p, cat, DIRECTIVE_TAG, keys) && DecodesTo(codec, values, keys, ds)
  }

  ghost predicate DecodesTo(codec: Codec, values: Values, keys: seq<string>, ds: seq<Directive>) {
    (forall k | k in keys :: k in values) && ds == Decoded(codec, values, keys)
  }

  /** A directive stored under a listed key is in the list. */
  lemma {:induction false} DecodedHas(codec: Codec, values: Values, keys: seq<string>, k: string, d: Directive)
    requires forall k | k in keys :: k in values
    requires k in keys && codec.decode(values[k]) == Some(d)
    ensures d in Decoded(codec, values, keys)
    decreases |keys|
  {
    var n := |keys| - 1;
    if keys[n] != k {
      assert keys == keys[..n] + [keys[n]];
      DecodedHas(codec, values, keys[..n], k, d);
    }
  }

  lemma {:induction false} DecodedSame(codec: Codec, values: Values, values': Values, keys: seq<string>)
    requires forall k | k in keys :: k in values && k in values' && codec.decode(values[k]) == codec.decode(values'[k])
    ensures Decoded(codec, values, keys) == Decoded(codec, values', keys)
    decreases |keys|
  {
    if keys != [] {
      DecodedSame(codec, values, values', keys[..|keys| - 1]);
    }
  }

  /** Values and the values they are read back as list the same directives, whichever are asked for, exactly when
      every value stands for the same directive once it has been read back. */
  lemma ListsAlikeIff(p: Platform, codec: Codec, values: Values, values': Values)
    requires values.Keys == values'.Keys && forall k | k in values :: values'[k] == p.reparse(values[k])
    ensures (forall keys: seq<string> | (forall k | k in keys :: k in values) ::
               Decoded(codec, values, keys) == Decoded(codec, values', keys))
       <==> (forall k | k in values :: codec.Keeps(p, values[k]))
  {
    if forall k | k in values :: codec.Keeps(p, values[k]) {
      forall keys: seq<string> | (forall k | k in keys :: k in values)
        ensures Decoded(codec, values, keys) == Decoded(codec, values', keys)
      {
        DecodedSame(codec, values, values', keys);
      }
    } else {
      var k :| k in values && !codec.Keeps(p, values[k]);
      DecodedOne(codec, values, k);
      DecodedOne(codec, values', k);
      assert forall x | x in [k] :: x in values;
    }
  }

  /** So a restarted process lists the directives as the running one does exactly when all cached values keep. */
  lemma RestartListsAlikeIff(p: Platform, codec: Codec, entries: map<string, Entry>, cat: Catalog)
    requires entries.Keys == cat.Keys && forall k | k in entries :: Cached(p, entries[k]) == cat[k]
    ensures var values, values' := ValuesOf(entries), StoredValues(cat);
      && values.Keys == values'.Keys
      && ((forall keys: seq<string> | (forall k | k in keys :: k in values) ::
             Decoded(codec, values, keys) == Decoded(codec, values', keys))
          <==> (forall k | k in values :: codec.Keeps(p, values[k])))
  {
    StoredIsReread(p, entries, cat);
    hide *;
    ListsAlikeIff(p, codec, ValuesOf(entries), StoredValues(cat));
  }

  lemma StoredIsReread(p: Platform, entries: map<string, Entry>, cat: Catalog)
    requires entries.Keys == cat.Keys && forall k | k in entries :: Cached(p, entries[k]) == cat[k]
    ensures ValuesOf(entries).Keys == StoredValues(cat).Keys
    ensures forall k | k in ValuesOf(entries) :: StoredValues(cat)[k] == p.reparse(ValuesOf(entries)[k])
  {
    hide Words;
  }

  lemma DecodedOne(codec: Codec, values: Values, k: string)
    requires k in values
    ensures Decoded(codec, values, [k]) == match codec.decode(values[k]) case Some(d) => [d] case None => []
  {
    assert [k][..0] == [];
  }

  /** Two directives that are spelled alike once read back: a restart turns one into the other, so that they do
      not both keep. */
  lemma SomeDirectiveChanges(p: Platform, codec: Codec, d: Directive, d': Directive)
    requires codec.Lawful() && d != d' && p.reparse(codec.encode(d)) == p.reparse(codec.encode(d'))
    ensures !codec.Keeps(p, codec.encode(d)) || !codec.Keeps(p, codec.encode(d'))
  {
    assert codec.decode(codec.encode(d)) == Some(d) && codec.decode(codec.encode(d')) == Some(d');
  }

  ghost function DirectiveEntry(codec: Codec, d: Directive, now: int): Entry {
    Entry(DirectiveKey(d.id), codec.encode(d), [DIRECTIVE_TAG], now, now)
  }

  /** A catalog with a directive stored under its own key, and without the directive of an id. */
  ghost function WithDirective(p: Platform, codec: Codec, cat: Catalog, d: Directive, now: int): Catalog {
    cat[DirectiveKey(d.id) := Meaning(p, DirectiveEntry(codec, d, now))]
  }

  ghost function WithoutDirective(cat: Catalog, id: string): Catalog {
    cat - {DirectiveKey(id)}
  }

  class Memory {
    const longTerm: LongTermMemory
    const codec: Codec

    constructor (longTerm: LongTermMemory, codec: Codec)
      ensures this.longTerm == longTerm && this.codec == codec
    {
      this.longTerm, this.codec := longTerm, codec;
    }

    method SearchContextTopN(query: string, limit: int) returns (ok: bool, filtered: seq<Entry>)
      requires longTerm.Valid()
      modifies longTerm, longTerm.idx
      ensures longTerm.Valid()
      ensures ok ==> IsContextAnswer(longTerm.p, longTerm.Stored(), query, limit, EntryKeys(filtered))
      ensures ok ==> AreStored(longTerm.p, longTerm.Stored(), filtered)
    {
      hide AllAgree, Describes, CatalogOf, WellNamed, FullAnswer;
      var found;
      ok, found := longTerm.SearchTopN(query, 0);
      filtered := [];
      if ok {
        filtered := WithoutDirectives(longTerm.p, found, longTerm.Stored());
        assert EntryKeys(Cut(filtered, limit)) == Cut(EntryKeys(filtered), limit);
        if limit > 0 && |filtered| > limit {
          filtered := filtered[..limit];
        }
      }
    }

    /** Store a directive under its own key; its id must not be empty. */
    method AddDirective(d: Directive, now: int) returns (ok: bool)
      requires longTerm.Valid()
      modifies longTerm, longTerm.idx, longTerm.dir`files, longTerm.dir`history
      ensures d.id == "" ==> !ok
      ensures longTerm.dir.works && d.id != "" ==> ok
      ensures longTerm.Valid() <==>
        !(ok && (old(Clash(longTerm.dir.files, DirectiveKey(d.id))) || !Survives(longTerm.p, codec.encode(d))))
      ensures ok && longTerm.Valid() ==>
        longTerm.Stored() == WithDirective(longTerm.p, codec, old(longTerm.Stored()), d, now)
      ensures ok ==> longTerm.loaded && DirectiveKey(d.id) in longTerm.entries
      ensures ok ==> longTerm.entries[DirectiveKey(d.id)].value == codec.encode(d)
      ensures ok && old(longTerm.loaded) ==>
        longTerm.entries == old(longTerm.entries)[DirectiveKey(d.id) := DirectiveEntry(codec, d, now)]
      ensures !ok ==> longTerm.Valid() && longTerm.Stored() == old(longTerm.Stored())
    {
      if d.id == "" {
        return false;
      }
      WriteKeepsOthersIff(longTerm.p, longTerm.dir.files, DirectiveKey(d.id),
        Meaning(longTerm.p, DirectiveEntry(codec, d, now)));
      hide AllAgree, Describes, CatalogOf, Meaning, Evicted, CrashSafe, Clash, WellNamed, Survives;
      ok := longTerm.Store(DirectiveKey(d.id), Some(codec.encode(d)), [DIRECTIVE_TAG], now);
    }

    /** Every tagged entry that decodes; others are skipped. */
    method ListDirectives() returns (ok: bool, directives: seq<Directive>)
      requires longTerm.Valid()
      modifies longTerm, longTerm.idx
      ensures longTerm.Valid() && (longTerm.dir.works ==> ok)
      ensures ok ==>
        IsDirectiveList(longTerm.p, codec, longTerm.Stored(), ValuesOf(longTerm.entries), directives)
      ensures old(longTerm.loaded) ==> longTerm.loaded && longTerm.entries == old(longTerm.entries)
    {
      var found;
      hide AllAgree, Describes, CatalogOf, WellNamed, Tagged, Decoded, AreStored;
      ok, found := longTerm.SearchByTag(DIRECTIVE_TAG);
      directives := [];
      if ok {
        directives := DecodeEntries(codec, found, longTerm.entries);
      }
    }

    /** Forget the directive of an id. */
    method RemoveDirective(id: string) returns (ok: bool)
      requires longTerm.Valid()
      modifies longTerm, longTerm.idx, longTerm.dir`files, longTerm.dir`history
      ensures longTerm.dir.works && DirectiveKey(id) in old(longTerm.Stored()) ==> ok
      ensures longTerm.Valid() <==> !(ok && old(Clash(longTerm.dir.files, DirectiveKey(id))))
      ensures DirectiveKey(id) in old(longTerm.Stored()) ==> longTerm.Valid()
      ensures ok && longTerm.Valid() ==> longTerm.Stored() == WithoutDirective(old(longTerm.Stored()), id)
      ensures ok && old(longTerm.loaded) ==> longTerm.entries == old(longTerm.entries) - {DirectiveKey(id)}
      ensures !ok ==> longTerm.Stored() == old(longTerm.Stored())
    {
      CatalogAt(longTerm.p, longTerm.dir.files, DirectiveKey(id));
      RemoveKeepsOthersIff(longTerm.p, longTerm.dir.files, DirectiveKey(id));
      if DirectiveKey(id) in longTerm.Stored() {
        NoClashStored(longTerm.p, longTerm.dir.files, DirectiveKey(id));
      }
      hide AllAgree, Describes, CatalogOf, Evicted, CrashSafe, Clash, WellNamed, Path;
      ok := longTerm.Forget(DirectiveKey(id));
    }
  }

  lemma DecodedStep(codec: Codec, values: Values, keys: seq<string>, k: string)
    requires (forall k | k in keys :: k in values) && k in values
    ensures forall x | x in keys + [k] :: x in values
    ensures Decoded(codec, values, keys + [k]) ==
      Decoded(codec, values, keys) + match codec.decode(values[k]) case Some(d) => [d] case None => []
  {
    assert (keys + [k])[..|keys|] == keys;
  }

  lemma EntryKeysStep(es: seq<Entry>, i: nat)
    requires i < |es|
    ensures EntryKeys(es[..i + 1]) == EntryKeys(es[..i]) + [es[i].key]
  {
  }

  method DecodeEntries(codec: Codec, found: seq<Entry>, ghost entries: map<string, Entry>)
    returns (directives: seq<Directive>)
    requires FromCache(entries, found)
    ensures DecodesTo(codec, ValuesOf(entries), EntryKeys(found), directives)
  {
    directives := [];
    ghost var values := ValuesOf(entries);
    assert EntryKeys(found[..0]) == [] && Decoded(codec, values, []) == [];
    hide Decoded, EntryKeys;
    for i := 0 to |found|
      invariant DecodesTo(codec, values, EntryKeys(found[..i]), directives)
    {
      var e := found[i];
      EntryKeysStep(found, i);
      assert e in found;
      DecodedStep(codec, values, EntryKeys(found[..i]), e.key);
      match codec.decode(e.value)
      case Some(d) => directives := directives + [d];
      case None =>
    }
    assert found[..|found|] == found;
  }

  method HasDirectiveTag(p: Platform, tags: seq<string>) returns (hit: bool)
    ensures hit <==> HasTag(p, tags, DIRECTIVE_TAG)
  {
    for i := 0 to |tags|
      invariant !HasTag(p, tags[..i], DIRECTIVE_TAG)
    {
      if EqualFold(p, tags[i], DIRECTIVE_TAG) {
        return true;
      }
      assert tags[..i + 1] == tags[..i] + [tags[i]];
    }
    assert tags[..|tags|] == tags;
    return false;
  }

  method WithoutDirectives(p: Platform, found: seq<Entry>, ghost cat: Catalog) returns (filtered: seq<Entry>)
    requires AreStored(p, cat, found)
    ensures EntryKeys(filtered) == Undirected(p, cat, EntryKeys(found))
    ensures forall e | e in filtered :: e in found
  {
    filtered := [];
    for i := 0 to |found|
      invariant EntryKeys(filtered) == Undirected(p, cat, EntryKeys(found[..i]))
      invariant forall e | e in filtered :: e in found
    {
      var e := found[i];
      assert e in found && Cached(p, e) == cat[e.key];
      assert EntryKeys(found[..i + 1])[..i] == EntryKeys(found[..i]);
      assert EntryKeys(filtered + [e]) == EntryKeys(filtered) + [e.key];
      var hit := HasDirectiveTag(p, e.tags);
      if !hit {
        filtered := filtered + [e];
      }
    }
    assert found[..|found|] == found;
  }

  /** A directive that was added is listed, and once removed the list is that of the other directives. */
  method DirectiveLifecycle(m: Memory, d: Directive, now: int)
    returns (added: bool, listed: Option<seq<Directive>>, removed: bool, left: Option<seq<Directive>>)
    requires m.longTerm.Valid() && m.codec.Lawful() && d.id != ""
    requires !Clash(m.longTerm.dir.files, DirectiveKey(d.id)) && Survives(m.longTerm.p, m.codec.encode(d))
    modifies m.longTerm, m.longTerm.idx, m.longTerm.dir`files, m.longTerm.dir`history
    ensures m.longTerm.dir.works ==> added && listed.Some? && removed && left.Some?
    ensures listed.Some? ==> d in listed.value
    ensures removed ==>
      m.longTerm.Valid() && m.longTerm.Stored() == WithoutDirective(old(m.longTerm.Stored()), d.id)
    ensures left.Some? ==> removed && IsDirectiveList(m.longTerm.p, m.codec,
      WithoutDirective(old(m.longTerm.Stored()), d.id), ValuesOf(m.longTerm.entries), left.value)
  {
    ghost var cat := m.longTerm.Stored();
    hide *;
    removed, left := false, None;
    added, listed := AddAndList(m, d, now);
    if added {
      AddedIsDirective(m.longTerm.p, m.codec, cat, d, now);
      removed, left := RemoveAndList(m, d.id, m.longTerm.Stored());
    }
  }

  method AddAndList(m: Memory, d: Directive, now: int) returns (added: bool, listed: Option<seq<Directive>>)
    requires m.longTerm.Valid() && m.codec.Lawful() && d.id != ""
    requires !Clash(m.longTerm.dir.files, DirectiveKey(d.id)) && Survives(m.longTerm.p, m.codec.encode(d))
    modifies m.longTerm, m.longTerm.idx, m.longTerm.dir`files, m.longTerm.dir`history
    ensures m.longTerm.Valid() && (m.longTerm.dir.works ==> added && listed.Some?)
    ensures added ==> m.longTerm.Stored() == WithDirective(m.longTerm.p, m.codec, old(m.longTerm.Stored()), d, now)
    ensures listed.Some? ==> d in listed.value
  {
    ghost var p, codec, cat := m.longTerm.p, m.codec, m.longTerm.Stored();
    hide *;
    listed := None;
    added := m.AddDirective(d, now);
    if added {
      var ok, ds := m.ListDirectives();
      if ok {
        AddedIsListed(p, codec, cat, m.longTerm.entries, d, now, ds);
        listed := Some(ds);
      }
    }
  }

  method RemoveAndList(m: Memory, id: string, ghost cat: Catalog)
    returns (removed: bool, left: Option<seq<Directive>>)
    requires m.longTerm.Valid()
    requires m.longTerm.Stored() == cat && DirectiveKey(id) in cat
    modifies m.longTerm, m.longTerm.idx, m.longTerm.dir`files, m.longTerm.dir`history
    ensures m.longTerm.dir.works == old(m.longTerm.dir.works) && (m.longTerm.dir.works ==> removed && left.Some?)
    ensures removed ==> m.longTerm.Valid() && m.longTerm.Stored() == WithoutDirective(cat, id)
    ensures left.Some? ==> removed && IsDirectiveList(m.longTerm.p, m.codec,
      WithoutDirective(cat, id), ValuesOf(m.longTerm.entries), left.value)
  {
    hide *;
    left := None;
    removed := m.RemoveDirective(id);
    if removed {
      var ok, ds := m.ListDirectives();
      left := if ok then Some(ds) else None;
    }
  }

  /** The directive is stored and cached under its own key. */
  ghost predicate Holds(codec: Codec, cat: Catalog, entries: map<string, Entry>, d: Directive) {
    var key := DirectiveKey(d.id);
    && key in cat && DIRECTIVE_TAG in cat[key].entry.tags
    && key in entries && entries[key].value == codec.encode(d)
  }

  lemma HoldsAdded(p: Platform, codec: Codec, cat: Catalog, entries: map<string, Entry>, d: Directive, now: int)
    requires DirectiveKey(d.id) in entries && entries[DirectiveKey(d.id)].value == codec.encode(d)
    ensures Holds(codec, WithDirective(p, codec, cat, d, now), entries, d)
  {
    assert DIRECTIVE_TAG in [DIRECTIVE_TAG];
    hide DirectiveKey;
  }

  /** Adding another directive leaves it there. */
  lemma HoldsStill(p: Platform, codec: Codec, cat: Catalog, entries: map<string, Entry>, d: Directive, d': Directive,
                   now: int)
    requires Holds(codec, cat, entries, d) && d.id != d'.id
    ensures Holds(codec, WithDirective(p, codec, cat, d', now),
              entries[DirectiveKey(d'.id) := DirectiveEntry(codec, d', now)], d)
  {
    DirectiveKeysDiffer(d.id, d'.id);
    hide DirectiveKey;
  }

  /** Removing another directive leaves it there. */
  lemma HoldsWithout(codec: Codec, cat: Catalog, entries: map<string, Entry>, d: Directive, id: string)
    requires Holds(codec, cat, entries, d) && d.id != id
    ensures Holds(codec, WithoutDirective(cat, id), entries - {DirectiveKey(id)}, d)
  {
    DirectiveKeysDiffer(d.id, id);
    hide DirectiveKey;
  }

  /** What is there is listed. */
  lemma HeldIsListed(p: Platform, codec: Codec, cat: Catalog, entries: map<string, Entry>, d: Directive,
                     ds: seq<Directive>)
    requires codec.Lawful() && Holds(codec, cat, entries, d)
    requires IsDirectiveList(p, codec, cat, ValuesOf(entries), ds)
    ensures d in ds
  {
    var values, k := ValuesOf(entries), DirectiveKey(d.id);
    assert SomeTag(p, cat[k].entry.tags, DIRECTIVE_TAG);
    assert k in Tagged(p, cat, DIRECTIVE_TAG);
    hide Tagged, Decoded, DirectiveKey, SomeTag;
    var keys :| IsTagAnswer(p, cat, DIRECTIVE_TAG, keys) && DecodesTo(codec, values, keys, ds);
    assert k in Elements(keys);
    DecodedHas(codec, values, keys, k, d);
  }

  /** Add a directive whose key has a file of its own. */
  method AddOwn(m: Memory, d: Directive, now: int, ghost keys: set<string>) returns (ok: bool)
    requires m.longTerm.Valid() && d.id != "" && m.longTerm.Stored().Keys <= keys && OwnFiles(keys)
    requires DirectiveKey(d.id) in keys && Survives(m.longTerm.p, m.codec.encode(d))
    modifies m.longTerm, m.longTerm.idx, m.longTerm.dir`files, m.longTerm.dir`history
    ensures m.longTerm.Valid() && m.longTerm.Stored().Keys <= keys
    ensures m.longTerm.dir.works == old(m.longTerm.dir.works) && (m.longTerm.dir.works ==> ok)
    ensures ok ==> m.longTerm.loaded && DirectiveKey(d.id) in m.longTerm.entries
    ensures ok ==> m.longTerm.entries[DirectiveKey(d.id)].value == m.codec.encode(d)
    ensures ok ==> m.longTerm.Stored() == WithDirective(m.longTerm.p, m.codec, old(m.longTerm.Stored()), d, now)
    ensures ok && old(m.longTerm.loaded) ==>
      m.longTerm.entries == old(m.longTerm.entries)[DirectiveKey(d.id) := DirectiveEntry(m.codec, d, now)]
  {
    NoClash(m.longTerm.p, m.longTerm.dir.files, keys, DirectiveKey(d.id));
    hide AllAgree, Describes, CatalogOf, WellNamed, Clash, Survives, DirectiveKey, DirectiveEntry, OwnFiles, Meaning;
    ok := m.AddDirective(d, now);
  }

  /** Two directives of different ids do not touch each other: when both were added both are listed, and when the
      second was removed again the first is still listed. */
  method TwoDirectives(m: Memory, d: Directive, d': Directive, now: int, ghost keys: set<string>)
    returns (both: Option<seq<Directive>>, left: Option<seq<Directive>>)
    requires m.longTerm.Valid() && m.codec.Lawful() && d.id != "" && d'.id != "" && d.id != d'.id
    requires m.longTerm.Stored().Keys <= keys && OwnFiles(keys)
    requires DirectiveKey(d.id) in keys && Survives(m.longTerm.p, m.codec.encode(d))
    requires DirectiveKey(d'.id) in keys && Survives(m.longTerm.p, m.codec.encode(d'))
    modifies m.longTerm, m.longTerm.idx, m.longTerm.dir`files, m.longTerm.dir`history
    ensures m.longTerm.dir.works ==> both.Some? && left.Some?
    ensures both.Some? ==> d in both.value && d' in both.value
    ensures left.Some? ==> d in left.value
  {
    hide *;
    both, left := None, None;
    var added := AddBoth(m, d, d', now, keys);
    if added {
      both := ListBoth(m, d, d');
      left := RemoveSecond(m, d, d');
    }
  }

  method AddBoth(m: Memory, d: Directive, d': Directive, now: int, ghost keys: set<string>) returns (ok: bool)
    requires m.longTerm.Valid() && d.id != "" && d'.id != "" && d.id != d'.id
    requires m.longTerm.Stored().Keys <= keys && OwnFiles(keys)
    requires DirectiveKey(d.id) in keys && Survives(m.longTerm.p, m.codec.encode(d))
    requires DirectiveKey(d'.id) in keys && Survives(m.longTerm.p, m.codec.encode(d'))
    modifies m.longTerm, m.longTerm.idx, m.longTerm.dir`files, m.longTerm.dir`history
    ensures m.longTerm.Valid() && m.longTerm.dir.works == old(m.longTerm.dir.works) && (m.longTerm.dir.works ==> ok)
    ensures ok ==> m.longTerm.loaded && Holds(m.codec, m.longTerm.Stored(), m.longTerm.entries, d)
    ensures ok ==> Holds(m.codec, m.longTerm.Stored(), m.longTerm.entries, d')
  {
    hide *;
    ok := AddOwn(m, d, now, keys);
    if ok {
      ghost var cat, entries := m.longTerm.Stored(), m.longTerm.entries;
      HoldsAdded(m.longTerm.p, m.codec, old(m.longTerm.Stored()), entries, d, now);
      ok := AddOwn(m, d', now, keys);
      HoldsStill(m.longTerm.p, m.codec, cat, entries, d, d', now);
      if ok {
        HoldsAdded(m.longTerm.p, m.codec, cat, m.longTerm.entries, d', now);
      }
    }
  }

  method ListBoth(m: Memory, d: Directive, d': Directive) returns (both: Option<seq<Directive>>)
    requires m.longTerm.Valid() && m.codec.Lawful() && m.longTerm.loaded
    requires Holds(m.codec, m.longTerm.Stored(), m.longTerm.entries, d)
    requires Holds(m.codec, m.longTerm.Stored(), m.longTerm.entries, d')
    modifies m.longTerm, m.longTerm.idx
    ensures m.longTerm.Valid() && m.longTerm.loaded && m.longTerm.entries == old(m.longTerm.entries)
    ensures m.longTerm.dir.works ==> both.Some?
    ensures both.Some? ==> d in both.value && d' in both.value
  {
    hide *;
    both := None;
    var ok, ds := m.ListDirectives();
    if ok {
      HeldIsListed(m.longTerm.p, m.codec, m.longTerm.Stored(), m.longTerm.entries, d, ds);
      HeldIsListed(m.longTerm.p, m.codec, m.longTerm.Stored(), m.longTerm.entries, d', ds);
      both := Some(ds);
    }
  }

  method RemoveSecond(m: Memory, d: Directive, d': Directive) returns (left: Option<seq<Directive>>)
    requires m.longTerm.Valid() && m.codec.Lawful() && m.longTerm.loaded && d.id != d'.id
    requires Holds(m.codec, m.longTerm.Stored(), m.longTerm.entries, d)
    requires Holds(m.codec, m.longTerm.Stored(), m.longTerm.entries, d')
    modifies m.longTerm, m.longTerm.idx, m.longTerm.dir`files, m.longTerm.dir`history
    ensures m.longTerm.dir.works ==> left.Some?
    ensures left.Some? ==> d in left.value
  {
    ghost var cat, entries := m.longTerm.Stored(), m.longTerm.entries;
    assert DirectiveKey(d'.id) in cat;
    hide *;
    left := None;
    var ok := m.RemoveDirective(d'.id);
    if ok {
      HoldsWithout(m.codec, cat, entries, d, d'.id);
      var listed, ds := m.ListDirectives();
      if listed {
        HeldIsListed(m.longTerm.p, m.codec, m.longTerm.Stored(), m.longTerm.entries, d, ds);
        left := Some(ds);
      }
    }
  }

  lemma NoClashStored(p: Platform, files: Files, key: string)
    requires WellNamed(files) && key in CatalogOf(p, files)
    ensures !Clash(files, key)
  {
    CatalogAt(p, files, key);
  }

  /** An added directive is hidden from context search and listed, and removing it undoes adding it. */
  lemma AddedIsDirective(p: Platform, codec: Codec, cat: Catalog, d: Directive, now: int)
    ensures var key, with := DirectiveKey(d.id), WithDirective(p, codec, cat, d, now);
      && IsDirective(p, with, key) && key in Tagged(p, with, DIRECTIVE_TAG)
      && key in with && WithoutDirective(with, d.id) == WithoutDirective(cat, d.id)
  {
    assert DIRECTIVE_TAG in [DIRECTIVE_TAG];
    assert EqualFold(p, DIRECTIVE_TAG, DIRECTIVE_TAG);
    SameMap(WithoutDirective(WithDirective(p, codec, cat, d, now), d.id), WithoutDirective(cat, d.id));
  }

  lemma AddedIsListed(p: Platform, codec: Codec, cat: Catalog, entries: map<string, Entry>, d: Directive, now: int,
                      ds: seq<Directive>)
    requires codec.Lawful() && DirectiveKey(d.id) in entries && entries[DirectiveKey(d.id)].value == codec.encode(d)
    requires IsDirectiveList(p, codec, WithDirective(p, codec, cat, d, now), ValuesOf(entries), ds)
    ensures d in ds
  {
    var with, values, k := WithDirective(p, codec, cat, d, now), ValuesOf(entries), DirectiveKey(d.id);
    AddedIsDirective(p, codec, cat, d, now);
    hide WithDirective, Tagged, Decoded, DirectiveKey, IsDirective, WithoutDirective;
    var keys :| IsTagAnswer(p, with, DIRECTIVE_TAG, keys) && DecodesTo(codec, values, keys, ds);
    assert k in Elements(keys);
    DecodedHas(codec, values, keys, k, d);
  }

  // ---------------------------------------------------------------- the two ways of comparing tags

  /** Lowering and folding tell the same runes from those of the tag. */
  ghost predicate ComparesAlike(p: Platform, tag: string) {
    forall c: char, d | d in tag :: p.lower(c) == p.lower(d) <==> p.fold(c) == p.fold(d)
  }

  lemma LoweredAt(p: Platform, s: string)
    ensures |Lowered(p, s)| == |s| && forall i | 0 <= i < |s| :: Lowered(p, s)[i] == p.lower(s[i])
  {
  }

  lemma ComparedAlike(p: Platform, t: string, tag: string)
    requires ComparesAlike(p, tag)
    ensures Lowered(p, t) == Lowered(p, tag) <==> EqualFold(p, t, tag)
  {
    LoweredAt(p, t);
    LoweredAt(p, tag);
    forall i | 0 <= i < |t| && |t| == |tag|
      ensures Lowered(p, t)[i] == Lowered(p, tag)[i] <==> p.fold(t[i]) == p.fold(tag[i])
    {
      assert tag[i] in tag;
    }
    assert Lowered(p, t) == Lowered(p, tag) <==>
      (|t| == |tag| && forall i | 0 <= i < |t| :: Lowered(p, t)[i] == Lowered(p, tag)[i]);
  }

  /** The tag with one rune replaced is compared by that rune. */
  lemma ReplacedRune(p: Platform, tag: string, i: nat, c: char)
    requires i < |tag|
    ensures Lowered(p, tag[i := c]) == Lowered(p, tag) <==> p.lower(c) == p.lower(tag[i])
    ensures EqualFold(p, tag[i := c], tag) <==> p.fold(c) == p.fold(tag[i])
  {
    LoweredAt(p, tag[i := c]);
    LoweredAt(p, tag);
    assert Lowered(p, tag[i := c]) == Lowered(p, tag) ==> Lowered(p, tag[i := c])[i] == Lowered(p, tag)[i];
  }

  /** The tests of `SearchByTag` and of the context filter agree on all tags exactly when lowering and folding tell
      the same runes from those of the tag. */
  lemma TagTestsAgreeIff(p: Platform, tag: string)
    ensures (forall tags: seq<string> :: SomeTag(p, tags, tag) <==> HasTag(p, tags, tag)) <==> ComparesAlike(p, tag)
  {
    if ComparesAlike(p, tag) {
      forall tags: seq<string> ensures SomeTag(p, tags, tag) <==> HasTag(p, tags, tag) {
        forall t | t in tags ensures Lowered(p, t) == Lowered(p, tag) <==> EqualFold(p, t, tag) {
          ComparedAlike(p, t, tag);
        }
      }
    } else {
      var c: char, d :| d in tag && !(p.lower(c) == p.lower(d) <==> p.fold(c) == p.fold(d));
      var i :| 0 <= i < |tag| && tag[i] == d;
      ReplacedRune(p, tag, i, c);
      assert tag[i := c] in [tag[i := c]];
      assert SomeTag(p, [tag[i := c]], tag) <==> p.lower(c) == p.lower(d);
      assert HasTag(p, [tag[i := c]], tag) <==> p.fold(c) == p.fold(d);
    }
  }

  ghost function Directives(p: Platform, cat: Catalog): set<string> {
    set k | k in cat && IsDirective(p, cat, k)
  }

  /** Under the same condition, and only under it, what is listed as a directive is what context search hides,
      whatever is stored. */
  lemma ListedIsHiddenIff(p: Platform)
    ensures (forall cat: Catalog :: Tagged(p, cat, DIRECTIVE_TAG) == Directives(p, cat))
       <==> ComparesAlike(p, DIRECTIVE_TAG)
  {
    TagTestsAgreeIff(p, DIRECTIVE_TAG);
    hide SomeTag, HasTag, ComparesAlike;
    if forall cat: Catalog :: Tagged(p, cat, DIRECTIVE_TAG) == Directives(p, cat) {
      forall tags: seq<string> ensures SomeTag(p, tags, DIRECTIVE_TAG) <==> HasTag(p, tags, DIRECTIVE_TAG) {
        var cat: Catalog := map["" := Content(multiset{}, Entry("", "", tags, 0, 0))];
        assert "" in Tagged(p, cat, DIRECTIVE_TAG) <==> "" in Directives(p, cat);
      }
    }
  }

  /** Listing lowers tags and filtering folds them: a tag spelled with a letter whose lower case is the `i` of
      the directive tag, but that does not fold to it, makes an entry a listed directive that context search
      does not hide. U+0130 is such a letter. */
  lemma TagTestsDiffer(p: Platform, dotted: char)
    requires p.lower(dotted) == 'i' && p.fold(dotted) != p.fold('i')
    requires forall c | c in DIRECTIVE_TAG :: p.lower(c) == c
    ensures SomeTag(p, ["d" + [dotted] + "rective"], DIRECTIVE_TAG)
    ensures !HasTag(p, ["d" + [dotted] + "rective"], DIRECTIVE_TAG)
  {
    var tag := "d" + [dotted] + "rective";
    assert tag in [tag];
    assert tag[1] == dotted && DIRECTIVE_TAG[1] == 'i';
    forall i | 0 <= i < 9 ensures p.lower(tag[i]) == DIRECTIVE_TAG[i] {
      assert DIRECTIVE_TAG[i] in DIRECTIVE_TAG && (i != 1 ==> tag[i] == DIRECTIVE_TAG[i]);
    }
    assert Lowered(p, tag) == DIRECTIVE_TAG == Lowered(p, DIRECTIVE_TAG);
  }
}
