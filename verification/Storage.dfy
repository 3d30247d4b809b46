/** One JSON file per entry in one directory (internal/memory/long_term.go:74-96, 129-136, 302-334). */
module Storage {
  import opened Text
  import opened Order
  import opened Corpus

  // ---------------------------------------------------------------- file names

  const UNSAFE: set<char> := {'/', '\\', ':', '*', '?', '\"', '<', '>', '|', ' '}

  function SafeRune(c: char): char {
    if c in UNSAFE then '_' else c
  }

  function Sanitise(key: string): string {
    seq(|key|, i requires 0 <= i < |key| => SafeRune(key[i]))
  }

  /** The file of a key, inside the storage directory. */
  function Path(key: string): string {
    Sanitise(key) + ".json"
  }

  function Temp(key: string): string {
    Path(key) + ".tmp"
  }

  predicate HasSuffix(s: string, t: string) {
    |t| <= |s| && s[|s| - |t|..] == t
  }

  /** The files `loadAll` reads. */
  predicate IsEntryFile(name: string) {
    HasSuffix(name, ".json") && !HasSuffix(name, ".tmp")
  }

  lemma PathIsEntryFile(key: string)
    ensures IsEntryFile(Path(key))
  {
    var name := Path(key);
    assert name[|name| - 5..] == ".json";
    assert name[|name| - 4..] == "json";
    assert "json"[0] != ".tmp"[0];
  }

  /** A temporary file is never read as an entry, nor is it any key's file. */
  lemma TempIsNoEntryFile(key: string)
    ensures !IsEntryFile(Temp(key))
    ensures forall k :: Path(k) != Temp(key)
  {
    var name := Temp(key);
    assert name[|name| - 4..] == ".tmp";
    forall k ensures Path(k) != name {
      PathIsEntryFile(k);
    }
  }

  /** Two keys share a file exactly when they have equal length and differ only where both hold an unsafe
      character or an underscore. */
  lemma SharedFile(a: string, b: string)
    ensures Path(a) == Path(b) <==>
            |a| == |b| && forall i | 0 <= i < |a| ::
              a[i] == b[i] || (a[i] in UNSAFE + {'_'} && b[i] in UNSAFE + {'_'})
  {
    var m, n := |Sanitise(a)|, |Sanitise(b)|;
    if Path(a) == Path(b) {
      assert m + 5 == |Path(a)| == |Path(b)| == n + 5;
      forall i | 0 <= i < |a|
        ensures a[i] == b[i] || (a[i] in UNSAFE + {'_'} && b[i] in UNSAFE + {'_'})
      {
        assert Path(a)[i] == SafeRune(a[i]) && Path(b)[i] == SafeRune(b[i]);
      }
    } else if |a| == |b| {
      assert Sanitise(a) != Sanitise(b);
      var i :| 0 <= i < |a| && Sanitise(a)[i] != Sanitise(b)[i];
    }
  }

  // ---------------------------------------------------------------- the directory

  /** What a file holds: an entry, bytes that do not parse, or nothing that can be read. */
  datatype File = Unreadable | Unparseable | Json(entry: Entry)

  type Files = map<string, File>

  /** A file that `loadAll` turns into an entry. */
  predicate Loads(files: Files, name: string) {
    name in files && IsEntryFile(name) && files[name].Json?
  }

  /** Every entry lies in the file its key names: true of anything `Store` and `Recall` ever wrote. */
  ghost predicate WellNamed(files: Files) {
    forall f | Loads(files, f) :: f == Path(files[f].entry.key)
  }

  /** The file of `key` holds the entry of some other key. */
  ghost predicate Clash(files: Files, key: string) {
    Loads(files, Path(key)) && files[Path(key)].entry.key != key
  }

  /** What is stored of an entry: its words, and the entry itself up to how JSON spells its value and to when it
      was last read. */
  datatype Content = Content(words: multiset<string>, entry: Entry)

  type Catalog = map<string, Content>

  ghost function Normal(p: Platform, e: Entry): Entry {
    ReadBack(p, e).(lastAccessed := 0)
  }

  /** What an entry in a file will be read back as. */
  ghost function Meaning(p: Platform, e: Entry): Content {
    Content(Words(p, ReadBack(p, e)), Normal(p, e))
  }

  /** All of an entry is in its content: key, tags and time as they are, and the value and its words as JSON reads
      them back. */
  lemma MeaningIs(p: Platform, e: Entry)
    ensures Meaning(p, e).entry == Entry(e.key, p.reparse(e.value), e.tags, e.storedAt, 0)
    ensures Meaning(p, e).words == Words(p, Entry(e.key, p.reparse(e.value), e.tags, e.storedAt, e.lastAccessed))
  {
    hide Words;
  }

  lemma MeaningOfReadBack(p: Platform, e: Entry, now: int)
    requires p.Lawful()
    ensures Meaning(p, ReadBack(p, e).(lastAccessed := now)) == Meaning(p, e)
  {
    ReadBackTwice(p, e);
  }

  ghost function StoredKeys(files: Files): set<string> {
    set f | f in files && Loads(files, f) :: files[f].entry.key
  }

  /** The entries a rescan of the directory finds. */
  ghost function CatalogOf(p: Platform, files: Files): Catalog
    requires WellNamed(files)
  {
    map k | k in StoredKeys(files) :: Meaning(p, files[Path(k)].entry)
  }

  /** The corpus to be indexed for a catalog: entries without any word are not documents. */
  ghost function DocsOf(cat: Catalog): Docs {
    map k | k in cat && cat[k].words != multiset{} :: Doc(cat[k].words)
  }

  lemma CatalogAt(p: Platform, files: Files, k: string)
    requires WellNamed(files)
    ensures k in CatalogOf(p, files) <==> Loads(files, Path(k)) && files[Path(k)].entry.key == k
    ensures k in CatalogOf(p, files) ==> CatalogOf(p, files)[k] == Meaning(p, files[Path(k)].entry)
  {
    PathIsEntryFile(k);
  }

  /** The two states agree on every file that is read as an entry. */
  ghost predicate SameEntries(a: Files, b: Files) {
    forall f | IsEntryFile(f) :: (f in a <==> f in b) && (f in a ==> a[f] == b[f])
  }

  /** Whatever happens to files that are not read as entries, the catalog stays. */
  lemma OnlyEntryFilesMatter(p: Platform, files: Files, files': Files)
    requires WellNamed(files) && SameEntries(files, files')
    ensures WellNamed(files') && CatalogOf(p, files') == CatalogOf(p, files)
  {
    assert forall f :: Loads(files, f) <==> Loads(files', f);
    hide CatalogOf, Meaning;
    forall k
      ensures k in CatalogOf(p, files') <==> k in CatalogOf(p, files)
      ensures k in CatalogOf(p, files) ==> CatalogOf(p, files')[k] == CatalogOf(p, files)[k]
    {
      PathIsEntryFile(k);
      CatalogAt(p, files, k);
      CatalogAt(p, files', k);
    }
  }

  /** The catalog without the entry that lies in the file of `key`. */
  ghost function Evicted(p: Platform, files: Files, key: string): Catalog
    requires WellNamed(files)
  {
    if Loads(files, Path(key)) then CatalogOf(p, files) - {files[Path(key)].entry.key} else CatalogOf(p, files)
  }

  lemma EvictedAt(p: Platform, files: Files, key: string, k: string)
    requires WellNamed(files)
    ensures k in Evicted(p, files, key) <==> k in CatalogOf(p, files) && Path(k) != Path(key)
    ensures k in Evicted(p, files, key) ==> Evicted(p, files, key)[k] == CatalogOf(p, files)[k]
  {
    assert Loads(files, Path(key)) ==> Path(files[Path(key)].entry.key) == Path(key);
    hide CatalogOf, Path, WellNamed, Meaning;
    CatalogAt(p, files, k);
  }

  lemma WellNamedAfterWrite(files: Files, e: Entry)
    requires WellNamed(files)
    ensures WellNamed(files[Path(e.key) := Json(e)])
  {
    var files' := files[Path(e.key) := Json(e)];
    forall f | Loads(files', f) ensures f == Path(files'[f].entry.key) {
      if f != Path(e.key) {
        assert Loads(files, f);
      }
    }
  }

  lemma CatalogAfterWriteAt(p: Platform, files: Files, e: Entry, k: string)
    requires WellNamed(files)
    ensures WellNamed(files[Path(e.key) := Json(e)])
    ensures var cat, cat' := Evicted(p, files, e.key)[e.key := Meaning(p, e)],
                             CatalogOf(p, files[Path(e.key) := Json(e)]);
      (k in cat' <==> k in cat) && (k in cat ==> cat'[k] == cat[k])
  {
    WellNamedAfterWrite(files, e);
    PathIsEntryFile(e.key);
    EvictedAt(p, files, e.key, k);
    hide CatalogOf, Meaning, Path, WellNamed, IsEntryFile, Evicted;
    CatalogAt(p, files, k);
    CatalogAt(p, files[Path(e.key) := Json(e)], k);
  }

  /** The catalog after a file has been replaced by an entry of the key it belongs to. */
  lemma CatalogAfterWrite(p: Platform, files: Files, e: Entry)
    requires WellNamed(files)
    ensures WellNamed(files[Path(e.key) := Json(e)])
    ensures CatalogOf(p, files[Path(e.key) := Json(e)]) == Evicted(p, files, e.key)[e.key := Meaning(p, e)]
  {
    WellNamedAfterWrite(files, e);
    hide CatalogOf, Evicted, WellNamed, Meaning;
    var a, b := CatalogOf(p, files[Path(e.key) := Json(e)]), Evicted(p, files, e.key)[e.key := Meaning(p, e)];
    forall k
      ensures k in a <==> k in b
      ensures k in a ==> a[k] == b[k]
    {
      CatalogAfterWriteAt(p, files, e, k);
    }
    SameMap(a, b);
  }

  lemma WellNamedAfterRemove(files: Files, name: string)
    requires WellNamed(files)
    ensures WellNamed(files - {name})
  {
    forall f | Loads(files - {name}, f) ensures f == Path((files - {name})[f].entry.key) {
      assert Loads(files, f);
    }
  }

  lemma CatalogAfterRemoveAt(p: Platform, files: Files, key: string, k: string)
    requires WellNamed(files)
    ensures WellNamed(files - {Path(key)})
    ensures var cat, cat' := Evicted(p, files, key), CatalogOf(p, files - {Path(key)});
      (k in cat' <==> k in cat) && (k in cat ==> cat'[k] == cat[k])
  {
    hide CatalogOf, Meaning, Path, WellNamed, IsEntryFile, Evicted;
    WellNamedAfterRemove(files, Path(key));
    EvictedAt(p, files, key, k);
    CatalogAt(p, files, k);
    CatalogAt(p, files - {Path(key)}, k);
  }

  /** The catalog after a key's file is gone. */
  lemma CatalogAfterRemove(p: Platform, files: Files, key: string)
    requires WellNamed(files)
    ensures WellNamed(files - {Path(key)})
    ensures CatalogOf(p, files - {Path(key)}) == Evicted(p, files, key)
  {
    WellNamedAfterRemove(files, Path(key));
    hide CatalogOf, Evicted, WellNamed;
    forall k {
      CatalogAfterRemoveAt(p, files, key, k);
    }
    SameMap(CatalogOf(p, files - {Path(key)}), Evicted(p, files, key));
  }

  /** Cataloguing an entry under its key, next to everything else, is what writing its file does - exactly
      when the file was not another key's. */
  lemma WriteKeepsOthersIff(p: Platform, files: Files, key: string, c: Content)
    requires WellNamed(files)
    ensures CatalogOf(p, files)[key := c] == Evicted(p, files, key)[key := c] <==> !Clash(files, key)
  {
    var other := if Clash(files, key) then files[Path(key)].entry.key else key;
    CatalogAt(p, files, other);
    CatalogAt(p, files, key);
    hide CatalogOf;
    if Clash(files, key) {
      assert other in CatalogOf(p, files)[key := c] && other !in Evicted(p, files, key)[key := c];
    }
  }

  /** Dropping a key from the catalog is what removing its file does - exactly when the file was not another
      key's. */
  lemma RemoveKeepsOthersIff(p: Platform, files: Files, key: string)
    requires WellNamed(files)
    ensures CatalogOf(p, files) - {key} == Evicted(p, files, key) <==> !Clash(files, key)
  {
    var other := if Clash(files, key) then files[Path(key)].entry.key else key;
    CatalogAt(p, files, other);
    CatalogAt(p, files, key);
    hide CatalogOf;
    if Clash(files, key) {
      assert other in CatalogOf(p, files) - {key} && other !in Evicted(p, files, key);
    }
  }

  /** Rewriting the entry a file already holds, with the same content, leaves the catalog as it was. */
  lemma RewriteKeepsCatalog(p: Platform, files: Files, e: Entry)
    requires WellNamed(files) && Loads(files, Path(e.key)) && files[Path(e.key)].entry.key == e.key
    requires Meaning(p, e) == Meaning(p, files[Path(e.key)].entry)
    ensures Evicted(p, files, e.key)[e.key := Meaning(p, e)] == CatalogOf(p, files)
  {
    CatalogAt(p, files, e.key);
    hide CatalogOf, Meaning;
  }

  /** Every state the directory passed through, `after` being its history and `before` what it was, agrees on all
      entry files with the first of two directories or with the second. */
  ghost predicate CrashSafe(before: seq<Files>, after: seq<Files>, files: Files, files': Files) {
    && before <= after
    && forall i | |before| <= i < |after| :: SameEntries(files, after[i]) || SameEntries(files', after[i])
  }

  /** So every such state is read back as one of two catalogs. */
  lemma CrashReadsBack(p: Platform, before: seq<Files>, after: seq<Files>, files: Files, files': Files, i: nat)
    requires CrashSafe(before, after, files, files') && WellNamed(files) && WellNamed(files')
    requires |before| <= i < |after|
    ensures WellNamed(after[i]) && CatalogOf(p, after[i]) in [CatalogOf(p, files), CatalogOf(p, files')]
  {
    if SameEntries(files, after[i]) {
      OnlyEntryFilesMatter(p, files, after[i]);
    } else {
      OnlyEntryFilesMatter(p, files', after[i]);
    }
  }

  /** A state that differs from a directory only at a temporary file holds the same entries. */
  lemma TempStateReadsBack(files: Files, s: Files, key: string)
    requires s - {Temp(key)} == files - {Temp(key)}
    ensures SameEntries(files, s)
  {
    TempIsNoEntryFile(key);
    forall f | IsEntryFile(f)
      ensures f in files <==> f in s
      ensures f in files ==> files[f] == s[f]
    {
      assert f in files - {Temp(key)} <==> f in s - {Temp(key)};
      assert f in files ==> (files - {Temp(key)})[f] == files[f];
      assert f in s ==> (s - {Temp(key)})[f] == s[f];
    }
  }

  /** The storage directory. `history` records every state a crash could leave behind. Calls of the operating
      system may fail, but while `works` holds they do not. */
  class Directory {
    var files: Files
    var works: bool
    ghost var history: seq<Files>

    /** Only the file `name` differs between the two states. */
    static ghost predicate OnlyDiffersAt(a: Files, b: Files, name: string) {
      a - {name} == b - {name}
    }

    /** `history` grew, and all its new states satisfy `OnlyDiffersAt`. */
    static ghost predicate Grew(before: seq<Files>, after: seq<Files>, files: Files, name: string) {
      && before <= after
      && forall i | |before| <= i < |after| :: OnlyDiffersAt(after[i], files, name)
    }

    /** os.WriteFile: not atomic. The file passes through a torn state, where a failed write leaves it. */
    method WriteFile(name: string, data: File) returns (ok: bool)
      modifies this`files, this`history
      ensures works ==> ok
      ensures ok ==> files == old(files)[name := data]
      ensures OnlyDiffersAt(files, old(files), name)
      ensures Grew(old(history), history, old(files), name)
    {
      var created: bool := *;
      if !created && !works {
        return false;
      }
      var torn: File := *;
      files := files[name := torn];
      history := history + [files];
      ok := *;
      ok := ok || works;
      if ok {
        files := files[name := data];
        history := history + [files];
      }
    }

    /** os.Rename: atomic. */
    method Rename(from: string, to: string) returns (ok: bool)
      requires from in files
      modifies this`files, this`history
      ensures works ==> ok
      ensures ok ==> files == (old(files) - {from})[to := old(files)[from]] && history == old(history) + [files]
      ensures !ok ==> files == old(files) && history == old(history)
    {
      ok := *;
      ok := ok || works;
      if ok {
        files := (files - {from})[to := files[from]];
        history := history + [files];
      }
    }

    /** os.Remove. */
    method Remove(name: string) returns (ok: bool)
      modifies this`files, this`history
      ensures works && name in old(files) ==> ok
      ensures ok ==> name in old(files) && files == old(files) - {name} && history == old(history) + [files]
      ensures !ok ==> files == old(files) && history == old(history)
    {
      ok := *;
      ok := ok || works;
      if name !in files {
        ok := false;
      }
      if ok {
        files := files - {name};
        history := history + [files];
      }
    }

    /** Write the temporary file, then rename it into place. */
    method ReplaceEntry(p: Platform, e: Entry) returns (r: Replaced)
      requires WellNamed(files)
      modifies this`files, this`history
      ensures WellNamed(files) && (works ==> r == Renamed)
      ensures CatalogOf(p, files) == if r == Renamed then Evicted(p, old(files), e.key)[e.key := Meaning(p, e)]
                                     else CatalogOf(p, old(files))
      ensures OnlyDiffersAt(files, if r == Renamed then old(files)[Path(e.key) := Json(e)] else old(files), Temp(e.key))
      ensures CrashSafe(old(history), history, old(files), if r == Renamed then files else old(files))
    {
      ghost var before, trace := files, history;
      var path, tmp := Path(e.key), Temp(e.key);
      hide CatalogOf, WellNamed, Meaning, Evicted, Grew, Temp, Path, SameEntries;
      var ok := WriteFile(tmp, Json(e));
      TempStateReadsBack(before, files, e.key);
      OnlyEntryFilesMatter(p, before, files);
      TempStatesReadBack(trace, history, before, e.key);
      if !ok {
        return WriteFailed;
      }
      ghost var midway := history;
      ok := Rename(tmp, path);
      if !ok {
        return RenameFailed;
      }
      CatalogAfterReplace(p, before, files, e);
      TempIsNoEntryFile(e.key);
      ViaTemp(before, tmp, path, Json(e));
      SameAsItself(files);
      assert forall i | |trace| <= i < |history| :: i < |midway| || history[i] == files;
      return Renamed;
    }
  }

  lemma SameAsItself(files: Files)
    ensures SameEntries(files, files)
  {
  }

  /** Everything a torn write of the temporary file can leave behind holds the same entries. */
  lemma TempStatesReadBack(before: seq<Files>, after: seq<Files>, files: Files, key: string)
    requires Directory.Grew(before, after, files, Temp(key))
    ensures before <= after
    ensures forall i | |before| <= i < |after| :: SameEntries(files, after[i])
  {
    forall i | |before| <= i < |after| ensures SameEntries(files, after[i]) {
      assert Directory.OnlyDiffersAt(after[i], files, Temp(key));
      TempStateReadsBack(files, after[i], key);
    }
  }

  datatype Replaced = Renamed | WriteFailed | RenameFailed

  lemma ViaTemp<V>(m: map<string, V>, tmp: string, path: string, x: V)
    requires tmp != path
    ensures (m[tmp := x] - {tmp})[path := x] - {tmp} == m[path := x] - {tmp}
  {
  }

  lemma CatalogAfterReplace(p: Platform, files: Files, files': Files, e: Entry)
    requires WellNamed(files)
    requires files' == (files[Temp(e.key) := Json(e)] - {Temp(e.key)})[Path(e.key) := Json(e)]
    ensures WellNamed(files') && CatalogOf(p, files') == Evicted(p, files, e.key)[e.key := Meaning(p, e)]
  {
    var direct := files[Path(e.key) := Json(e)];
    CatalogAfterWrite(p, files, e);
    TempIsNoEntryFile(e.key);
    hide CatalogOf, WellNamed, Meaning, Evicted, Path, Temp, SameEntries;
    ViaTemp(files, Temp(e.key), Path(e.key), Json(e));
    TempStateReadsBack(direct, files', e.key);
    OnlyEntryFilesMatter(p, direct, files');
  }
}
