/** Whole runs of the public operations of long-term memory. */
module Runs {
  import opened Options
  import opened Text
  import opened Order
  import opened Corpus
  import opened Storage
  import opened Index
  import opened LongTerm

  datatype Call =
    | Store(key: string, json: Option<string>, tags: seq<string>, now: int)
    | Recall(key: string, now: int)
    | Forget(key: string)
    | Search(query: string, limit: int)
    | SearchTag(tag: string)

  /** A call, and whether the operating system does what it is asked meanwhile. */
  datatype Op = Op(call: Call, works: bool)

  datatype Answer = Done | Refused | Found(entry: Entry) | Missing | Results(entries: seq<Entry>)

  /** What a call that was answered so does to a plain dictionary. */
  ghost function Apply(p: Platform, cat: Catalog, call: Call, a: Answer): Catalog {
    match call
    case Store(key, json, tags, now) =>
      if a.Done? && json.Some? then cat[key := Meaning(p, Entry(key, json.value, tags, now, now))] else cat
    case Forget(key) => if a.Done? then cat - {key} else cat
    case _ => cat
  }

  /** What a plain dictionary may answer: a call is refused only if it asks for something that is not there, or
      the operating system fails. */
  ghost predicate Answers(p: Platform, cat: Catalog, op: Op, a: Answer) {
    match op.call
    case Store(_, json, _, _) =>
      (a.Done? || a.Refused?) && (a.Done? ==> json.Some?) && (op.works && json.Some? ==> a.Done?)
    case Forget(key) => (a.Done? || a.Refused?) && (op.works && key in cat ==> a.Done?)
    case Recall(key, now) =>
      if key in cat then a.Found? && Normal(p, a.entry) == cat[key].entry && a.entry.lastAccessed == now else a.Missing?
    case Search(query, limit) =>
      && (a.Results? || a.Refused?) && (op.works ==> a.Results?)
      && (a.Results? ==> IsAnswer(p, cat, query, limit, EntryKeys(a.entries)) && AreStored(p, cat, a.entries))
    case SearchTag(tag) =>
      && (a.Results? || a.Refused?) && (op.works ==> a.Results?)
      && (a.Results? ==> IsTagAnswer(p, cat, tag, EntryKeys(a.entries)) && AreStored(p, cat, a.entries))
  }

  predicate IsSearch(call: Call) {
    call.Search? || call.SearchTag?
  }

  ghost predicate AllAnswered(p: Platform, cats: seq<Catalog>, ops: seq<Op>, answers: seq<Answer>) {
    && |answers| == |ops| <= |cats|
    && forall i | 0 <= i < |ops| :: Answers(p, cats[i], ops[i], answers[i])
  }

  /** The dictionary before, between and after the operations of a run. */
  ghost function Trace(p: Platform, cat: Catalog, ops: seq<Op>, answers: seq<Answer>): (cats: seq<Catalog>)
    requires |answers| == |ops|
    ensures |cats| == |ops| + 1
  {
    if ops == [] then [cat]
    else
      var n := |ops| - 1;
      var cats := Trace(p, cat, ops[..n], answers[..n]);
      cats + [Apply(p, cats[n], ops[n].call, answers[n])]
  }

  /** No two keys are told apart only by characters that file names cannot hold. */
  ghost predicate OwnFiles(keys: set<string>) {
    forall a, b {:trigger ShareFile(a, b)} | a in keys && b in keys && ShareFile(a, b) :: a == b
  }

  ghost predicate ShareFile(a: string, b: string) {
    Path(a) == Path(b)
  }

  /** The call concerns a key of `keys`, and any value it stores survives JSON. */
  ghost predicate Fits(p: Platform, call: Call, keys: set<string>) {
    && (IsSearch(call) || call.key in keys)
    && (call.Store? && call.json.Some? ==> Survives(p, call.json.value))
  }

  lemma NoClash(p: Platform, files: Files, keys: set<string>, key: string)
    requires WellNamed(files) && CatalogOf(p, files).Keys <= keys && OwnFiles(keys) && key in keys
    ensures !Clash(files, key)
  {
    if Clash(files, key) {
      var other := files[Path(key)].entry.key;
      CatalogAt(p, files, other);
      assert ShareFile(other, key);
    }
  }

  /** The states of `h` from `a` on and before `b` are each read back as one of two catalogs. */
  ghost predicate Between(p: Platform, h: seq<Files>, a: nat, b: nat, cat: Catalog, cat': Catalog) {
    && a <= b <= |h|
    && forall i | a <= i < b :: WellNamed(h[i]) && CatalogOf(p, h[i]) in [cat, cat']
  }

  /** The states recorded while the k-th operation was under way are read back as the catalog before it or the one
      after it; `marks` says how many states had been recorded between the operations. */
  ghost predicate CrashStates(p: Platform, before: seq<Files>, after: seq<Files>, marks: seq<nat>, cats: seq<Catalog>) {
    && before <= after && |marks| == |cats| > 0
    && marks[0] == |before| && marks[|marks| - 1] == |after|
    && forall k | 0 <= k < |marks| - 1 :: CrashStatesOf(p, after, marks, cats, k)
  }

  ghost predicate CrashStatesOf(p: Platform, h: seq<Files>, marks: seq<nat>, cats: seq<Catalog>, k: nat)
    requires |marks| == |cats| && k + 1 < |marks|
  {
    Between(p, h, marks[k], marks[k + 1], cats[k], cats[k + 1])
  }

  lemma OneMoreBetween(p: Platform, before: seq<Files>, after: seq<Files>, files: Files, files': Files)
    requires CrashSafe(before, after, files, files') && WellNamed(files) && WellNamed(files')
    ensures Between(p, after, |before|, |after|, CatalogOf(p, files), CatalogOf(p, files'))
  {
    hide CatalogOf, WellNamed, SameEntries;
    forall i | |before| <= i < |after|
      ensures WellNamed(after[i]) && CatalogOf(p, after[i]) in [CatalogOf(p, files), CatalogOf(p, files')]
    {
      CrashReadsBack(p, before, after, files, files', i);
    }
  }

  lemma StillBetween(p: Platform, h: seq<Files>, h': seq<Files>, a: nat, b: nat, cat: Catalog, cat': Catalog)
    requires h <= h' && Between(p, h, a, b, cat, cat')
    ensures Between(p, h', a, b, cat, cat')
  {
    hide CatalogOf, WellNamed;
    forall i | a <= i < b ensures WellNamed(h'[i]) && CatalogOf(p, h'[i]) in [cat, cat'] {
      assert h'[i] == h[i];
    }
  }

  lemma OneMoreCrashSafe(p: Platform, h0: seq<Files>, h1: seq<Files>, h2: seq<Files>, files: Files, files': Files,
                         marks: seq<nat>, cats: seq<Catalog>)
    requires CrashStates(p, h0, h1, marks, cats) && CrashSafe(h1, h2, files, files')
    requires WellNamed(files) && WellNamed(files') && cats[|cats| - 1] == CatalogOf(p, files)
    ensures CrashStates(p, h0, h2, marks + [|h2|], cats + [CatalogOf(p, files')])
  {
    var n, marks', cats' := |marks|, marks + [|h2|], cats + [CatalogOf(p, files')];
    OneMoreBetween(p, h1, h2, files, files');
    assert h1 <= h2;
    hide CatalogOf, WellNamed, CrashSafe, Between;
    forall k | 0 <= k < |marks'| - 1 ensures CrashStatesOf(p, h2, marks', cats', k) {
      if k < n - 1 {
        assert CrashStatesOf(p, h1, marks, cats, k);
        StillBetween(p, h1, h2, marks[k], marks[k + 1], cats[k], cats[k + 1]);
      }
    }
  }

  /** So a crash at any time leaves the dictionary as it was before or after the operation it interrupted. */
  lemma CrashLeavesNeighbour(p: Platform, before: seq<Files>, after: seq<Files>, marks: seq<nat>, cats: seq<Catalog>,
                             i: nat) returns (k: nat)
    requires CrashStates(p, before, after, marks, cats) && |before| <= i < |after|
    ensures k + 1 < |marks| && marks[k] <= i < marks[k + 1]
    ensures WellNamed(after[i]) && CatalogOf(p, after[i]) in [cats[k], cats[k + 1]]
  {
    k := 0;
    hide CatalogOf, WellNamed;
    k := LastMark(marks, i);
    assert CrashStatesOf(p, after, marks, cats, k);
  }

  lemma LastMark(marks: seq<nat>, i: nat) returns (k: nat)
    requires marks != [] && marks[0] <= i < marks[|marks| - 1]
    ensures k + 1 < |marks| && marks[k] <= i < marks[k + 1]
    decreases |marks|
  {
    var n := |marks| - 2;
    if marks[n] <= i {
      k := n;
    } else {
      k := LastMark(marks[..n + 1], i);
    }
  }

  /** What storing a key does to a directory that gives the key a file of its own. */
  lemma StoredIsApplied(p: Platform, files: Files, call: Call, works: bool, ok: bool, after: Catalog)
    requires WellNamed(files) && call.Store? && !Clash(files, call.key) && (ok ==> call.json.Some?)
    requires works && call.json.Some? ==> ok
    requires after ==
      if ok then Evicted(p, files, call.key)[call.key :=
        Meaning(p, Entry(call.key, call.json.value, call.tags, call.now, call.now))]
      else CatalogOf(p, files)
    ensures var a := if ok then Done else Refused;
      after == Apply(p, CatalogOf(p, files), call, a) && Answers(p, CatalogOf(p, files), Op(call, works), a)
  {
    if ok {
      WriteKeepsOthersIff(p, files, call.key,
        Meaning(p, Entry(call.key, call.json.value, call.tags, call.now, call.now)));
    }
  }

  lemma ForgottenIsApplied(p: Platform, files: Files, key: string, works: bool, ok: bool, after: Catalog)
    requires WellNamed(files) && !Clash(files, key) && (works && Path(key) in files ==> ok)
    requires after == if ok then Evicted(p, files, key) else CatalogOf(p, files)
    ensures var a := if ok then Done else Refused;
      && after == Apply(p, CatalogOf(p, files), Forget(key), a)
      && Answers(p, CatalogOf(p, files), Op(Forget(key), works), a)
  {
    RemoveKeepsOthersIff(p, files, key);
    CatalogAt(p, files, key);
  }

  /** Recalling a key that has a file of its own finds exactly what the dictionary holds. */
  lemma RecalledIsStored(p: Platform, files: Files, key: string, now: int, works: bool)
    requires p.Lawful() && WellNamed(files) && !Clash(files, key)
    ensures var r, cat := Recalled(p, files, key, now), CatalogOf(p, files);
      var a := if r.Some? then Found(r.value) else Missing;
      Answers(p, cat, Op(Recall(key, now), works), a) && Apply(p, cat, Recall(key, now), a) == cat
  {
    CatalogAt(p, files, key);
    hide CatalogOf, WellNamed;
    if Loads(files, Path(key)) {
      ReadBackTwice(p, files[Path(key)].entry);
    }
  }

  lemma ApplyKeepsKeys(p: Platform, cat: Catalog, call: Call, a: Answer, keys: set<string>)
    requires cat.Keys <= keys && Fits(p, call, keys)
    ensures Apply(p, cat, call, a).Keys <= keys
    ensures call.Recall? || IsSearch(call) ==> Apply(p, cat, call, a) == cat
  {
  }

  method StepStore(m: LongTermMemory, call: Call, works: bool, ghost keys: set<string>) returns (a: Answer)
    requires call.Store? && m.Valid() && m.dir.works == works
    requires m.Stored().Keys <= keys && OwnFiles(keys) && Fits(m.p, call, keys)
    modifies m, m.idx, m.dir`files, m.dir`history
    ensures m.Valid() && m.Stored() == Apply(m.p, old(m.Stored()), call, a)
    ensures Answers(m.p, old(m.Stored()), Op(call, works), a)
    ensures CrashSafe(old(m.dir.history), m.dir.history, old(m.dir.files), m.dir.files)
  {
    assert WellNamed(m.dir.files);
    NoClash(m.p, m.dir.files, keys, call.key);
    ghost var files := m.dir.files;
    hide CatalogOf, WellNamed, AllAgree, Describes, Meaning, Evicted, Clash, Apply, Path, CrashSafe, Survives, Answers,
      OwnFiles;
    var ok := m.Store(call.key, call.json, call.tags, call.now);
    StoredIsApplied(m.p, files, call, works, ok, m.Stored());
    a := if ok then Done else Refused;
  }

  method StepForget(m: LongTermMemory, key: string, works: bool, ghost keys: set<string>) returns (a: Answer)
    requires m.Valid() && m.dir.works == works
    requires m.Stored().Keys <= keys && OwnFiles(keys) && key in keys
    modifies m, m.idx, m.dir`files, m.dir`history
    ensures m.Valid() && m.Stored() == Apply(m.p, old(m.Stored()), Forget(key), a)
    ensures Answers(m.p, old(m.Stored()), Op(Forget(key), works), a)
    ensures CrashSafe(old(m.dir.history), m.dir.history, old(m.dir.files), m.dir.files)
  {
    assert WellNamed(m.dir.files);
    NoClash(m.p, m.dir.files, keys, key);
    ghost var files := m.dir.files;
    hide CatalogOf, WellNamed, AllAgree, Describes, Meaning, Evicted, Clash, Apply, Path, CrashSafe, Answers, OwnFiles;
    var ok := m.Forget(key);
    ForgottenIsApplied(m.p, files, key, works, ok, m.Stored());
    a := if ok then Done else Refused;
  }

  method StepRecall(m: LongTermMemory, key: string, now: int, works: bool, ghost keys: set<string>)
    returns (a: Answer)
    requires m.Valid() && m.Stored().Keys <= keys && OwnFiles(keys) && key in keys
    modifies m, m.dir`files, m.dir`history
    ensures m.Valid() && m.Stored() == Apply(m.p, old(m.Stored()), Recall(key, now), a)
    ensures Answers(m.p, old(m.Stored()), Op(Recall(key, now), works), a)
    ensures CrashSafe(old(m.dir.history), m.dir.history, old(m.dir.files), m.dir.files)
  {
    assert WellNamed(m.dir.files);
    NoClash(m.p, m.dir.files, keys, key);
    RecalledIsStored(m.p, m.dir.files, key, now, works);
    hide CatalogOf, WellNamed, AllAgree, Describes, Clash, Path, CrashSafe, Recalled, Normal, OwnFiles, Answers, Apply;
    var r := m.Recall(key, now);
    a := if r.Some? then Found(r.value) else Missing;
  }

  method StepSearch(m: LongTermMemory, call: Call, works: bool) returns (a: Answer)
    requires IsSearch(call) && m.Valid() && m.dir.works == works
    modifies m, m.idx
    ensures m.Valid() && m.Stored() == Apply(m.p, old(m.Stored()), call, a)
    ensures Answers(m.p, old(m.Stored()), Op(call, works), a)
  {
    assert WellNamed(m.dir.files);
    ghost var cat := m.Stored();
    hide CatalogOf, WellNamed, AllAgree, Describes, IsAnswer, IsTagAnswer, AreStored, Answers, Apply;
    var ok, results;
    match call {
      case Search(query, limit) => ok, results := m.SearchTopN(query, limit);
      case SearchTag(tag) => ok, results := m.SearchByTag(tag);
    }
    FoundIsAnswered(m.p, cat, call, works, ok, results);
    a := if ok then Results(results) else Refused;
  }

  lemma FoundIsAnswered(p: Platform, cat: Catalog, call: Call, works: bool, ok: bool, results: seq<Entry>)
    requires IsSearch(call) && (works ==> ok) && (ok ==> AreStored(p, cat, results))
    requires ok && call.Search? ==> IsAnswer(p, cat, call.query, call.limit, EntryKeys(results))
    requires ok && call.SearchTag? ==> IsTagAnswer(p, cat, call.tag, EntryKeys(results))
    ensures var a := if ok then Results(results) else Refused;
      Answers(p, cat, Op(call, works), a) && Apply(p, cat, call, a) == cat
  {
  }

  /** One operation, whatever succeeds or fails, does to the directory what it does to a dictionary, and answers
      as the dictionary does. */
  method Step(m: LongTermMemory, op: Op, ghost keys: set<string>) returns (a: Answer)
    requires m.Valid() && m.Stored().Keys <= keys && OwnFiles(keys) && Fits(m.p, op.call, keys)
    modifies m, m.idx, m.dir
    ensures m.Valid() && m.Stored() == Apply(m.p, old(m.Stored()), op.call, a) && m.Stored().Keys <= keys
    ensures Answers(m.p, old(m.Stored()), op, a)
    ensures CrashSafe(old(m.dir.history), m.dir.history, old(m.dir.files), m.dir.files)
  {
    assert WellNamed(m.dir.files);
    ghost var cat := m.Stored();
    hide CatalogOf, WellNamed, AllAgree, Describes, Apply, OwnFiles, Answers, SameEntries;
    m.dir.works := op.works;
    match op.call {
      case Store(_, _, _, _) => a := StepStore(m, op.call, op.works, keys);
      case Forget(key) => a := StepForget(m, key, op.works, keys);
      case Recall(key, now) => a := StepRecall(m, key, now, op.works, keys);
      case _ => a := StepSearch(m, op.call, op.works);
    }
    ApplyKeepsKeys(m.p, cat, op.call, a, keys);
  }

  /** After any run over keys with files of their own, of values that survive JSON, index, cache and directory
      agree, the directory holds what a dictionary would, and every operation was answered as the dictionary
      answers it; a crash leaves what it held before or after the operation that was under way. */
  method Run(m: LongTermMemory, ops: seq<Op>, ghost keys: set<string>)
    returns (answers: seq<Answer>, ghost marks: seq<nat>)
    requires m.Valid() && m.Stored().Keys <= keys && OwnFiles(keys)
    requires forall op | op in ops :: Fits(m.p, op.call, keys)
    modifies m, m.idx, m.dir
    ensures |answers| == |ops| && m.Valid()
    ensures m.Stored() == Trace(m.p, old(m.Stored()), ops, answers)[|ops|]
    ensures AllAnswered(m.p, Trace(m.p, old(m.Stored()), ops, answers), ops, answers)
    ensures CrashStates(m.p, old(m.dir.history), m.dir.history, marks, Trace(m.p, old(m.Stored()), ops, answers))
  {
    ghost var start, h0 := m.Stored(), m.dir.history;
    NothingRecorded(m.p, m.dir.files, ops, h0);
    hide *;
    answers, marks := RunOn(m, ops, [], [|h0|], keys, start, h0);
    RecordedIs(m.p, start, ops, answers, m.dir.files, h0, m.dir.history, marks);
  }

  /** The rest of a run. */
  method RunOn(m: LongTermMemory, ops: seq<Op>, done: seq<Answer>, ghost marked: seq<nat>,
               ghost keys: set<string>, ghost start: Catalog, ghost h0: seq<Files>)
    returns (answers: seq<Answer>, ghost marks: seq<nat>)
    requires |done| <= |ops| && m.Valid() && m.Stored().Keys <= keys && OwnFiles(keys)
    requires forall op | op in ops :: Fits(m.p, op.call, keys)
    requires Recorded(m.p, start, ops[..|done|], done, m.dir.files, h0, m.dir.history, marked)
    modifies m, m.idx, m.dir
    ensures m.Valid() && Recorded(m.p, start, ops, answers, m.dir.files, h0, m.dir.history, marks)
    decreases |ops| - |done|
  {
    hide *;
    if |done| == |ops| {
      assert ops[..|done|] == ops;
      answers, marks := done, marked;
    } else {
      var a := NextStep(m, ops, done, marked, keys, start, h0);
      answers, marks := RunOn(m, ops, done + [a], marked + [|m.dir.history|], keys, start, h0);
    }
  }

  /** The next operation of a run. */
  method NextStep(m: LongTermMemory, ops: seq<Op>, answers: seq<Answer>, ghost marks: seq<nat>,
                  ghost keys: set<string>, ghost start: Catalog, ghost h0: seq<Files>) returns (a: Answer)
    requires |answers| < |ops| && m.Valid() && m.Stored().Keys <= keys && OwnFiles(keys)
    requires Fits(m.p, ops[|answers|].call, keys)
    requires Recorded(m.p, start, ops[..|answers|], answers, m.dir.files, h0, m.dir.history, marks)
    modifies m, m.idx, m.dir
    ensures m.Valid() && m.Stored().Keys <= keys
    ensures Recorded(m.p, start, ops[..|answers| + 1], answers + [a], m.dir.files, h0, m.dir.history,
              marks + [|m.dir.history|])
  {
    ghost var h, files := m.dir.history, m.dir.files;
    hide *;
    a := Step(m, ops[|answers|], keys);
    OneMoreRecorded(m.p, start, ops, answers, h0, h, m.dir.history, marks, files, m.dir.files, a);
  }

  /** What a run has left behind when it has come to the end of `ops`. */
  ghost predicate Recorded(p: Platform, start: Catalog, ops: seq<Op>, answers: seq<Answer>, files: Files,
                           h0: seq<Files>, h: seq<Files>, marks: seq<nat>) {
    && |answers| == |ops| && WellNamed(files)
    && var cats := Trace(p, start, ops, answers);
       && cats[|ops|] == CatalogOf(p, files)
       && AllAnswered(p, cats, ops, answers)
       && CrashStates(p, h0, h, marks, cats)
  }

  lemma RecordedIs(p: Platform, start: Catalog, ops: seq<Op>, answers: seq<Answer>, files: Files,
                   h0: seq<Files>, h: seq<Files>, marks: seq<nat>)
    requires Recorded(p, start, ops, answers, files, h0, h, marks)
    ensures |answers| == |ops| && WellNamed(files) && CatalogOf(p, files) == Trace(p, start, ops, answers)[|ops|]
    ensures AllAnswered(p, Trace(p, start, ops, answers), ops, answers)
    ensures CrashStates(p, h0, h, marks, Trace(p, start, ops, answers))
  {
  }

  lemma NothingRecorded(p: Platform, files: Files, ops: seq<Op>, h: seq<Files>)
    requires WellNamed(files)
    ensures Recorded(p, CatalogOf(p, files), ops[..0], [], files, h, h, [|h|])
  {
    hide CatalogOf;
  }

  lemma OneMoreRecorded(p: Platform, start: Catalog, ops: seq<Op>, answers: seq<Answer>, h0: seq<Files>, h: seq<Files>,
                        h': seq<Files>, marks: seq<nat>, files: Files, files': Files, a: Answer)
    requires |answers| < |ops| && Recorded(p, start, ops[..|answers|], answers, files, h0, h, marks)
    requires WellNamed(files) && WellNamed(files') && CrashSafe(h, h', files, files')
    requires CatalogOf(p, files') == Apply(p, CatalogOf(p, files), ops[|answers|].call, a)
    requires Answers(p, CatalogOf(p, files), ops[|answers|], a)
    ensures Recorded(p, start, ops[..|answers| + 1], answers + [a], files', h0, h', marks + [|h'|])
  {
    hide CatalogOf, WellNamed, CrashSafe, CrashStates, Apply, Trace, Answers, AllAnswered;
    var cats := Trace(p, start, ops[..|answers|], answers);
    OneMoreCrashSafe(p, h0, h, h', files, files', marks, cats);
    TraceStep(p, start, ops, answers, a);
    OneMoreAnswered(p, cats, CatalogOf(p, files'), ops, answers, a);
  }

  lemma OneMoreAnswered(p: Platform, cats: seq<Catalog>, cat: Catalog, ops: seq<Op>, answers: seq<Answer>, a: Answer)
    requires |answers| < |ops| && |cats| == |answers| + 1
    requires AllAnswered(p, cats, ops[..|answers|], answers)
    requires Answers(p, cats[|answers|], ops[|answers|], a)
    ensures AllAnswered(p, cats + [cat], ops[..|answers| + 1], answers + [a])
  {
    var n := |answers|;
    hide Answers;
    assert ops[..n + 1] == ops[..n] + [ops[n]];
    forall i | 0 <= i <= n ensures Answers(p, (cats + [cat])[i], ops[..n + 1][i], (answers + [a])[i]) {
      if i < n {
        assert Answers(p, cats[i], ops[..n][i], answers[i]);
      }
    }
  }

  lemma TraceStep(p: Platform, cat: Catalog, ops: seq<Op>, answers: seq<Answer>, a: Answer)
    requires |answers| < |ops|
    ensures var i := |answers|; var cats := Trace(p, cat, ops[..i], answers);
      Trace(p, cat, ops[..i + 1], answers + [a]) == cats + [Apply(p, cats[i], ops[i].call, a)]
  {
    var i := |answers|;
    assert ops[..i + 1][..i] == ops[..i] && (answers + [a])[..i] == answers;
  }

  /** Two results answering one query on one catalog have the same keys and content, in the same order. */
  lemma SameAnswers(p: Platform, cat: Catalog, query: string, limit: int, here: seq<Entry>, there: seq<Entry>)
    requires IsAnswer(p, cat, query, limit, EntryKeys(here)) && AreStored(p, cat, here)
    requires IsAnswer(p, cat, query, limit, EntryKeys(there)) && AreStored(p, cat, there)
    ensures EntryKeys(here) == EntryKeys(there)
    ensures forall i | 0 <= i < |here| :: Normal(p, here[i]) == Normal(p, there[i])
  {
    AnswerUnique(p, cat, query, limit, EntryKeys(here), EntryKeys(there));
    assert |EntryKeys(here)| == |here| && |EntryKeys(there)| == |there|;
    hide IsAnswer, Meaning;
    forall i | 0 <= i < |here| ensures Normal(p, here[i]) == Normal(p, there[i]) {
      assert EntryKeys(here)[i] == EntryKeys(there)[i];
      assert here[i] in here && there[i] in there;
    }
  }

  /** Any two memories over one directory answer every search alike. */
  method AnswerAlike(m: LongTermMemory, m': LongTermMemory, query: string, limit: int)
    returns (ok: bool, here: seq<Entry>, ok': bool, there: seq<Entry>)
    requires m != m' && m.idx != m'.idx && m.dir == m'.dir && m.p == m'.p && m.Valid() && m'.Valid()
    modifies m, m.idx, m', m'.idx
    ensures m.Valid() && m'.Valid() && (m.dir.works ==> ok && ok')
    ensures ok ==> IsAnswer(m.p, m.Stored(), query, limit, EntryKeys(here)) && AreStored(m.p, m.Stored(), here)
    ensures ok && ok' ==> EntryKeys(here) == EntryKeys(there)
    ensures ok && ok' ==> forall i | 0 <= i < |here| :: Normal(m.p, here[i]) == Normal(m.p, there[i])
  {
    assert WellNamed(m.dir.files);
    hide CatalogOf, WellNamed, AllAgree, Describes, Meaning, IsAnswer, AreStored, EntryKeys;
    ok, here := m.SearchTopN(query, limit);
    ok', there := m'.SearchTopN(query, limit);
    if ok && ok' {
      SameAnswers(m.p, m.Stored(), query, limit, here, there);
      EntryKeysLength(here, there);
    }
  }

  /** A fresh process on the same directory answers every search as the running one does. */
  method RestartAnswersAlike(m: LongTermMemory, query: string, limit: int)
    returns (ok: bool, here: seq<Entry>, ok': bool, there: seq<Entry>)
    requires m.Valid()
    modifies m, m.idx
    ensures m.Valid() && (m.dir.works ==> ok && ok')
    ensures ok ==> IsAnswer(m.p, m.Stored(), query, limit, EntryKeys(here)) && AreStored(m.p, m.Stored(), here)
    ensures ok && ok' ==> EntryKeys(here) == EntryKeys(there)
    ensures ok && ok' ==> forall i | 0 <= i < |here| :: Normal(m.p, here[i]) == Normal(m.p, there[i])
  {
    assert WellNamed(m.dir.files);
    hide CatalogOf, WellNamed, AllAgree, Describes, Meaning, EntryKeys, IsAnswer, AreStored;
    var restarted := new LongTermMemory(m.p, m.dir);
    ok, here, ok', there := AnswerAlike(m, restarted, query, limit);
    if ok && ok' {
      EntryKeysLength(here, there);
    }
  }

  lemma EntryKeysLength(a: seq<Entry>, b: seq<Entry>)
    requires EntryKeys(a) == EntryKeys(b)
    ensures |a| == |b|
  {
    assert |EntryKeys(a)| == |a| && |EntryKeys(b)| == |b|;
  }

  lemma StoredIsRecalled(p: Platform, before: Files, files: Files, e: Entry, later: int)
    requires Directory.OnlyDiffersAt(files, before[Path(e.key) := Json(e)], Temp(e.key))
    ensures Loads(files, Path(e.key)) && files[Path(e.key)].entry == e && !Clash(files, e.key)
    ensures Recalled(p, files, e.key, later) == Some(ReadBack(p, e).(lastAccessed := later))
  {
    PathIsEntryFile(e.key);
    TempIsNoEntryFile(e.key);
    hide Path, Temp;
    assert Path(e.key) in before[Path(e.key) := Json(e)] - {Temp(e.key)};
    assert Path(e.key) in files - {Temp(e.key)};
  }

  lemma StillNoClash(files: Files, files': Files, e: Entry, works: bool)
    requires Refreshed(files, files', Some(e), works) && !Clash(files, e.key)
    ensures !Clash(files', e.key) && (Path(e.key) in files ==> Path(e.key) in files')
  {
    TempIsNoEntryFile(e.key);
    hide Path, Temp;
    assert forall n | n != Temp(e.key) :: n in files' <==> n in files' - {Temp(e.key)};
    if Path(e.key) in files' {
      assert Path(e.key) in files' - {Temp(e.key)};
    }
  }

  /** What was stored is what is recalled, with the new access time and the value as JSON reads it back; once
      forgotten it is not found. */
  method StoreThenRecall(m: LongTermMemory, key: string, json: string, tags: seq<string>, now: int, later: int)
    returns (stored: bool, r: Option<Entry>, forgotten: bool, gone: Option<Entry>)
    requires m.Valid() && !Clash(m.dir.files, key) && Survives(m.p, json)
    modifies m, m.idx, m.dir`files, m.dir`history
    ensures m.dir.works ==> stored && forgotten
    ensures stored ==> r == Some(Entry(key, m.p.reparse(json), tags, now, later))
    ensures forgotten ==> gone == None
  {
    hide CatalogOf, WellNamed, AllAgree, Describes, Meaning, Evicted, Clash, CrashSafe;
    r, forgotten, gone := None, false, None;
    stored := m.Store(key, Some(json), tags, now);
    if stored {
      ghost var files := m.dir.files;
      StoredIsRecalled(m.p, old(m.dir.files), files, Entry(key, json, tags, now, now), later);
      r := m.Recall(key, later);
      StillNoClash(files, m.dir.files, r.value, m.dir.works);
      forgotten := m.Forget(key);
      if forgotten {
        gone := m.Recall(key, later);
      }
    }
  }

  /** Keys that differ only in a blank collide: the store would keep one file for both. */
  lemma CollidingKeys(e: Entry)
    requires e.key == "disk space"
    ensures Path("disk space") == Path("disk_space")
    ensures Clash(map[Path(e.key) := Json(e)], "disk_space")
  {
    SharedFile("disk space", "disk_space");
    PathIsEntryFile("disk_space");
  }
}
