/** Rebuilding, applying and rolling back the agent's own binary (internal/selfmodify/manager.go). */
module SelfModify {
  import opened Options
  import opened Decimal
  import opened Order

  /** The contents of a binary. */
  type Binary = string

  type Backups = map<string, Binary>

  // ---------------------------------------------------------------- backup names

  const PREFIX := "hyperi-"
  const MAX_BACKUPS := 5
  const INT64_LIMIT: int := 0x8000_0000_0000_0000

  function BackupName(ts: nat): string {
    PREFIX + Format(ts)
  }

  predicate IsBackup(name: string) {
    PREFIX <= name
  }

  /** strconv.ParseInt(s, 10, 64) */
  function ParseInt64(s: string): Option<int> {
    var signed := s != "" && (s[0] == '-' || s[0] == '+');
    var digits := if signed then s[1..] else s;
    if digits == "" || !AllDigits(digits) then None
    else
      var v: int := if signed && s[0] == '-' then -(Value(digits) as int) else Value(digits);
      if -INT64_LIMIT <= v < INT64_LIMIT then Some(v) else None
  }

  /** The time in a backup's name, 0 if there is none. */
  function BackupTimestamp(name: string): int {
    var ts := if IsBackup(name) then name[|PREFIX|..] else name;
    match ParseInt64(ts) case Some(n) => n case None => 0
  }

  /** A number is read, with its sign, if it fits into 64 bits. */
  lemma ParseInt64Is(n: nat, v: int)
    requires v + n == 0
    ensures ParseInt64(Format(n)) == ParseInt64("+" + Format(n)) == if n < INT64_LIMIT then Some(n) else None
    ensures ParseInt64("-" + Format(n)) == if n <= INT64_LIMIT then Some(v) else None
  {
    ValueOfFormat(n);
    var f := Format(n);
    hide Format, Value;
    assert ("+" + f)[1..] == f && ("-" + f)[1..] == f && f[0] in f;
  }

  /** Anything else is no number. */
  lemma NoNumber(s: string, c: char)
    requires s == "" || (c in s && !IsDigit(c) && c != '-' && c != '+')
    ensures ParseInt64(s) == None
  {
    assert s != "" ==> s == [s[0]] + s[1..];
  }

  /** A backup whose name carries no number counts as the oldest. */
  lemma NoTimestamp(name: string)
    requires ParseInt64(name) == None
    ensures IsBackup(PREFIX + name) && BackupTimestamp(PREFIX + name) == 0
  {
    assert (PREFIX + name)[|PREFIX|..] == name;
  }

  /** The time a backup was named after is read back from its name. */
  lemma TimestampOfName(ts: nat)
    requires ts < INT64_LIMIT
    ensures IsBackup(BackupName(ts)) && BackupTimestamp(BackupName(ts)) == ts
  {
    ValueOfFormat(ts);
    var s := Format(ts);
    assert BackupName(ts)[|PREFIX|..] == s;
    assert s[0] in s && IsDigit(s[0]);
  }

  // ---------------------------------------------------------------- the disk

  /** How writing a file ends; a failed write may leave part of the data behind. */
  datatype Write = Written | WriteFailed(partial: Option<Binary>)

  /** What the operating system does during one operation: whether the backup directory can be made, the installed
      binary read, its copy written and the directory listed, which backups cannot be removed, what the final build
      gives, whether the binary to install can be read, staged and renamed, and a stale staged file removed. */
  datatype World = World(
    mkdir: bool, read: bool, backup: Write, lists: bool, stuck: set<string>, finalBuild: Option<Binary>,
    load: bool, install: Write, rename: bool, cleanup: bool)
  {
    predicate Installs() {
      load && install.Written? && rename
    }

    /** The backups can be pruned as intended. */
    predicate Prunes() {
      lists && stuck == {}
    }
  }

  /** The installed binary, the file staged beside it, and the backup directory. */
  datatype Disk = Disk(binary: Option<Binary>, staged: Option<Binary>, backups: Backups)

  /** All backup names, oldest first by the time in the name. */
  ghost predicate IsListing(dir: Backups, names: seq<string>) {
    OldestFirst(names) && Elements(names) == (set n | n in dir && IsBackup(n))
  }

  /** How many of `n` backups are too many. */
  function Excess(n: nat, keep: nat): nat {
    if n <= keep then 0 else n - keep
  }

  /** `after` is `dir` without all but the last `keep` names of some listing. Nothing happens if there is no listing,
      and the backups that cannot be removed stay. */
  ghost predicate Pruned(dir: Backups, keep: nat, w: World, after: Backups) {
    if w.lists then
      exists names :: IsListing(dir, names) && after == dir - (Elements(names[..Excess(|names|, keep)]) - w.stuck)
    else
      after == dir
  }

  /** `data` is the content of the last name of a listing. */
  ghost predicate IsNewest(dir: Backups, data: Binary) {
    exists names :: IsListing(dir, names) && LastNamed(dir, names, data)
  }

  ghost predicate LastNamed(dir: Backups, names: seq<string>, data: Binary) {
    names != [] && names[|names| - 1] in dir && data == dir[names[|names| - 1]]
  }

  // ---------------------------------------------------------------- the backups as a window on what was backed up

  datatype Backup = Backup(ts: nat, binary: Binary)

  ghost predicate Rising(w: seq<Backup>) {
    forall i, j | 0 <= i < j < |w| :: w[i].ts < w[j].ts
  }

  /** The backups of `dir` are those of `w`, which is in order of creation. */
  ghost predicate Holds(dir: Backups, w: seq<Backup>) {
    && Rising(w)
    && (forall i | 0 <= i < |w| ::
          w[i].ts < INT64_LIMIT && BackupName(w[i].ts) in dir && dir[BackupName(w[i].ts)] == w[i].binary)
    && (forall n | n in dir && IsBackup(n) :: exists i :: 0 <= i < |w| && n == BackupName(w[i].ts))
  }

  function Last<T>(s: seq<T>, n: nat): seq<T> {
    if |s| <= n then s else s[|s| - n..]
  }

  function Names(w: seq<Backup>): seq<string> {
    seq(|w|, i requires 0 <= i < |w| => BackupName(w[i].ts))
  }

  /** A directory holding `w` has one listing: the names of `w`. */
  lemma ListingOfWindow(dir: Backups, w: seq<Backup>, names: seq<string>)
    requires Holds(dir, w) && IsListing(dir, names)
    ensures names == Names(w)
  {
    var less := (a: string, b: string) =>
      BackupTimestamp(a) < BackupTimestamp(b) || (BackupTimestamp(a) == BackupTimestamp(b) && StrLess(a, b));
    LessIsStrict(less);
    forall i | 0 <= i < |w| ensures BackupTimestamp(Names(w)[i]) == w[i].ts && IsBackup(Names(w)[i]) {
      TimestampOfName(w[i].ts);
    }
    assert Ascending(less, Names(w));
    WindowElements(dir, w);
    forall i, j | 0 <= i < j < |names| ensures less(names[i], names[j]) {
      assert InOrder(names, i, j);
      assert names[i] in Elements(names) && names[j] in Elements(names);
      assert names[i] in Names(w) && names[j] in Names(w);
    }
    AscendingUnique(less, names, Names(w));
  }

  lemma LessIsStrict(less: (string, string) -> bool)
    requires forall a, b :: less(a, b) <==>
      BackupTimestamp(a) < BackupTimestamp(b) || (BackupTimestamp(a) == BackupTimestamp(b) && StrLess(a, b))
    ensures Strict(less)
  {
    StrLessStrict();
    hide BackupTimestamp, StrLess;
  }

  lemma WindowElements(dir: Backups, w: seq<Backup>)
    requires Holds(dir, w)
    ensures Elements(Names(w)) == (set n | n in dir && IsBackup(n))
  {
    forall n ensures n in Elements(Names(w)) <==> n in dir && IsBackup(n) {
      if n in Names(w) {
        var i :| 0 <= i < |w| && Names(w)[i] == n;
        TimestampOfName(w[i].ts);
      }
      if n in dir && IsBackup(n) {
        var i :| 0 <= i < |w| && n == BackupName(w[i].ts);
        assert Names(w)[i] == n;
      }
    }
  }

  lemma WindowNamesDistinct(dir: Backups, w: seq<Backup>, i: nat, j: nat)
    requires Holds(dir, w) && i < |w| && j < |w| && BackupName(w[i].ts) == BackupName(w[j].ts)
    ensures i == j
  {
    TimestampOfName(w[i].ts);
    TimestampOfName(w[j].ts);
  }

  lemma LaterNameIsNew(w: seq<Backup>, ts: nat)
    requires forall i | 0 <= i < |w| :: w[i].ts < ts
    requires ts < INT64_LIMIT
    ensures IsBackup(BackupName(ts)) && forall i | 0 <= i < |w| :: BackupName(w[i].ts) != BackupName(ts)
  {
    TimestampOfName(ts);
    forall i | 0 <= i < |w| ensures BackupName(w[i].ts) != BackupName(ts) {
      TimestampOfName(w[i].ts);
    }
  }

  /** A new backup under a later time joins the window at its end. */
  lemma WindowGrows(dir: Backups, w: seq<Backup>, ts: nat, binary: Binary)
    requires Holds(dir, w) && ts < INT64_LIMIT && (w != [] ==> w[|w| - 1].ts < ts)
    ensures Holds(dir[BackupName(ts) := binary], w + [Backup(ts, binary)])
  {
    hide BackupName, IsBackup;
    var dir', w' := dir[BackupName(ts) := binary], w + [Backup(ts, binary)];
    assert forall i | 0 <= i < |w| :: w[i].ts <= w[|w| - 1].ts;
    LaterNameIsNew(w, ts);
    forall n | n in dir' && IsBackup(n) ensures exists i :: 0 <= i < |w'| && n == BackupName(w'[i].ts) {
      if n == BackupName(ts) {
        assert w'[|w|].ts == ts;
      } else {
        var i :| 0 <= i < |w| && n == BackupName(w[i].ts);
        assert w'[i] == w[i];
      }
    }
  }

  /** The backups of `w` that are not gone. */
  function Left(w: seq<Backup>, gone: set<string>): (l: seq<Backup>)
    ensures forall b :: b in l <==> b in w && BackupName(b.ts) !in gone
  {
    if w == [] then []
    else
      var n := |w| - 1;
      Left(w[..n], gone) + (if BackupName(w[n].ts) in gone then [] else [w[n]])
  }

  lemma {:induction false} LeftConcat(a: seq<Backup>, b: seq<Backup>, gone: set<string>)
    ensures Left(a + b, gone) == Left(a, gone) + Left(b, gone)
    decreases |b|
  {
    if b == [] {
      assert a + b == a;
    } else {
      var n := |b| - 1;
      assert (a + b)[..|a + b| - 1] == a + b[..n];
      LeftConcat(a, b[..n], gone);
    }
  }

  lemma {:induction false} LeftAll(w: seq<Backup>, gone: set<string>)
    requires forall b | b in w :: BackupName(b.ts) !in gone
    ensures Left(w, gone) == w
    decreases |w|
  {
    hide BackupName;
    if w != [] {
      LeftAll(w[..|w| - 1], gone);
      assert w == w[..|w| - 1] + [w[|w| - 1]];
    }
  }

  lemma {:induction false} LeftNone(w: seq<Backup>, gone: set<string>)
    requires forall b | b in w :: BackupName(b.ts) in gone
    ensures Left(w, gone) == []
    decreases |w|
  {
    if w != [] {
      LeftNone(w[..|w| - 1], gone);
    }
  }

  lemma {:induction false} LeftRises(w: seq<Backup>, gone: set<string>)
    requires Rising(w)
    ensures Rising(Left(w, gone))
    decreases |w|
  {
    hide BackupName;
    if w != [] {
      var n := |w| - 1;
      LeftRises(w[..n], gone);
      var front := Left(w[..n], gone);
      forall i | 0 <= i < |front| ensures front[i].ts < w[n].ts {
        assert front[i] in w[..n];
      }
      assert Left(w, gone) == front || Left(w, gone) == front + [w[n]];
      hide Left;
    }
  }

  /** Removing files from the directory removes them from the window. */
  lemma WindowShrinks(dir: Backups, w: seq<Backup>, gone: set<string>)
    requires Holds(dir, w)
    ensures Holds(dir - gone, Left(w, gone))
  {
    var l := Left(w, gone);
    LeftRises(w, gone);
    hide BackupName, IsBackup, Left, Rising;
    forall i | 0 <= i < |l|
      ensures l[i].ts < INT64_LIMIT && BackupName(l[i].ts) in dir - gone
      ensures (dir - gone)[BackupName(l[i].ts)] == l[i].binary
    {
      assert l[i] in w;
    }
    forall n | n in dir - gone && IsBackup(n) ensures exists i :: 0 <= i < |l| && n == BackupName(l[i].ts) {
      var i :| 0 <= i < |w| && n == BackupName(w[i].ts);
      var j := LeftHas(w, gone, i);
    }
  }

  lemma LeftHas(w: seq<Backup>, gone: set<string>, i: nat) returns (j: nat)
    requires i < |w| && BackupName(w[i].ts) !in gone
    ensures j < |Left(w, gone)| && Left(w, gone)[j] == w[i]
  {
    assert w[i] in Left(w, gone);
    hide Left;
    j :| 0 <= j < |Left(w, gone)| && Left(w, gone)[j] == w[i];
  }

  lemma WindowNameGone(dir: Backups, w: seq<Backup>, cut: nat, i: nat)
    requires Holds(dir, w) && cut <= |w| && i < |w|
    ensures BackupName(w[i].ts) in Elements(Names(w)[..cut]) <==> i < cut
  {
    if i < cut {
      assert Names(w)[..cut][i] == BackupName(w[i].ts);
    }
    if BackupName(w[i].ts) in Names(w)[..cut] {
      var j :| 0 <= j < cut && Names(w)[j] == BackupName(w[i].ts);
      WindowNamesDistinct(dir, w, i, j);
    }
  }

  lemma NamesGone(dir: Backups, w: seq<Backup>, cut: nat, stuck: set<string>)
    requires Holds(dir, w) && cut <= |w|
    ensures forall b | b in w[cut..] :: BackupName(b.ts) !in Elements(Names(w)[..cut]) - stuck
    ensures stuck == {} ==> forall b | b in w[..cut] :: BackupName(b.ts) in Elements(Names(w)[..cut]) - stuck
  {
    hide BackupName, Holds;
    forall b | b in w[cut..] ensures BackupName(b.ts) !in Elements(Names(w)[..cut]) - stuck {
      var i :| cut <= i < |w| && w[i] == b;
      WindowNameGone(dir, w, cut, i);
    }
    forall b | b in w[..cut] && stuck == {} ensures BackupName(b.ts) in Elements(Names(w)[..cut]) - stuck {
      var i :| 0 <= i < cut && w[i] == b;
      WindowNameGone(dir, w, cut, i);
    }
  }

  lemma LeftOfParts(a: seq<Backup>, b: seq<Backup>, gone: set<string>)
    requires forall x | x in b :: BackupName(x.ts) !in gone
    ensures Left(a + b, gone) == Left(a, gone) + b
    ensures (forall x | x in a :: BackupName(x.ts) in gone) ==> Left(a + b, gone) == b
  {
    hide Left, BackupName;
    LeftConcat(a, b, gone);
    LeftAll(b, gone);
    if forall x | x in a :: BackupName(x.ts) in gone {
      LeftNone(a, gone);
      assert [] + b == b;
    }
  }

  /** What is left when names among the oldest go: some of the oldest, and all of the others. */
  lemma OldestGone(dir: Backups, w: seq<Backup>, cut: nat, stuck: set<string>, gone: set<string>)
    requires Holds(dir, w) && cut <= |w| && gone == Elements(Names(w)[..cut]) - stuck
    ensures Left(w, gone) == Left(w[..cut], gone) + w[cut..]
    ensures stuck == {} ==> Left(w, gone) == w[cut..]
  {
    NamesGone(dir, w, cut, stuck);
    assert w == w[..cut] + w[cut..];
    hide *;
    LeftOfParts(w[..cut], w[cut..], gone);
  }

  /** Pruning never removes one of the newest backups, and unless the operating system fails it removes all
      others. */
  lemma PruningKeepsLast(dir: Backups, w: seq<Backup>, keep: nat, world: World, after: Backups)
    returns (w': seq<Backup>)
    requires Holds(dir, w) && Pruned(dir, keep, world, after)
    ensures Holds(after, w') && Last(w', keep) == Last(w, keep) && forall b | b in w' :: b in w
    ensures world.Prunes() ==> w' == Last(w, keep)
  {
    w' := w;
    if world.lists {
      var names :| IsListing(dir, names)
        && after == dir - (Elements(names[..Excess(|names|, keep)]) - world.stuck);
      ListingOfWindow(dir, w, names);
      var cut := Excess(|w|, keep);
      var gone := Elements(names[..cut]) - world.stuck;
      WindowShrinks(dir, w, gone);
      OldestGone(dir, w, cut, world.stuck, gone);
      w' := Left(w, gone);
      hide Holds;
      if cut == 0 {
        assert names[..0] == [] && w[..0] == [] && w[0..] == w;
      } else {
        LastOfTail(Left(w[..cut], gone), w[cut..], keep);
      }
    }
  }

  lemma LastOfTail<T>(a: seq<T>, b: seq<T>, n: nat)
    requires |b| == n
    ensures Last(a + b, n) == b
  {
  }

  /** The last of two sequences that agree on the last `n`, when one more comes. */
  lemma LastOfLast<T>(s: seq<T>, t: seq<T>, x: T, n: nat)
    requires n > 0 && Last(s, n) == Last(t, n)
    ensures Last(s + [x], n) == Last(t + [x], n)
  {
    LastTail(s, x, n);
    LastTail(t, x, n);
  }

  lemma LastTail<T>(s: seq<T>, x: T, n: nat)
    requires n > 0
    ensures Last(s + [x], n) == (if |Last(s, n)| < n then Last(s, n) else Last(s, n)[1..]) + [x]
  {
  }

  /** The directory holds the last five backups of `made`, and perhaps some of the others that could not be
      removed. */
  ghost predicate Keeps(dir: Backups, made: seq<Backup>) {
    exists w :: Holds(dir, w) && KeepsLast(w, made)
  }

  ghost predicate KeepsLast(w: seq<Backup>, made: seq<Backup>) {
    Last(w, MAX_BACKUPS) == Last(made, MAX_BACKUPS) && forall b | b in w :: b in made
  }

  /** Where a name goes: after the names that are not newer. */
  function TimeIndex(names: seq<string>, name: string): (k: nat)
    ensures k <= |names|
    ensures forall i | k <= i < |names| :: BackupTimestamp(names[i]) > BackupTimestamp(name)
    ensures k > 0 ==> BackupTimestamp(names[k - 1]) <= BackupTimestamp(name)
  {
    var n := |names| - 1;
    if names == [] || BackupTimestamp(names[n]) <= BackupTimestamp(name) then |names|
    else TimeIndex(names[..n], name)
  }

  lemma ListingGrows(dir: Backups, todo: set<string>, name: string, names: seq<string>)
    requires name in dir && name !in todo && IsListing(dir - (todo + {name}), names)
    ensures !IsBackup(name) ==> IsListing(dir - todo, names)
    ensures IsBackup(name) ==>
      var k := TimeIndex(names, name); IsListing(dir - todo, names[..k] + [name] + names[k..])
  {
    assert forall i | 0 <= i < |names| :: names[i] in Elements(names);
    hide BackupTimestamp, IsBackup;
    if IsBackup(name) {
      var k := TimeIndex(names, name);
      assert name !in Elements(names);
      InsertedInOrder(names, name);
      assert Elements(names[..k] + [name] + names[k..]) == (set n | n in dir - todo && IsBackup(n));
    }
  }

  ghost predicate OldestFirst(names: seq<string>) {
    forall i, j {:trigger InOrder(names, i, j)} | 0 <= i < j < |names| :: InOrder(names, i, j)
  }

  ghost predicate InOrder(names: seq<string>, i: nat, j: nat)
    requires i < j < |names|
  {
    names[i] != names[j] && BackupTimestamp(names[i]) <= BackupTimestamp(names[j])
  }

  lemma InsertedInOrder(names: seq<string>, name: string)
    requires OldestFirst(names) && name !in names
    ensures var k := TimeIndex(names, name);
      var more := names[..k] + [name] + names[k..];
      OldestFirst(more) && Elements(more) == Elements(names) + {name}
  {
    var k := TimeIndex(names, name);
    var more := names[..k] + [name] + names[k..];
    hide BackupTimestamp, TimeIndex;
    forall i, j | 0 <= i < j < |more| ensures InOrder(more, i, j) {
      InsertedPair(names, name, k, i, j);
    }
    InsertedElements(names, k, name);
  }

  lemma InsertedPair(names: seq<string>, name: string, k: nat, i: nat, j: nat)
    requires OldestFirst(names) && name !in names && k == TimeIndex(names, name)
    requires i < j < |names| + 1
    ensures InOrder(names[..k] + [name] + names[k..], i, j)
  {
    hide BackupTimestamp;
    var more := names[..k] + [name] + names[k..];
    InsertedAt(names, k, name, i);
    InsertedAt(names, k, name, j);
    var i', j' := if i > k then i - 1 else i, if j > k then j - 1 else j;
    if i != k && j != k {
      assert InOrder(names, i', j');
    } else if j == k && i < k - 1 {
      assert InOrder(names, i, k - 1);
    }
  }

  lemma InsertedAt<T>(s: seq<T>, k: nat, x: T, i: nat)
    requires k <= |s| && i <= |s|
    ensures |s[..k] + [x] + s[k..]| == |s| + 1
    ensures (s[..k] + [x] + s[k..])[i] == if i < k then s[i] else if i == k then x else s[i - 1]
  {
  }

  // ---------------------------------------------------------------- what the operations do

  /** The outcomes of `go build`, `go vet` and `go test`. */
  datatype Checks = Checks(build: bool, vet: bool, test: bool) {
    predicate AllPassed() {
      build && vet && test
    }
  }

  datatype CheckResult = CheckResult(name: string, passed: bool)

  datatype VerifyResult = VerifyResult(passed: bool, steps: seq<CheckResult>)

  datatype Command =
    | VerifyOnly(checks: Checks)
    | Apply(checks: Checks, now: nat, world: World)
    | Rollback(world: World)

  datatype Outcome =
    | Verified(passed: bool)
    | Refused | BackupFailed | BuildFailed | InstallFailed | Applied
    | NotRestored | Restored

  predicate BacksUp(d: Disk, w: World) {
    w.mkdir && d.binary.Some? && w.read && w.backup.Written?
  }

  /** What a broken-off backup write leaves in the backup directory. */
  function Torn(d: Disk, w: World): Option<Binary> {
    if w.mkdir && d.binary.Some? && w.read && w.backup.WriteFailed? then w.backup.partial else None
  }

  /** How an Apply ends. */
  function ApplyOutcome(d: Disk, checks: Checks, w: World): Outcome {
    if !checks.AllPassed() then Refused
    else if !BacksUp(d, w) then BackupFailed
    else if w.finalBuild.None? then BuildFailed
    else if !w.Installs() then InstallFailed
    else Applied
  }

  /** The backup made of the installed binary, whole or torn. */
  function BackedUp(d: Disk, now: nat, w: World): seq<Backup> {
    if BacksUp(d, w) then [Backup(now, d.binary.value)]
    else if Torn(d, w).Some? then [Backup(now, Torn(d, w).value)]
    else []
  }

  /** The backup a command makes. */
  function Made(d: Disk, c: Command): seq<Backup> {
    if c.Apply? && c.checks.AllPassed() then BackedUp(d, c.now, c.world) else []
  }

  function WithMade(dir: Backups, made: seq<Backup>): Backups {
    if made == [] then dir else dir[BackupName(made[0].ts) := made[0].binary]
  }

  /** The file staged beside the binary after an install: a failed write leaves what it wrote. */
  function StagedAfter(staged: Option<Binary>, data: Binary, w: World): Option<Binary> {
    if !w.load || w.install == WriteFailed(None) then staged
    else if w.install.WriteFailed? then w.install.partial
    else if w.rename || w.cleanup then None
    else Some(data)
  }

  function Installed(d: Disk, data: Binary, w: World): Disk {
    d.(binary := if w.Installs() then Some(data) else d.binary, staged := StagedAfter(d.staged, data, w))
  }

  predicate HasBackup(dir: Backups) {
    exists n :: n in dir && IsBackup(n)
  }

  /** The backups are pruned if there is a new one. */
  ghost predicate BackupsAfter(dir: Backups, r: Outcome, w: World, after: Backups) {
    if r == Refused || r == BackupFailed then after == dir else Pruned(dir, MAX_BACKUPS, w, after)
  }

  /** What a command may find, how it ends, and what it leaves on disk. */
  ghost predicate Step(d: Disk, c: Command, r: Outcome, d': Disk) {
    match c
    case VerifyOnly(checks) => r == Verified(checks.AllPassed()) && d' == d
    case Apply(checks, _, w) =>
      && r == ApplyOutcome(d, checks, w)
      && BackupsAfter(WithMade(d.backups, Made(d, c)), r, w, d'.backups)
      && d' == (if r == InstallFailed || r == Applied then Installed(d, w.finalBuild.value, w) else d)
               .(backups := d'.backups)
    case Rollback(w) =>
      if w.lists && HasBackup(d.backups) then
        && r == (if w.Installs() then Restored else NotRestored)
        && exists data :: IsNewest(d.backups, data) && d' == Installed(d, data, w)
      else
        r == NotRestored && d' == d
  }

  /** What a crash in the middle of a command may leave: the old binary, or the new one once the backups are what
      they are to be. */
  ghost predicate CrashState(s: Disk, d: Disk, c: Command, d': Disk) {
    && (s.binary == d.binary || (s.binary == d'.binary && s.backups == d'.backups))
    && if c.Apply? && c.checks.AllPassed() then DuringBackup(s.backups, d, c.now, c.world, d'.backups)
       else s.backups == d.backups
  }

  /** Until the new backup is complete it is the only one that changes; then others go, but none of those that are to
      stay. */
  ghost predicate DuringBackup(s: Backups, d: Disk, now: nat, w: World, after: Backups) {
    || s - {BackupName(now)} == d.backups - {BackupName(now)}
    || (BacksUp(d, w) && Part(after, s) && Part(s, WithMade(d.backups, BackedUp(d, now, w))))
  }

  ghost predicate Part(a: Backups, b: Backups) {
    forall n | n in a :: n in b && a[n] == b[n]
  }

  // ---------------------------------------------------------------- the manager

  /** `history` records every state of the disk a crash could leave behind. */
  class Manager {
    var disk: Disk
    var lastVerify: Option<VerifyResult>
    ghost var history: seq<Disk>

    constructor (disk: Disk)
      ensures this.disk == disk && lastVerify == None && history == []
    {
      this.disk, lastVerify, history := disk, None, [];
    }

    /** Run the checks in order, stopping at the first failure. */
    method Verify(checks: Checks) returns (r: VerifyResult)
      modifies this`lastVerify
      ensures r.passed <==> checks.AllPassed()
      ensures lastVerify == Some(r)
      ensures 1 <= |r.steps| <= 3 && forall i | 0 <= i < |r.steps| - 1 :: r.steps[i].passed
      ensures r.passed <==> |r.steps| == 3 && r.steps[2].passed
      ensures forall i | 0 <= i < |r.steps| ::
        r.steps[i] == CheckResult(["build", "vet", "test"][i], [checks.build, checks.vet, checks.test][i])
    {
      var steps := [("build", checks.build), ("vet", checks.vet), ("test", checks.test)];
      r := VerifyResult(true, []);
      for i := 0 to |steps|
        invariant r.passed && |r.steps| == i
        invariant forall j | 0 <= j < i :: r.steps[j] == CheckResult(steps[j].0, steps[j].1) && steps[j].1
      {
        assert i == 0 || i == 1 || i == 2;
        r := r.(steps := r.steps + [CheckResult(steps[i].0, steps[i].1)]);
        if !steps[i].1 {
          r := r.(passed := false);
          lastVerify := Some(r);
          return;
        }
      }
      assert steps[0].1 && steps[1].1 && steps[2].1;
      lastVerify := Some(r);
    }

    /** Backup names sorted by the time they carry. */
    method ListBackups(w: World) returns (ok: bool, names: seq<string>)
      ensures ok == w.lists
      ensures ok ==> IsListing(disk.backups, names)
    {
      ok, names := w.lists, [];
      if !ok {
        return;
      }
      hide BackupTimestamp, IsBackup;
      var todo := disk.backups.Keys;
      while todo != {}
        invariant todo <= disk.backups.Keys
        invariant IsListing(disk.backups - todo, names)
      {
        var name :| name in todo;
        todo := todo - {name};
        ListingGrows(disk.backups, todo, name, names);
        if IsBackup(name) {
          var k := TimeIndex(names, name);
          names := names[..k] + [name] + names[k..];
        }
      }
      assert disk.backups - todo == disk.backups;
    }

    /** Write into the backup directory. The file passes through a torn state. */
    method WriteBackup(name: string, data: Binary, end: Write) returns (ok: bool)
      modifies this`disk, this`history
      ensures ok == end.Written?
      ensures disk == match end
        case Written => old(disk).(backups := old(disk).backups[name := data])
        case WriteFailed(None) => old(disk)
        case WriteFailed(Some(torn)) => old(disk).(backups := old(disk).backups[name := torn])
      ensures old(history) <= history
      ensures forall i | |old(history)| <= i < |history| ::
        history[i].binary == disk.binary && history[i].backups - {name} == old(disk).backups - {name}
    {
      ok := end.Written?;
      if end == WriteFailed(None) {
        return;
      }
      var torn: Binary := *;
      disk := disk.(backups := disk.backups[name := torn]);
      history := history + [disk];
      disk := disk.(backups := disk.backups[name := if ok then data else end.partial.value]);
      history := history + [disk];
    }

    /** Copy the installed binary into the backup directory under the current time, then prune. */
    method BackupCurrentBinary(now: nat, w: World) returns (ok: bool)
      modifies this`disk, this`history
      ensures ok == BacksUp(old(disk), w)
      ensures disk == old(disk).(backups := disk.backups)
      ensures var dir := WithMade(old(disk).backups, BackedUp(old(disk), now, w));
        if ok then Pruned(dir, MAX_BACKUPS, w, disk.backups) else disk.backups == dir
      ensures DuringBackup(disk.backups, old(disk), now, w, disk.backups)
      ensures old(history) <= history
      ensures forall i | |old(history)| <= i < |history| :: history[i].binary == disk.binary
      ensures forall i | |old(history)| <= i < |history| ::
        DuringBackup(history[i].backups, old(disk), now, w, disk.backups)
    {
      hide Pruned, BackupName;
      if !w.mkdir || disk.binary.None? || !w.read {
        return false;
      }
      ok := WriteBackup(BackupName(now), disk.binary.value, w.backup);
      ghost var midway := history;
      if ok {
        PruneBackups(MAX_BACKUPS, w);
      }
      assert forall i | |old(history)| <= i < |midway| :: history[i] == midway[i];
    }

    /** Remove all but the newest backups, as far as they can be removed. */
    method PruneBackups(keep: nat, w: World)
      modifies this`disk, this`history
      ensures Pruned(old(disk).backups, keep, w, disk.backups)
      ensures disk == old(disk).(backups := disk.backups)
      ensures old(history) <= history
      ensures Shrunk(disk, old(disk), disk)
      ensures forall i | |old(history)| <= i < |history| ::
        Shrunk(history[i], old(disk), disk)
    {
      ghost var dir := disk.backups;
      var ok, names := ListBackups(w);
      if !ok {
        return;
      }
      hide IsListing, IsBackup;
      var n := Excess(|names|, keep);
      assert names[..0] == [] && dir - (Elements([]) - w.stuck) == dir;
      for i := 0 to n
        invariant disk == old(disk).(backups := dir - (Elements(names[..i]) - w.stuck))
        invariant old(history) <= history
        invariant forall j | |old(history)| <= j < |history| ::
          Shrunk(history[j], old(disk), disk)
      {
        assert names[..i + 1] == names[..i] + [names[i]];
        if names[i] !in w.stuck {
          disk := disk.(backups := disk.backups - {names[i]});
          history := history + [disk];
        }
        assert disk.backups == dir - (Elements(names[..i + 1]) - w.stuck);
      }
    }

    /** Stage the new contents beside the binary, then rename them into place: whatever happens on the way, the
        binary is the old one or the new one. */
    method InstallBinary(data: Binary, w: World) returns (ok: bool)
      modifies this`disk, this`history
      ensures ok == w.Installs()
      ensures disk == Installed(old(disk), data, w)
      ensures old(history) <= history
      ensures forall i | |old(history)| <= i < |history| ::
        history[i].backups == disk.backups && history[i].binary in [old(disk).binary, disk.binary]
    {
      if !w.load || w.install == WriteFailed(None) {
        return false;
      }
      var torn: Binary := *;
      disk := disk.(staged := Some(torn));
      history := history + [disk];
      if w.install.WriteFailed? {
        disk := disk.(staged := w.install.partial);
        history := history + [disk];
        return false;
      }
      disk := disk.(staged := Some(data));
      history := history + [disk];
      if !w.rename {
        if w.cleanup {
          disk := disk.(staged := None);
          history := history + [disk];
        }
        return false;
      }
      disk := disk.(binary := disk.staged, staged := None);
      history := history + [disk];
      ok := true;
    }

    /** Verify, back up, build once more, install. Only a build whose checks all passed replaces the binary. */
    method Apply(checks: Checks, now: nat, w: World) returns (r: Outcome)
      modifies this
      ensures Step(old(disk), Command.Apply(checks, now, w), r, disk)
      ensures old(history) <= history
      ensures forall i | |old(history)| <= i < |history| ::
        CrashState(history[i], old(disk), Command.Apply(checks, now, w), disk)
    {
      hide Pruned, BackupName;
      var v := Verify(checks);
      if !v.passed {
        return Refused;
      }
      var ok := BackupCurrentBinary(now, w);
      if !ok {
        return BackupFailed;
      }
      if w.finalBuild.None? {
        return BuildFailed;
      }
      ghost var midway := history;
      ok := InstallBinary(w.finalBuild.value, w);
      assert forall i | |old(history)| <= i < |midway| :: history[i] == midway[i];
      r := if ok then Applied else InstallFailed;
    }

    /** Install the newest backup. */
    method Rollback(w: World) returns (r: Outcome)
      modifies this`disk, this`history
      ensures Step(old(disk), Command.Rollback(w), r, disk)
      ensures old(history) <= history
      ensures forall i | |old(history)| <= i < |history| ::
        CrashState(history[i], old(disk), Command.Rollback(w), disk)
    {
      var ok, names := ListBackups(w);
      if !ok || |names| == 0 {
        assert ok ==> forall n | n in disk.backups && IsBackup(n) :: n in Elements(names);
        return NotRestored;
      }
      var latest := names[|names| - 1];
      assert latest in Elements(names);
      assert LastNamed(disk.backups, names, disk.backups[latest]);
      assert IsNewest(disk.backups, disk.backups[latest]);
      hide IsNewest, IsListing, LastNamed;
      ok := InstallBinary(disk.backups[latest], w);
      r := if ok then Restored else NotRestored;
    }
  }

  /** Between `d` and `d'` only backups went. */
  ghost predicate Shrunk(s: Disk, d: Disk, d': Disk) {
    s.binary == d.binary && Part(d'.backups, s.backups) && Part(s.backups, d.backups)
  }

  // ---------------------------------------------------------------- runs

  ghost predicate IsRun(states: seq<Disk>, script: seq<Command>, outcomes: seq<Outcome>) {
    && |states| == |script| + 1 && |outcomes| == |script|
    && forall i | 0 <= i < |script| :: Step(states[i], script[i], outcomes[i], states[i + 1])
  }

  /** The states recorded while a command was carried out are crash states of it; `marks` says how many states had
      been recorded between the commands. */
  ghost predicate CrashStates(before: seq<Disk>, after: seq<Disk>, marks: seq<nat>, states: seq<Disk>,
                              script: seq<Command>)
  {
    && before <= after && |marks| == |states| == |script| + 1
    && marks[0] == |before| && marks[|script|] == |after|
    && forall k | 0 <= k < |script| :: CrashStatesOf(after, marks[k], marks[k + 1], states[k], script[k], states[k + 1])
  }

  ghost predicate CrashStatesOf(h: seq<Disk>, a: nat, b: nat, d: Disk, c: Command, d': Disk) {
    a <= b <= |h| && forall i | a <= i < b :: CrashState(h[i], d, c, d')
  }

  lemma OneMoreCrashStates(before: seq<Disk>, h: seq<Disk>, h': seq<Disk>, marks: seq<nat>, states: seq<Disk>,
                           script: seq<Command>, c: Command, d': Disk)
    requires CrashStates(before, h, marks, states, script) && h <= h'
    requires CrashStatesOf(h', |h|, |h'|, states[|script|], c, d')
    ensures CrashStates(before, h', marks + [|h'|], states + [d'], script + [c])
  {
    hide CrashState;
    var n, marks', states', script' := |script|, marks + [|h'|], states + [d'], script + [c];
    forall k | 0 <= k <= n
      ensures CrashStatesOf(h', marks'[k], marks'[k + 1], states'[k], script'[k], states'[k + 1])
    {
      if k < n {
        assert CrashStatesOf(h, marks[k], marks[k + 1], states[k], script[k], states[k + 1]);
        assert forall i | marks[k] <= i < marks[k + 1] :: h'[i] == h[i];
      }
    }
  }

  lemma OneMoreStep(states: seq<Disk>, script: seq<Command>, outcomes: seq<Outcome>, c: Command, r: Outcome, d': Disk)
    requires IsRun(states, script, outcomes) && Step(states[|script|], c, r, d')
    ensures IsRun(states + [d'], script + [c], outcomes + [r])
  {
    hide Step;
  }

  /** Whatever a script asks for, each command does one step, and a crash leaves a state within the step that was
      under way. */
  method Drive(m: Manager, script: seq<Command>)
    returns (outcomes: seq<Outcome>, ghost states: seq<Disk>, ghost marks: seq<nat>)
    modifies m
    ensures IsRun(states, script, outcomes) && states[0] == old(m.disk) && states[|script|] == m.disk
    ensures CrashStates(old(m.history), m.history, marks, states, script)
  {
    outcomes, states, marks := [], [m.disk], [|m.history|];
    hide Step, CrashState;
    for k := 0 to |script|
      invariant IsRun(states, script[..k], outcomes) && states[0] == old(m.disk) && states[k] == m.disk
      invariant CrashStates(old(m.history), m.history, marks, states, script[..k])
    {
      ghost var h := m.history;
      var r := Execute(m, script[k]);
      assert script[..k + 1] == script[..k] + [script[k]];
      OneMoreStep(states, script[..k], outcomes, script[k], r, m.disk);
      OneMoreCrashStates(old(m.history), h, m.history, marks, states, script[..k], script[k], m.disk);
      outcomes, states, marks := outcomes + [r], states + [m.disk], marks + [|m.history|];
    }
    assert script[..|script|] == script;
  }

  method Execute(m: Manager, c: Command) returns (r: Outcome)
    modifies m
    ensures Step(old(m.disk), c, r, m.disk)
    ensures old(m.history) <= m.history
    ensures CrashStatesOf(m.history, |old(m.history)|, |m.history|, old(m.disk), c, m.disk)
  {
    match c
    case VerifyOnly(checks) =>
      var v := m.Verify(checks);
      r := Verified(v.passed);
    case Apply(checks, now, world) => r := m.Apply(checks, now, world);
    case Rollback(world) => r := m.Rollback(world);
  }

  // ---------------------------------------------------------------- when an Apply installs

  /** The final build is installed exactly when all three checks pass, the installed binary can be read and copied into
      the backup directory, the build succeeds once more, and its result can be read, staged and renamed. */
  lemma ApplyInstallsIff(d: Disk, checks: Checks, now: nat, w: World, r: Outcome, d': Disk)
    requires Step(d, Apply(checks, now, w), r, d')
    ensures r == Applied <==>
      && checks.build && checks.vet && checks.test
      && w.mkdir && d.binary.Some? && w.read && w.backup == Written
      && w.finalBuild.Some? && w.load && w.install == Written && w.rename
    ensures r == Applied ==> d'.binary == w.finalBuild && d'.staged == None
    ensures r != Applied ==> d'.binary == d.binary
  {
  }

  /** The first of these that fails decides how it ends. */
  lemma ApplyFailsIff(d: Disk, checks: Checks, now: nat, w: World, r: Outcome, d': Disk)
    requires Step(d, Apply(checks, now, w), r, d')
    ensures r == Refused <==> !(checks.build && checks.vet && checks.test)
    ensures r == Refused ==> d' == d
    ensures r == BackupFailed <==>
      && checks.build && checks.vet && checks.test
      && !(w.mkdir && d.binary.Some? && w.read && w.backup == Written)
    ensures r == BuildFailed <==>
      && checks.build && checks.vet && checks.test
      && w.mkdir && d.binary.Some? && w.read && w.backup == Written && w.finalBuild == None
    ensures r == InstallFailed <==>
      && checks.build && checks.vet && checks.test
      && w.mkdir && d.binary.Some? && w.read && w.backup == Written && w.finalBuild.Some?
      && !(w.load && w.install == Written && w.rename)
    ensures r == BackupFailed || r == BuildFailed ==> d'.staged == d.staged
    ensures r == InstallFailed ==> (d'.staged ==
      if !w.load || w.install == WriteFailed(None) then d.staged
      else if w.install.WriteFailed? then w.install.partial
      else if w.cleanup then None else w.finalBuild)
  {
  }

  /** A Verify on its own passes exactly when all three checks do, and leaves the disk alone. */
  lemma VerifyPassesIff(d: Disk, checks: Checks, r: Outcome, d': Disk)
    requires Step(d, VerifyOnly(checks), r, d')
    ensures d' == d && r == Verified(checks.build && checks.vet && checks.test)
  {
  }

  // ---------------------------------------------------------------- where binaries come from

  /** The binary changes only when a build whose checks all passed is applied, or a backup restored. */
  lemma OnlyTheseInstall(d: Disk, c: Command, r: Outcome, d': Disk)
    requires Step(d, c, r, d') && d'.binary != d.binary
    ensures (r == Applied && c.Apply? && c.checks.AllPassed() && d'.binary == c.world.finalBuild)
      || (r == Restored && c.Rollback? && d'.binary.Some? && IsNewest(d.backups, d'.binary.value))
  {
  }

  /** The installed binary and the backups. */
  ghost function Contents(d: Disk): set<Binary> {
    (if d.binary.Some? then {d.binary.value} else {}) + d.backups.Values
  }

  /** What a command may bring onto the disk: a build whose checks passed, or a torn backup. */
  ghost function Brings(c: Command): set<Binary> {
    if c.Apply? && c.checks.AllPassed() then
      (if c.world.finalBuild.Some? then {c.world.finalBuild.value} else {})
      + (if c.world.backup.WriteFailed? && c.world.backup.partial.Some? then {c.world.backup.partial.value} else {})
    else {}
  }

  ghost function AllBrought(script: seq<Command>): set<Binary> {
    if script == [] then {} else AllBrought(script[..|script| - 1]) + Brings(script[|script| - 1])
  }

  lemma PrunedIsPart(dir: Backups, keep: nat, w: World, after: Backups)
    requires Pruned(dir, keep, w, after)
    ensures forall n | n in after :: n in dir && after[n] == dir[n]
  {
  }

  lemma StepBrings(d: Disk, c: Command, r: Outcome, d': Disk)
    requires Step(d, c, r, d')
    ensures Contents(d') <= Contents(d) + Brings(c)
  {
    hide BackupName;
    if c.Apply? {
      var dir := WithMade(d.backups, Made(d, c));
      if r != Refused && r != BackupFailed {
        PrunedIsPart(dir, MAX_BACKUPS, c.world, d'.backups);
      }
      hide Pruned;
      forall n | n in d'.backups ensures d'.backups[n] in Contents(d) + Brings(c) {
        assert n in dir && d'.backups[n] == dir[n];
      }
    }
  }

  /** In any run every binary and backup on disk was there at the start, was built by an Apply whose build, vet and
      test all passed, or is what a broken-off backup write left. */
  lemma {:induction false} Provenance(states: seq<Disk>, script: seq<Command>, outcomes: seq<Outcome>, i: nat)
    requires IsRun(states, script, outcomes) && i <= |script|
    ensures Contents(states[i]) <= Contents(states[0]) + AllBrought(script[..i])
    decreases i
  {
    hide Step, Contents, Brings;
    if i > 0 {
      Provenance(states, script, outcomes, i - 1);
      StepBrings(states[i - 1], script[i - 1], outcomes[i - 1], states[i]);
      assert script[..i][..i - 1] == script[..i - 1];
    }
  }

  // ---------------------------------------------------------------- the last five backups

  ghost predicate IsLater(made: seq<Backup>, now: nat) {
    now < INT64_LIMIT && forall b | b in made :: b.ts < now
  }

  ghost predicate Later(made: seq<Backup>, c: Command) {
    c.Apply? ==> IsLater(made, c.now)
  }

  ghost predicate PrunesAfter(d: Disk, c: Command) {
    c.Apply? && c.checks.AllPassed() && BacksUp(d, c.world) && c.world.Prunes()
  }

  /** One more backup joins those that are kept. */
  lemma KeptWindowGrows(dir: Backups, all: seq<Backup>, b: Backup) returns (w: seq<Backup>)
    requires Keeps(dir, all) && IsLater(all, b.ts)
    ensures Holds(WithMade(dir, [b]), w) && KeepsLast(w, all + [b])
  {
    var w0 :| Holds(dir, w0) && KeepsLast(w0, all);
    WindowGrows(dir, w0, b.ts, b.binary);
    w := w0 + [b];
    LastOfLast(w0, all, b, MAX_BACKUPS);
    hide Holds, Last;
  }

  lemma KeptWindowPruned(dir: Backups, all: seq<Backup>, w: seq<Backup>, world: World, after: Backups)
    requires Holds(dir, w) && KeepsLast(w, all) && Pruned(dir, MAX_BACKUPS, world, after)
    ensures Keeps(after, all)
    ensures world.Prunes() ==> Holds(after, Last(all, MAX_BACKUPS))
  {
    var w' := PruningKeepsLast(dir, w, MAX_BACKUPS, world, after);
    hide Holds, Last, Pruned;
    assert KeepsLast(w', all);
  }

  /** One command: the last five backups are kept, and where pruning works nothing else. */
  lemma StepKeeps(d: Disk, c: Command, r: Outcome, d': Disk, all: seq<Backup>)
    requires Step(d, c, r, d') && Keeps(d.backups, all) && Later(all, c)
    ensures Keeps(d'.backups, all + Made(d, c))
    ensures PrunesAfter(d, c) ==> Holds(d'.backups, Last(all + Made(d, c), MAX_BACKUPS))
    ensures Made(d, c) == [] ==> d'.backups == d.backups
  {
    hide Holds, Last, Keeps, Pruned, KeepsLast, IsNewest, HasBackup, BackupName;
    assert all + [] == all;
    if Made(d, c) != [] {
      var b := Made(d, c)[0];
      assert Made(d, c) == [b];
      var w := KeptWindowGrows(d.backups, all, b);
      if r == BackupFailed {
        HoldsKeeps(d'.backups, w, all + [b]);
      } else {
        KeptWindowPruned(WithMade(d.backups, [b]), all + [b], w, c.world, d'.backups);
      }
    }
  }

  lemma HoldsKeeps(dir: Backups, w: seq<Backup>, all: seq<Backup>)
    requires Holds(dir, w) && KeepsLast(w, all)
    ensures Keeps(dir, all)
  {
  }

  /** The backups made up to a point of a run. */
  ghost function MadeBy(states: seq<Disk>, script: seq<Command>, i: nat): seq<Backup>
    requires i <= |script| <= |states|
  {
    if i == 0 then [] else MadeBy(states, script, i - 1) + Made(states[i - 1], script[i - 1])
  }

  /** The clock moves on between the Applies of a run, and is later than all of `window`. */
  ghost predicate Timed(script: seq<Command>, window: seq<Backup>) {
    && (forall i | 0 <= i < |script| :: Later(window, script[i]))
    && (forall i, j | 0 <= i < j < |script| && script[i].Apply? && script[j].Apply? :: script[i].now < script[j].now)
  }

  lemma Regrouped<T>(a: seq<T>, b: seq<T>, c: seq<T>)
    ensures a + (b + c) == a + b + c
  {
  }

  lemma LaterThanBoth(a: seq<Backup>, b: seq<Backup>, c: Command)
    requires Later(a, c) && Later(b, c)
    ensures Later(a + b, c)
  {
  }

  /** Commands under a clock that moves on find the backups of earlier ones earlier. */
  lemma MadeIsEarlier(d: Disk, c: Command, c': Command)
    requires c'.Apply? ==> c'.now < INT64_LIMIT && (c.Apply? ==> c.now < c'.now)
    ensures Later(Made(d, c), c')
  {
  }

  lemma {:induction false} TimedIsLater(states: seq<Disk>, script: seq<Command>, window: seq<Backup>, i: nat, k: nat)
    requires Timed(script, window) && i <= k < |script| <= |states|
    ensures Later(window + MadeBy(states, script, i), script[k])
    decreases i
  {
    assert Later(window, script[k]);
    if i > 0 {
      TimedIsLater(states, script, window, i - 1, k);
      MadeIsEarlier(states[i - 1], script[i - 1], script[k]);
      hide Timed, Made, IsLater;
      Regrouped(window, MadeBy(states, script, i - 1), Made(states[i - 1], script[i - 1]));
      LaterThanBoth(window + MadeBy(states, script, i - 1), Made(states[i - 1], script[i - 1]), script[k]);
    } else {
      assert window + [] == window;
    }
  }

  /** Whatever is applied, refused, failed half-way or rolled back, and whatever the operating system does, the
      backup directory holds the last five backups made; and once a pruning has worked, exactly these. */
  lemma {:induction false} LastFiveKept(
    states: seq<Disk>, script: seq<Command>, outcomes: seq<Outcome>, window: seq<Backup>, i: nat)
    requires IsRun(states, script, outcomes) && Keeps(states[0].backups, window) && Timed(script, window)
    requires i <= |script|
    ensures Keeps(states[i].backups, window + MadeBy(states, script, i))
    ensures i > 0 && PrunesAfter(states[i - 1], script[i - 1]) ==>
      Holds(states[i].backups, Last(window + MadeBy(states, script, i), 5))
    decreases i
  {
    hide Step, Holds, Keeps, Last, Made, Timed, Later;
    if i == 0 {
      assert window + [] == window;
    } else {
      var all := window + MadeBy(states, script, i - 1);
      LastFiveKept(states, script, outcomes, window, i - 1);
      TimedIsLater(states, script, window, i - 1, i - 1);
      StepKeeps(states[i - 1], script[i - 1], outcomes[i - 1], states[i], all);
      assert all + Made(states[i - 1], script[i - 1]) == window + MadeBy(states, script, i);
    }
  }

  /** What stays of a window whose last five stay has the same last five. */
  lemma LeftKeepsLast(w: seq<Backup>, gone: set<string>)
    requires forall b | b in Last(w, MAX_BACKUPS) :: BackupName(b.ts) !in gone
    ensures Last(Left(w, gone), MAX_BACKUPS) == Last(w, MAX_BACKUPS)
  {
    hide BackupName, Left;
    var cut := Excess(|w|, MAX_BACKUPS);
    assert w[cut..] == Last(w, MAX_BACKUPS) && w == w[..cut] + w[cut..];
    LeftOfParts(w[..cut], w[cut..], gone);
    if cut > 0 {
      LastOfTail(Left(w[..cut], gone), w[cut..], MAX_BACKUPS);
    } else {
      assert w[..0] == [] && w[0..] == w;
      LeftNone([], gone);
    }
  }

  lemma LastStays(w: seq<Backup>, w': seq<Backup>, after: Backups, b: Backup)
    requires Holds(after, w') && Last(w', MAX_BACKUPS) == Last(w, MAX_BACKUPS) && b in Last(w, MAX_BACKUPS)
    ensures BackupName(b.ts) in after
  {
    hide BackupName, IsBackup, Rising;
    assert b in w';
  }

  /** While backups are pruned, the last five are there all the time. */
  lemma PruningStateKeeps(dir: Backups, w: seq<Backup>, world: World, after: Backups, s: Backups, made: seq<Backup>)
    requires Holds(dir, w) && KeepsLast(w, made) && Pruned(dir, MAX_BACKUPS, world, after)
    requires Part(after, s) && Part(s, dir)
    ensures Keeps(s, made)
  {
    var gone := dir.Keys - s.Keys;
    assert s == dir - gone;
    assert forall n | n in after :: n !in gone;
    hide Pruned, BackupName, Part, Left, Holds, Last;
    var w' := PruningKeepsLast(dir, w, MAX_BACKUPS, world, after);
    forall b | b in Last(w, MAX_BACKUPS) ensures BackupName(b.ts) !in gone {
      LastStays(w, w', after, b);
    }
    LeftKeepsLast(w, gone);
    WindowShrinks(dir, w, gone);
    HoldsKeeps(s, Left(w, gone), made);
  }

  /** No backup has the name of a later time. */
  lemma LaterIsUnused(dir: Backups, all: seq<Backup>, now: nat)
    requires Keeps(dir, all) && IsLater(all, now)
    ensures BackupName(now) !in dir
  {
    var w :| Holds(dir, w) && KeepsLast(w, all);
    LaterNameIsNew(w, now);
    hide BackupName, IsBackup, Last;
  }

  /** As long as the new backup is not complete. */
  lemma WritingStateKeeps(dir: Backups, s: Backups, now: nat, all: seq<Backup>) returns (made: seq<Backup>)
    requires Keeps(dir, all) && IsLater(all, now) && s - {BackupName(now)} == dir - {BackupName(now)}
    ensures Keeps(s, all + made) && (made == [] || made == [Backup(now, made[0].binary)])
    ensures made != [] ==> BackupName(now) in s && s[BackupName(now)] == made[0].binary
  {
    var name := BackupName(now);
    LaterIsUnused(dir, all, now);
    hide BackupName, Keeps, IsLater;
    if name in s {
      made := [Backup(now, s[name])];
      SameButOne(s, dir, name);
      var w := KeptWindowGrows(dir, all, made[0]);
      hide KeepsLast, Holds;
      HoldsKeeps(s, w, all + made);
    } else {
      made := [];
      assert s == s - {name} && dir == dir - {name} && all + [] == all;
    }
  }

  /** Once it is complete. */
  lemma CompleteStateKeeps(dir: Backups, b: Backup, world: World, after: Backups, s: Backups, all: seq<Backup>)
    requires Keeps(dir, all) && IsLater(all, b.ts) && Pruned(WithMade(dir, [b]), MAX_BACKUPS, world, after)
    requires Part(after, s) && Part(s, WithMade(dir, [b]))
    ensures Keeps(s, all + [b]) && BackupName(b.ts) in s && s[BackupName(b.ts)] == b.binary
  {
    hide Keeps, IsLater, Pruned, WithMade, KeepsLast, Holds, BackupName;
    var w := KeptWindowGrows(dir, all, b);
    PruningStateKeeps(WithMade(dir, [b]), w, world, after, s, all + [b]);
    NewestStays(WithMade(dir, [b]), w, world, after, all, b);
  }

  /** A crash in the middle of a command leaves the last five backups too, counting the new one if it is there,
      whole or torn. */
  lemma CrashKeeps(d: Disk, c: Command, r: Outcome, d': Disk, s: Disk, all: seq<Backup>) returns (made: seq<Backup>)
    requires Step(d, c, r, d') && CrashState(s, d, c, d') && Keeps(d.backups, all) && Later(all, c)
    ensures Keeps(s.backups, all + made)
    ensures made == [] || (c.Apply? && made == [Backup(c.now, made[0].binary)])
    ensures made != [] ==> BackupName(c.now) in s.backups && s.backups[BackupName(c.now)] == made[0].binary
  {
    made := [];
    assert all + [] == all;
    hide Keeps, Pruned, IsNewest, HasBackup, BackupName, IsLater, Part, WithMade;
    if c.Apply? && c.checks.AllPassed() {
      if s.backups - {BackupName(c.now)} == d.backups - {BackupName(c.now)} {
        made := WritingStateKeeps(d.backups, s.backups, c.now, all);
      } else {
        made := [Backup(c.now, d.binary.value)];
        CompleteStateKeeps(d.backups, made[0], c.world, d'.backups, s.backups, all);
      }
    }
  }

  /** So a run can go on from what a crash left, and the last five are still kept. */
  lemma CrashedRunKeeps(states: seq<Disk>, script: seq<Command>, outcomes: seq<Outcome>, window: seq<Backup>, i: nat,
                        s: Disk) returns (made: seq<Backup>)
    requires IsRun(states, script, outcomes) && Keeps(states[0].backups, window) && Timed(script, window)
    requires i < |script| && CrashState(s, states[i], script[i], states[i + 1])
    ensures Keeps(s.backups, window + MadeBy(states, script, i) + made)
    ensures made == [] || (script[i].Apply? && made == [Backup(script[i].now, made[0].binary)])
  {
    hide Step, Keeps, Timed, Later, CrashState;
    LastFiveKept(states, script, outcomes, window, i);
    TimedIsLater(states, script, window, i, i);
    made := CrashKeeps(states[i], script[i], outcomes[i], states[i + 1], s, window + MadeBy(states, script, i));
  }

  lemma NewestStays(dir: Backups, w: seq<Backup>, world: World, after: Backups, all: seq<Backup>, b: Backup)
    requires Holds(dir, w) && KeepsLast(w, all + [b]) && Pruned(dir, MAX_BACKUPS, world, after)
    ensures BackupName(b.ts) in after && after[BackupName(b.ts)] == b.binary
  {
    var w' := PruningKeepsLast(dir, w, MAX_BACKUPS, world, after);
    hide Pruned, BackupName, IsBackup;
    LastIsLast(all + [b], MAX_BACKUPS);
    LastIsLast(w', MAX_BACKUPS);
    assert w'[|w'| - 1] == b;
  }

  lemma SameButOne(a: Backups, b: Backups, name: string)
    requires a - {name} == b - {name} && name in a
    ensures a == b[name := a[name]]
  {
    forall n ensures n in a <==> n in b[name := a[name]] {
      assert n in a - {name} <==> n in b - {name};
    }
    forall n | n in a ensures a[n] == b[name := a[name]][n] {
      assert n != name ==> n in a - {name} && (a - {name})[n] == (b - {name})[n];
    }
  }

  // ---------------------------------------------------------------- rolling back

  lemma NewestOfWindow(dir: Backups, window: seq<Backup>, data: Binary)
    requires Holds(dir, window) && IsNewest(dir, data)
    ensures window != [] && data == window[|window| - 1].binary
  {
    var names :| IsListing(dir, names) && LastNamed(dir, names, data);
    hide IsListing, BackupName, IsBackup;
    ListingOfWindow(dir, window, names);
    LastName(window);
  }

  lemma LastName(w: seq<Backup>)
    ensures |Names(w)| == |w| && (w != [] ==> Names(w)[|w| - 1] == BackupName(w[|w| - 1].ts))
  {
  }

  /** A Rollback that works restores the last backup made, of all that ever were. */
  lemma RollbackRestores(d: Disk, w: World, d': Disk, all: seq<Backup>)
    requires Keeps(d.backups, all) && Step(d, Rollback(w), Restored, d')
    ensures all != [] && d'.binary == Some(all[|all| - 1].binary) && d'.backups == d.backups
  {
    var kept: seq<Backup> :| Holds(d.backups, kept) && KeepsLast(kept, all);
    var data :| IsNewest(d.backups, data) && d' == Installed(d, data, w);
    NewestOfWindow(d.backups, kept, data);
    hide Holds;
    LastIsLast(kept, MAX_BACKUPS);
    assert all != [];
    LastIsLast(all, MAX_BACKUPS);
  }

  lemma LastIsLast<T>(s: seq<T>, n: nat)
    requires s != [] && n > 0
    ensures Last(s, n) != [] && Last(s, n)[|Last(s, n)| - 1] == s[|s| - 1]
  {
  }

  /** It works exactly when there is a backup and the operating system plays along. */
  lemma RollbackWorksIff(d: Disk, w: World, r: Outcome, d': Disk, all: seq<Backup>)
    requires Keeps(d.backups, all) && Step(d, Rollback(w), r, d')
    ensures r == Restored <==> all != [] && w.lists && w.load && w.install == Written && w.rename
  {
    var kept: seq<Backup> :| Holds(d.backups, kept) && KeepsLast(kept, all);
    if all == [] {
      assert kept == [];
    } else {
      assert kept != [];
      var n := BackupName(kept[0].ts);
      TimestampOfName(kept[0].ts);
      assert n in d.backups && IsBackup(n);
    }
  }

  /** Rolling back after an Apply, whatever other backups there are: what the Apply replaced is restored exactly,
      a torn copy if that is what the Apply left, and if the Apply made none the last backup made before. */
  lemma ApplyThenRollback(d: Disk, c: Command, r: Outcome, d1: Disk, w: World, d2: Disk, all: seq<Backup>)
    requires c.Apply? && Keeps(d.backups, all) && IsLater(all, c.now)
    requires Step(d, c, r, d1) && Step(d1, Rollback(w), Restored, d2)
    ensures r == BuildFailed || r == InstallFailed || r == Applied ==> d.binary.Some? && d2.binary == d.binary
    ensures r == BackupFailed && Torn(d, c.world).Some? ==> d2.binary == Torn(d, c.world)
    ensures r == Refused || (r == BackupFailed && Torn(d, c.world).None?) ==>
      all != [] && d2.binary == Some(all[|all| - 1].binary)
  {
    hide Keeps, Holds, Pruned, Last, IsNewest, HasBackup, Installed, BackupName;
    StepKeeps(d, c, r, d1, all);
    RollbackRestores(d1, w, d2, all + Made(d, c));
  }

  /** A second Rollback changes nothing any more. */
  lemma RollbackTwice(d: Disk, w: World, d1: Disk, w': World, d2: Disk, all: seq<Backup>)
    requires Keeps(d.backups, all)
    requires Step(d, Rollback(w), Restored, d1) && Step(d1, Rollback(w'), Restored, d2)
    ensures d2.binary == d1.binary
  {
    hide Step;
    RollbackRestores(d, w, d1, all);
    RollbackRestores(d1, w', d2, all);
  }

  /** If a crash catches an Apply after the binary has been replaced, the backup is there already: a Rollback
      restores what was replaced. */
  lemma CrashedApplyRollsBack(d: Disk, c: Command, r: Outcome, d1: Disk, s: Disk, w: World, d2: Disk, all: seq<Backup>)
    requires c.Apply? && Keeps(d.backups, all) && IsLater(all, c.now)
    requires Step(d, c, r, d1) && CrashState(s, d, c, d1) && s.binary != d.binary
    requires Step(s, Rollback(w), Restored, d2)
    ensures d2.binary == d.binary
  {
    hide Keeps, Holds, Pruned, Last, IsNewest, HasBackup, DuringBackup, BackupName;
    OnlyTheseInstall(d, c, r, d1);
    StepKeeps(d, c, r, d1, all);
    RollbackRestores(s, w, d2, all + Made(d, c));
  }

  /** A backup write that breaks off can leave a torn newest backup, and the next Rollback installs it. */
  lemma TornBackupIsRolledBackTo(d: Disk, now: nat, torn: Binary, w: World, d1: Disk, d2: Disk, all: seq<Backup>)
    requires Keeps(d.backups, all) && IsLater(all, now) && d.binary.Some?
    requires w.mkdir && w.read && w.backup == WriteFailed(Some(torn)) && w.lists && w.Installs()
    requires Step(d, Apply(Checks(true, true, true), now, w), BackupFailed, d1)
    requires Step(d1, Rollback(w), Restored, d2)
    ensures d2.binary == Some(torn)
  {
    hide Keeps, Step;
    ApplyThenRollback(d, Apply(Checks(true, true, true), now, w), BackupFailed, d1, w, d2, all);
  }
}
