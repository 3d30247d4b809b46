/** Recovering a JSON object from a model's answer (internal/goal_fulfillment/refiner.go:198-217). */
module ExtractJson {

  const FENCE := "```"
  const JSON_FENCE := "```json"

  /** unicode.IsSpace: any function that is false of the characters the code looks for. */
  ghost predicate Lawful(isSpace: char -> bool) {
    !isSpace('`') && !isSpace('{') && !isSpace('}')
  }

  // ---------------------------------------------------------------- the strings package

  predicate At(s: string, pat: string, i: nat) {
    i + |pat| <= |s| && s[i..i + |pat|] == pat
  }

  /** Occurrences in a slice are occurrences in the whole that lie inside the slice. */
  lemma AtInSlice(s: string, pat: string, a: nat, b: nat, i: nat)
    requires a <= b <= |s|
    ensures At(s[a..b], pat, i) <==> i + |pat| <= b - a && At(s, pat, a + i)
  {
    if i + |pat| <= b - a {
      var inside, whole := s[a..b][i..i + |pat|], s[a + i..a + i + |pat|];
      assert forall e | 0 <= e < |pat| :: inside[e] == whole[e];
      assert inside == whole;
    }
  }

  /** One differing character rules an occurrence out. */
  lemma NotAt(s: string, pat: string, i: nat, e: nat)
    requires e < |pat| && i + e < |s| && s[i + e] != pat[e]
    ensures !At(s, pat, i)
  {
    if i + |pat| <= |s| {
      assert s[i..i + |pat|][e] == s[i + e];
    }
  }

  /** strings.Index: the first occurrence, or -1. */
  function Index(s: string, pat: string): (i: int)
    requires pat != ""
    ensures -1 <= i < |s|
    ensures i >= 0 ==> At(s, pat, i) && forall k | 0 <= k < i :: !At(s, pat, k)
    ensures i < 0 ==> forall k | 0 <= k :: !At(s, pat, k)
  {
    if |s| < |pat| then -1
    else if s[..|pat|] == pat then 0
    else
      var r := Index(s[1..], pat);
      assert forall k | 0 < k :: At(s, pat, k) <==> At(s[1..], pat, k - 1) by {
        forall k | 0 < k ensures At(s, pat, k) <==> At(s[1..], pat, k - 1) {
          AtInSlice(s, pat, 1, |s|, k - 1);
        }
      }
      if r < 0 then -1 else r + 1
  }

  lemma IndexIs(s: string, pat: string, i: nat)
    requires pat != "" && At(s, pat, i) && forall k | 0 <= k < i :: !At(s, pat, k)
    ensures Index(s, pat) == i
  {
  }

  /** strings.LastIndex of one character. */
  function LastIndex(s: string, c: char): (i: int)
    ensures -1 <= i < |s|
    ensures i >= 0 ==> s[i] == c
    ensures forall k | i < k < |s| :: s[k] != c
  {
    if s == "" then -1 else if s[|s| - 1] == c then |s| - 1 else LastIndex(s[..|s| - 1], c)
  }

  /** The first index from `i` on that holds no space. */
  function SkipSpaces(isSpace: char -> bool, s: string, i: nat): (r: nat)
    requires i <= |s|
    ensures i <= r <= |s|
    ensures forall k | i <= k < r :: isSpace(s[k])
    ensures r < |s| ==> !isSpace(s[r])
    decreases |s| - i
  {
    if i < |s| && isSpace(s[i]) then SkipSpaces(isSpace, s, i + 1) else i
  }

  /** The end of what is left of `s[from..end]` without the spaces at its end. */
  function DropSpaces(isSpace: char -> bool, s: string, from: nat, end: nat): (r: nat)
    requires from <= end <= |s|
    ensures from <= r <= end
    ensures forall k | r <= k < end :: isSpace(s[k])
    ensures r > from ==> !isSpace(s[r - 1])
    decreases end
  {
    if end > from && isSpace(s[end - 1]) then DropSpaces(isSpace, s, from, end - 1) else end
  }

  /** strings.TrimSpace */
  function Trim(isSpace: char -> bool, s: string): string {
    var from := SkipSpaces(isSpace, s, 0);
    s[from..DropSpaces(isSpace, s, from, |s|)]
  }

  // ---------------------------------------------------------------- the extraction

  function BeforeFence(s: string): string {
    var end := Index(s, FENCE);
    if end >= 0 then s[..end] else s
  }

  /** The inside of the first ```json block, else of the first block of any kind, else everything. */
  function Unfenced(s: string): string {
    var json := Index(s, JSON_FENCE);
    if json >= 0 then BeforeFence(s[json + 7..])
    else
      var fence := Index(s, FENCE);
      if fence >= 0 then BeforeFence(s[fence + 3..]) else s
  }

  /** From the first opening to the last closing brace, if they are in that order. */
  function Braced(s: string): string {
    var start := Index(s, "{");
    var end := LastIndex(s, '}');
    if start >= 0 && end > start then s[start..end + 1] else s
  }

  function Extract(isSpace: char -> bool, s: string): string {
    Trim(isSpace, Braced(Unfenced(Trim(isSpace, s))))
  }

  // ---------------------------------------------------------------- no fence survives

  ghost predicate FenceFree(s: string) {
    forall i | 0 <= i :: !At(s, FENCE, i)
  }

  /** A fence inside a slice is a fence of the whole. */
  lemma FenceFreeSlice(s: string, a: nat, b: nat)
    requires FenceFree(s) && a <= b <= |s|
    ensures FenceFree(s[a..b])
  {
    forall i | 0 <= i ensures !At(s[a..b], FENCE, i) {
      AtInSlice(s, FENCE, a, b, i);
    }
  }

  lemma BeforeFenceIsFree(s: string)
    ensures FenceFree(BeforeFence(s))
  {
    var end := Index(s, FENCE);
    if end >= 0 {
      forall i | 0 <= i ensures !At(s[0..end], FENCE, i) {
        AtInSlice(s, FENCE, 0, end, i);
      }
      assert s[0..end] == s[..end];
    }
  }

  lemma UnfencedIsFree(s: string)
    ensures FenceFree(Unfenced(s))
  {
    var json, fence := Index(s, JSON_FENCE), Index(s, FENCE);
    if json >= 0 {
      BeforeFenceIsFree(s[json + 7..]);
    } else if fence >= 0 {
      BeforeFenceIsFree(s[fence + 3..]);
    }
  }

  /** The parts of a trimmed string: spaces, what is left, spaces. */
  lemma TrimParts(isSpace: char -> bool, s: string) returns (a: nat, b: nat)
    ensures a <= b <= |s| && Trim(isSpace, s) == s[a..b]
    ensures forall i | 0 <= i < |s| && !(a <= i < b) :: isSpace(s[i])
    ensures a < b ==> !isSpace(s[a]) && !isSpace(s[b - 1])
  {
    a := SkipSpaces(isSpace, s, 0);
    b := DropSpaces(isSpace, s, a, |s|);
  }

  /** Whatever the model answered, no fence is left in the result. */
  lemma ExtractIsFenceFree(isSpace: char -> bool, s: string)
    ensures FenceFree(Extract(isSpace, s))
  {
    var inner := Unfenced(Trim(isSpace, s));
    UnfencedIsFree(Trim(isSpace, s));
    var start, end := Index(inner, "{"), LastIndex(inner, '}');
    if start >= 0 && end > start {
      FenceFreeSlice(inner, start, end + 1);
    }
    var a, b := TrimParts(isSpace, Braced(inner));
    FenceFreeSlice(Braced(inner), a, b);
  }

  // ---------------------------------------------------------------- extracting twice is extracting once

  ghost predicate HasObject(s: string) {
    exists i, j :: HasObjectAt(s, i, j)
  }

  predicate HasObjectAt(s: string, i: int, j: int) {
    0 <= i < j < |s| && s[i] == '{' && s[j] == '}'
  }

  lemma BraceAt(s: string, i: nat)
    requires i < |s|
    ensures At(s, "{", i) <==> s[i] == '{'
  {
    assert s[i..i + 1] == [s[i]];
  }

  lemma FirstBraceIs(s: string, i: nat)
    requires i < |s| && s[i] == '{' && forall k | 0 <= k < i :: s[k] != '{'
    ensures Index(s, "{") == i
  {
    forall k | 0 <= k <= i ensures At(s, "{", k) <==> s[k] == '{' {
      BraceAt(s, k);
    }
    IndexIs(s, "{", i);
  }

  lemma BracesAreOrdered(s: string)
    requires HasObject(s)
    ensures 0 <= Index(s, "{") < LastIndex(s, '}')
  {
    var i, j :| HasObjectAt(s, i, j);
    BraceAt(s, i);
  }

  lemma BracedCases(s: string)
    ensures HasObject(s) ==>
      |Braced(s)| >= 2 && Braced(s)[0] == '{' && Braced(s)[|Braced(s)| - 1] == '}'
    ensures !HasObject(s) ==> Braced(s) == s
  {
    var start, end := Index(s, "{"), LastIndex(s, '}');
    hide Index, LastIndex, At, HasObject;
    if start >= 0 {
      BraceAt(s, start);
      if end > start {
        assert HasObjectAt(s, start, end);
      }
    }
    if HasObject(s) {
      BracesAreOrdered(s);
    }
  }

  lemma TrimStable(isSpace: char -> bool, s: string)
    requires s != "" ==> !isSpace(s[0]) && !isSpace(s[|s| - 1])
    ensures Trim(isSpace, s) == s
  {
  }

  lemma UnfencedStable(s: string)
    requires FenceFree(s)
    ensures Unfenced(s) == s
  {
    var json := Index(s, JSON_FENCE);
    if json >= 0 {
      assert s[json..json + 3] == s[json..json + 7][..3];
      assert At(s, FENCE, json);
      assert false;
    }
  }

  lemma BracedStable(s: string)
    requires |s| >= 2 && s[0] == '{' && s[|s| - 1] == '}'
    ensures Braced(s) == s
  {
    FirstBraceIs(s, 0);
    hide Index;
    assert s[0..|s|] == s;
  }

  lemma NoObjectInSlice(s: string, a: nat, b: nat)
    requires a <= b <= |s| && !HasObject(s)
    ensures !HasObject(s[a..b])
  {
    forall i, j ensures !HasObjectAt(s[a..b], i, j) {
      assert !HasObjectAt(s, a + i, a + j);
    }
  }

  /** Trimming twice is trimming once, and so is trimming an object. */
  lemma TrimIdempotent(isSpace: char -> bool, s: string)
    ensures Trim(isSpace, Trim(isSpace, s)) == Trim(isSpace, s)
    ensures s != "" && !isSpace(s[0]) && !isSpace(s[|s| - 1]) ==> Trim(isSpace, s) == s
  {
    var a, b := TrimParts(isSpace, s);
    TrimStable(isSpace, s[a..b]);
    if s != "" && !isSpace(s[0]) && !isSpace(s[|s| - 1]) {
      TrimStable(isSpace, s);
    }
  }

  /** What is left between the braces, trimmed, is what is left between its own braces. */
  lemma BracedIdempotent(isSpace: char -> bool, s: string)
    requires Lawful(isSpace)
    ensures Braced(Trim(isSpace, Braced(s))) == Trim(isSpace, Braced(s))
  {
    var braced := Braced(s);
    BracedCases(s);
    TrimIdempotent(isSpace, braced);
    var a, b := TrimParts(isSpace, braced);
    hide Braced, Trim, HasObject;
    if HasObject(s) {
      BracedStable(braced);
    } else {
      NoObjectInSlice(s, a, b);
      BracedCases(braced[a..b]);
    }
  }

  /** Extracting from the result changes nothing. */
  lemma ExtractIdempotent(isSpace: char -> bool, s: string)
    requires Lawful(isSpace)
    ensures Extract(isSpace, Extract(isSpace, s)) == Extract(isSpace, s)
  {
    var inner, out := Unfenced(Trim(isSpace, s)), Extract(isSpace, s);
    hide Unfenced, Braced, Trim, FenceFree;
    ExtractIsFenceFree(isSpace, s);
    TrimIdempotent(isSpace, Braced(inner));
    UnfencedStable(out);
    BracedIdempotent(isSpace, inner);
  }

  // ---------------------------------------------------------------- what is recovered

  /** Something that looks like a JSON object and contains no fence. */
  ghost predicate Object(j: string) {
    |j| >= 2 && j[0] == '{' && j[|j| - 1] == '}' && FenceFree(j)
  }

  /** Braces outside do not hide the object: none opens before it, none closes after it. */
  lemma BracedFinds(a: string, j: string, b: string)
    requires Object(j) && '{' !in a && '}' !in b
    ensures Braced(a + j + b) == j
  {
    var s := a + j + b;
    forall k | 0 <= k < |a| ensures s[k] != '{' {
      assert s[k] == a[k];
    }
    assert s[|a|] == j[0];
    FirstBraceIs(s, |a|);
    var last := |a| + |j| - 1;
    assert s[last] == j[|j| - 1];
    forall k | last < k < |s| ensures s[k] != '}' {
      assert s[k] == b[k - last - 1];
    }
    assert LastIndex(s, '}') == last;
    assert s[|a|..last + 1] == j;
  }

  lemma SliceOfThree(a: string, c: string, b: string, x: nat, y: nat)
    requires x <= |a| && y <= |b|
    ensures (a + c + b)[x..|a| + |c| + y] == a[x..] + c + b[..y]
  {
    var s, t := (a + c + b)[x..|a| + |c| + y], a[x..] + c + b[..y];
    forall k | 0 <= k < |s| ensures s[k] == t[k] {
      assert s[k] == (a + c + b)[x + k];
    }
    assert s == t;
  }

  /** Trimming text around a core that begins and ends with no space trims only what is around it. */
  lemma TrimAround(isSpace: char -> bool, before: string, core: string, after: string) returns (x: nat, y: nat)
    requires core != "" && !isSpace(core[0]) && !isSpace(core[|core| - 1])
    ensures x <= |before| && y <= |after|
    ensures Trim(isSpace, before + core + after) == before[x..] + core + after[..y]
  {
    var s := before + core + after;
    var a, b := TrimParts(isSpace, s);
    assert s[|before|] == core[0] && s[|before| + |core| - 1] == core[|core| - 1];
    x, y := a, b - |before| - |core|;
    SliceOfThree(before, core, after, x, y);
  }

  /** In prose without any fence, with no opening brace before the object and no closing brace after it. */
  lemma ExtractFromProse(isSpace: char -> bool, before: string, j: string, after: string)
    requires Lawful(isSpace) && Object(j)
    requires FenceFree(before + j + after) && '{' !in before && '}' !in after
    ensures Extract(isSpace, before + j + after) == j
  {
    hide Unfenced, Braced, Trim;
    var x, y := TrimAround(isSpace, before, j, after);
    var t := before[x..] + j + after[..y];
    SliceOfThree(before, j, after, x, y);
    FenceFreeSlice(before + j + after, x, |before| + |j| + y);
    UnfencedStable(t);
    BracedFinds(before[x..], j, after[..y]);
    TrimStable(isSpace, j);
  }

  /** A text without any fence, in which no closing brace follows an opening one, is only trimmed. */
  lemma ExtractWithoutObject(isSpace: char -> bool, s: string)
    requires FenceFree(s) && forall i, j | 0 <= i < j < |s| :: !(s[i] == '{' && s[j] == '}')
    ensures Extract(isSpace, s) == Trim(isSpace, s)
  {
    assert !HasObject(s);
    var a, b := TrimParts(isSpace, s);
    hide Trim, Unfenced, FenceFree, Braced, HasObject;
    FenceFreeSlice(s, a, b);
    UnfencedStable(s[a..b]);
    NoObjectInSlice(s, a, b);
    BracedCases(s[a..b]);
    TrimIdempotent(isSpace, s);
  }

  /** An opening fence cannot begin inside the text before it. */
  lemma FenceStartsThere(before: string, rest: string)
    requires forall i | 0 <= i :: !At(before, JSON_FENCE, i)
    ensures Index(before + JSON_FENCE + rest, JSON_FENCE) == |before|
  {
    var s, n := before + JSON_FENCE + rest, |before|;
    assert s[n..n + 7] == JSON_FENCE;
    assert s[0..n] == before;
    assert forall e | 0 <= e < 7 :: s[n + e] == JSON_FENCE[e];
    forall k | 0 <= k < n ensures !At(s, JSON_FENCE, k) {
      if k + 7 <= n {
        AtInSlice(s, JSON_FENCE, 0, n, k);
      } else {
        // two opening fences, the second shifted by n - k, would clash in one character
        NotAt(s, JSON_FENCE, k, if n - k < 3 then 3 else n - k);
      }
    }
    IndexIs(s, JSON_FENCE, n);
  }

  lemma FirstFence(a: string, rest: string)
    requires FenceFree(a) && (a == "" || a[|a| - 1] != '`')
    ensures Index(a + FENCE + rest, FENCE) == |a|
  {
    var s, n := a + FENCE + rest, |a|;
    assert s[n..n + 3] == FENCE;
    assert s[0..n] == a;
    forall k | 0 <= k < n ensures !At(s, FENCE, k) {
      if k + 3 <= n {
        AtInSlice(s, FENCE, 0, n, k);
      } else {
        NotAt(s, FENCE, k, n - 1 - k);
      }
    }
    IndexIs(s, FENCE, n);
  }

  lemma FenceEndsThere(inner: string, after: string)
    requires FenceFree(inner) && inner != "" && inner[|inner| - 1] != '`'
    ensures BeforeFence(inner + FENCE + after) == inner
  {
    FirstFence(inner, after);
    hide Index;
    assert inner + FENCE + after == inner + (FENCE + after);
  }

  lemma PaddedIsFenceFree(a: string, j: string, b: string)
    requires FenceFree(j) && '`' !in a && '`' !in b && j != ""
    ensures FenceFree(a + j + b)
  {
    var s := a + j + b;
    assert s[|a|..|a| + |j|] == j;
    forall i | 0 <= i ensures !At(s, FENCE, i) {
      if i < |a| {
        assert s[i] == a[i];
        NotAt(s, FENCE, i, 0);
      } else if i + 3 <= |a| + |j| {
        AtInSlice(s, FENCE, |a|, |a| + |j|, i - |a|);
      } else if i + 3 <= |s| {
        assert s[i + 2] == b[i + 2 - |a| - |j|];
        NotAt(s, FENCE, i, 2);
      }
    }
  }

  lemma RestAfter(a: string, b: string, rest: string)
    ensures (a + b + rest)[|a| + |b|..] == rest
  {
    assert a + b + rest == (a + b) + rest;
  }

  lemma Regrouped(a: string, b: string, c: string, d: string, e: string)
    ensures a + (b + c + d) + e == a + b + (c + d + e)
  {
    var l, r := a + (b + c + d) + e, a + b + (c + d + e);
    assert |l| == |r|;
    assert l == r;
  }

  /** What a trimmed answer with a ```json block unfences to. */
  lemma UnfencesTo(before: string, inner: string, after: string)
    requires forall i | 0 <= i :: !At(before, JSON_FENCE, i)
    requires FenceFree(inner) && inner != "" && inner[|inner| - 1] != '`'
    ensures Unfenced(before + (JSON_FENCE + inner + FENCE) + after) == inner
  {
    var rest := inner + FENCE + after;
    FenceStartsThere(before, rest);
    FenceEndsThere(inner, after);
    hide Index, BeforeFence, At, FenceFree;
    RestAfter(before, JSON_FENCE, rest);
    Regrouped(before, JSON_FENCE, inner, FENCE, after);
  }

  lemma AbsentInSlice(s: string, pat: string, a: nat, b: nat)
    requires a <= b <= |s| && forall i | 0 <= i :: !At(s, pat, i)
    ensures forall i | 0 <= i :: !At(s[a..b], pat, i)
  {
    forall i | 0 <= i ensures !At(s[a..b], pat, i) {
      AtInSlice(s, pat, a, b, i);
    }
  }

  /** In a ```json block, padded by anything without braces and backquotes, whatever stands around the block -
      as long as no other ```json block comes first. */
  lemma ExtractFromJsonBlock(isSpace: char -> bool, before: string, a: string, j: string, b: string, after: string)
    requires Lawful(isSpace) && Object(j)
    requires forall i | 0 <= i :: !At(before, JSON_FENCE, i)
    requires '{' !in a && '`' !in a && '}' !in b && '`' !in b
    ensures Extract(isSpace, before + (JSON_FENCE + (a + j + b) + FENCE) + after) == j
  {
    var inner := a + j + b;
    var core := JSON_FENCE + inner + FENCE;
    assert core[0] == '`' && core[|core| - 1] == '`';
    var x, y := TrimAround(isSpace, before, core, after);
    PaddedIsFenceFree(a, j, b);
    assert inner[|inner| - 1] == (if b == "" then j[|j| - 1] else b[|b| - 1]);
    AbsentInSlice(before, JSON_FENCE, x, |before|);
    assert before[x..|before|] == before[x..];
    UnfencesTo(before[x..], inner, after[..y]);
    BracedFinds(a, j, b);
    TrimStable(isSpace, j);
  }

  /** What a trimmed answer with a block of no named language unfences to. */
  lemma UnfencesPlainTo(before: string, inner: string, after: string)
    requires FenceFree(before) && (before == "" || before[|before| - 1] != '`')
    requires FenceFree(inner) && inner != "" && inner[|inner| - 1] != '`'
    requires forall i | 0 <= i :: !At(before + (FENCE + inner + FENCE) + after, JSON_FENCE, i)
    ensures Unfenced(before + (FENCE + inner + FENCE) + after) == inner
  {
    var rest := inner + FENCE + after;
    FirstFence(before, rest);
    FenceEndsThere(inner, after);
    RestAfter(before, FENCE, rest);
    Regrouped(before, FENCE, inner, FENCE, after);
    var s := before + (FENCE + inner + FENCE) + after;
    assert Index(s, JSON_FENCE) < 0;
    hide Index, BeforeFence, At, FenceFree;
  }

  /** In a block of no named language, if that is the first block and no ```json block is anywhere. */
  lemma ExtractFromPlainBlock(isSpace: char -> bool, before: string, a: string, j: string, b: string, after: string)
    requires Lawful(isSpace) && Object(j)
    requires FenceFree(before) && (before == "" || before[|before| - 1] != '`')
    requires forall i | 0 <= i :: !At(before + (FENCE + (a + j + b) + FENCE) + after, JSON_FENCE, i)
    requires '{' !in a && '`' !in a && '}' !in b && '`' !in b
    ensures Extract(isSpace, before + (FENCE + (a + j + b) + FENCE) + after) == j
  {
    var inner := a + j + b;
    var core := FENCE + inner + FENCE;
    assert core[0] == '`' && core[|core| - 1] == '`';
    var x, y := TrimAround(isSpace, before, core, after);
    hide Unfenced, Braced, Trim;
    PaddedIsFenceFree(a, j, b);
    assert inner[|inner| - 1] == (if b == "" then j[|j| - 1] else b[|b| - 1]);
    assert before[x..|before|] == before[x..];
    FenceFreeSlice(before, x, |before|);
    AbsentInSlice(before + core + after, JSON_FENCE, x, |before| + |core| + y);
    SliceOfThree(before, core, after, x, y);
    UnfencesPlainTo(before[x..], inner, after[..y]);
    BracedFinds(a, j, b);
    TrimStable(isSpace, j);
  }

  /** In a ```json block that is never closed. */
  lemma ExtractFromOpenBlock(isSpace: char -> bool, before: string, a: string, j: string, b: string)
    requires Lawful(isSpace) && Object(j)
    requires forall i | 0 <= i :: !At(before, JSON_FENCE, i)
    requires '{' !in a && '`' !in a && '}' !in b && '`' !in b
    ensures Extract(isSpace, before + (JSON_FENCE + a + j) + b) == j
  {
    var core := JSON_FENCE + a + j;
    assert core[0] == '`' && core[|core| - 1] == j[|j| - 1];
    var x, y := TrimAround(isSpace, before, core, b);
    assert before[x..|before|] == before[x..];
    AbsentInSlice(before, JSON_FENCE, x, |before|);
    PaddedIsFenceFree(a, j, b[..y]);
    UnfencesOpenTo(before[x..], a, j, b[..y]);
    hide Unfenced, Braced, Trim;
    BracedFinds(a, j, b[..y]);
    TrimStable(isSpace, j);
  }

  lemma UnfencesOpenTo(before: string, a: string, j: string, b: string)
    requires forall i | 0 <= i :: !At(before, JSON_FENCE, i)
    requires FenceFree(a + j + b)
    ensures Unfenced(before + (JSON_FENCE + a + j) + b) == a + j + b
  {
    var rest := a + j + b;
    FenceStartsThere(before, rest);
    assert BeforeFence(rest) == rest;
    hide Index, BeforeFence, At, FenceFree;
    RestAfter(before, JSON_FENCE, rest);
    Regrouped(before, JSON_FENCE, a, j, b);
  }
}
