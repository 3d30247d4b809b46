/** Tokenising of stored text (internal/memory/index.go).

    The Go library functions the code calls are fields of `Platform`; `Lawful` states the few facts about
    them that the proofs use. A `string` is a sequence of runes. */
module Text {

  datatype Platform = Platform(
    lower: char -> char,        // unicode.ToLower
    fold: char -> char,         // one representative per orbit of unicode.SimpleFold
    isWord: char -> bool,       // unicode.IsLetter || unicode.IsDigit
    isSpace: char -> bool,      // unicode.IsSpace
    reparse: string -> string,  // the JSON text of a value after it was written to disk and read back
    log: real -> real           // math.Log
  ) {
    /** The laws of the library functions. */
    ghost predicate Lawful() {
      && LawfulRunes()
      && (forall v :: reparse(reparse(v)) == reparse(v))
      && log(1.0) == 0.0
      && (forall x, y :: 0.0 < x < y ==> log(x) < log(y))
    }

    ghost predicate LawfulRunes() {
      && (forall c :: lower(lower(c)) == lower(c))
      && lower(' ') == ' ' && !isWord(' ')
      && isSpace(' ')
    }
  }

  const STOPWORDS: set<string> := {
    "a", "an", "and", "are", "as", "at",
    "be", "by", "for", "from", "has",
    "have", "in", "is", "it", "of", "on",
    "or", "that", "the", "this", "to",
    "was", "were", "will", "with"
  }

  /** A separator rune ends the word being read. */
  predicate Separator(p: Platform, c: char) {
    !p.isWord(p.lower(c))
  }

  function Flush(cur: string): seq<string> {
    if cur == "" || cur in STOPWORDS then [] else [cur]
  }

  /** The tokens of `s` when `cur` has been read of an unfinished word. */
  function TokensFrom(p: Platform, s: string, cur: string): seq<string> {
    if s == "" then Flush(cur)
    else if Separator(p, s[0]) then Flush(cur) + TokensFrom(p, s[1..], "")
    else TokensFrom(p, s[1..], cur + [p.lower(s[0])])
  }

  function Tokens(p: Platform, s: string): seq<string> {
    TokensFrom(p, s, "")
  }

  /** The scanning loop: a word builder flushed at every separator and once at the end. */
  method Tokenize(p: Platform, s: string) returns (tokens: seq<string>)
    ensures tokens == Tokens(p, s)
  {
    tokens := [];
    var cur := "";
    for i := 0 to |s|
      invariant Tokens(p, s) == tokens + TokensFrom(p, s[i..], cur)
    {
      var r := p.lower(s[i]);
      assert s[i..][0] == s[i] && s[i..][1..] == s[i + 1..];
      if p.isWord(r) {
        cur := cur + [r];
      } else {
        if cur != "" {
          if cur !in STOPWORDS {
            tokens := tokens + [cur];
          }
          cur := "";
        }
      }
    }
    assert s[|s|..] == "";
    if cur != "" && cur !in STOPWORDS {
      tokens := tokens + [cur];
    }
  }

  // ---------------------------------------------------------------- laws of tokenising

  lemma {:induction false} TokensFromSplit(p: Platform, a: string, c: char, b: string, cur: string)
    requires Separator(p, c)
    ensures TokensFrom(p, a + [c] + b, cur) == TokensFrom(p, a, cur) + Tokens(p, b)
    decreases |a|
  {
    var s := a + [c] + b;
    if a == "" {
      assert s[0] == c && s[1..] == b;
    } else {
      assert s[0] == a[0] && s[1..] == a[1..] + [c] + b;
      if Separator(p, a[0]) {
        TokensFromSplit(p, a[1..], c, b, "");
      } else {
        TokensFromSplit(p, a[1..], c, b, cur + [p.lower(a[0])]);
      }
    }
  }

  /** Tokenising distributes over any separator. */
  lemma TokensSplit(p: Platform, a: string, c: char, b: string)
    requires !p.isWord(p.lower(c))
    ensures Tokens(p, a + [c] + b) == Tokens(p, a) + Tokens(p, b)
  {
    TokensFromSplit(p, a, c, b, "");
  }

  function Lowered(p: Platform, w: string): string {
    seq(|w|, i requires 0 <= i < |w| => p.lower(w[i]))
  }

  ghost predicate OneWord(p: Platform, w: string) {
    forall c | c in w :: !Separator(p, c)
  }

  lemma {:induction false} TokensFromWord(p: Platform, w: string, cur: string)
    requires OneWord(p, w)
    ensures TokensFrom(p, w, cur) == Flush(cur + Lowered(p, w))
    decreases |w|
  {
    if w == "" {
      assert cur + Lowered(p, w) == cur;
    } else {
      TokensFromWord(p, w[1..], cur + [p.lower(w[0])]);
      assert cur + [p.lower(w[0])] + Lowered(p, w[1..]) == cur + Lowered(p, w);
    }
  }

  /** A text without separators is one token: itself in lower case, dropped when empty or a stopword. */
  lemma TokensOfWord(p: Platform, w: string)
    requires forall c | c in w :: p.isWord(p.lower(c))
    ensures Tokens(p, w) == if w == "" || Lowered(p, w) in STOPWORDS then [] else [Lowered(p, w)]
  {
    TokensFromWord(p, w, "");
    assert "" + Lowered(p, w) == Lowered(p, w);
  }

  lemma {:induction false} TokensFromLowered(p: Platform, s: string, cur: string)
    requires p.LawfulRunes()
    ensures TokensFrom(p, Lowered(p, s), cur) == TokensFrom(p, s, cur)
    decreases |s|
  {
    if s != "" {
      assert Lowered(p, s)[0] == p.lower(s[0]) && Lowered(p, s)[1..] == Lowered(p, s[1..]);
      assert p.lower(p.lower(s[0])) == p.lower(s[0]);
      if Separator(p, s[0]) {
        TokensFromLowered(p, s[1..], "");
      } else {
        TokensFromLowered(p, s[1..], cur + [p.lower(s[0])]);
      }
    }
  }

  /** Upper and lower case make no difference. */
  lemma TokensOfLowered(p: Platform, s: string)
    requires p.LawfulRunes()
    ensures Tokens(p, Lowered(p, s)) == Tokens(p, s)
  {
    TokensFromLowered(p, s, "");
  }

  lemma FirstSeparator(p: Platform, s: string) returns (i: nat)
    requires !OneWord(p, s)
    ensures i < |s| && Separator(p, s[i]) && OneWord(p, s[..i])
    decreases |s|
  {
    if Separator(p, s[0]) {
      i := 0;
    } else {
      assert s == [s[0]] + s[1..];
      var k := FirstSeparator(p, s[1..]);
      i := k + 1;
      assert s[..i] == [s[0]] + s[1..][..k];
    }
  }

  /** The two laws above determine tokenising: nothing else obeys both. */
  lemma {:induction false} LawsDetermineTokens(p: Platform, f: string -> seq<string>, s: string)
    requires forall a, c, b | !p.isWord(p.lower(c)) :: f(a + [c] + b) == f(a) + f(b)
    requires forall w | OneWord(p, w) :: f(w) == Flush(Lowered(p, w))
    ensures f(s) == Tokens(p, s)
    decreases |s|
  {
    if OneWord(p, s) {
      TokensOfWord(p, s);
    } else {
      var i := FirstSeparator(p, s);
      var a, c, b := s[..i], s[i], s[i + 1..];
      assert s == a + [c] + b;
      TokensSplit(p, a, c, b);
      LawsDetermineTokens(p, f, a);
      LawsDetermineTokens(p, f, b);
    }
  }

  /** What every token looks like. */
  ghost predicate CleanToken(p: Platform, t: string) {
    && t != "" && t !in STOPWORDS
    && forall c | c in t :: p.isWord(c) && p.lower(c) == c
  }

  lemma {:induction false} TokensFromClean(p: Platform, s: string, cur: string)
    requires p.LawfulRunes()
    requires forall c | c in cur :: p.isWord(c) && p.lower(c) == c
    ensures forall t | t in TokensFrom(p, s, cur) :: CleanToken(p, t)
    decreases |s|
  {
    if s != "" {
      if Separator(p, s[0]) {
        TokensFromClean(p, s[1..], "");
      } else {
        TokensFromClean(p, s[1..], cur + [p.lower(s[0])]);
      }
    }
  }

  /** Every token is non-empty, lower-case, made of letters and digits, and no stopword. */
  lemma TokensClean(p: Platform, s: string)
    requires p.LawfulRunes()
    ensures forall t | t in Tokens(p, s) :: CleanToken(p, t)
  {
    TokensFromClean(p, s, "");
  }

  function Joined(ts: seq<string>): string {
    if ts == [] then "" else if |ts| == 1 then ts[0] else ts[0] + [' '] + Joined(ts[1..])
  }

  lemma TokensOfClean(p: Platform, t: string)
    requires CleanToken(p, t)
    ensures Tokens(p, t) == [t]
  {
    TokensOfWord(p, t);
    assert Lowered(p, t) == t;
  }

  lemma {:induction false} TokensOfJoined(p: Platform, ts: seq<string>)
    requires p.LawfulRunes()
    requires forall t | t in ts :: CleanToken(p, t)
    ensures Tokens(p, Joined(ts)) == ts
    decreases |ts|
  {
    if ts != [] {
      TokensOfClean(p, ts[0]);
      if |ts| > 1 {
        TokensSplit(p, ts[0], ' ', Joined(ts[1..]));
        TokensOfJoined(p, ts[1..]);
      }
      assert ts == [ts[0]] + ts[1..];
    }
  }

  /** Tokenising its own output, rejoined with spaces, changes nothing. */
  lemma TokensFixedPoint(p: Platform, s: string)
    requires p.LawfulRunes()
    ensures Tokens(p, Joined(Tokens(p, s))) == Tokens(p, s)
  {
    TokensClean(p, s);
    TokensOfJoined(p, Tokens(p, s));
  }

  // ---------------------------------------------------------------- documents

  /** `value` is the JSON text of the stored value. */
  datatype Entry = Entry(key: string, value: string, tags: seq<string>, storedAt: int, lastAccessed: int)

  function TagText(tags: seq<string>): string {
    if tags == [] then "" else tags[0] + [' '] + TagText(tags[1..])
  }

  /** Everything searchable about an entry, in one string. */
  method DocumentText(e: Entry) returns (text: string)
    ensures text == e.key + [' '] + e.value + [' '] + TagText(e.tags)
  {
    text := e.key + [' '] + e.value + [' '];
    ghost var front := text;
    for i := 0 to |e.tags|
      invariant text + TagText(e.tags[i..]) == front + TagText(e.tags)
    {
      assert e.tags[i..][0] == e.tags[i] && e.tags[i..][1..] == e.tags[i + 1..];
      text := text + e.tags[i] + [' '];
    }
  }

  function TagTokens(p: Platform, tags: seq<string>): seq<string> {
    if tags == [] then [] else Tokens(p, tags[0]) + TagTokens(p, tags[1..])
  }

  lemma {:induction false} TokensOfTagText(p: Platform, tags: seq<string>)
    requires p.LawfulRunes()
    ensures Tokens(p, TagText(tags)) == TagTokens(p, tags)
    decreases |tags|
  {
    if tags != [] {
      TokensSplit(p, tags[0], ' ', TagText(tags[1..]));
      TokensOfTagText(p, tags[1..]);
    }
  }

  /** The words of an entry, with multiplicity: all that search ever uses of it. */
  ghost function Words(p: Platform, e: Entry): multiset<string> {
    multiset(Tokens(p, e.key + [' '] + e.value + [' '] + TagText(e.tags)))
  }

  /** A document's tokens are those of its key, then of its value, then of its tags. */
  lemma DocumentTokens(p: Platform, e: Entry)
    requires p.LawfulRunes()
    ensures Tokens(p, e.key + [' '] + e.value + [' '] + TagText(e.tags))
         == Tokens(p, e.key) + Tokens(p, e.value) + TagTokens(p, e.tags)
  {
    TokensSplit(p, e.key + [' '] + e.value, ' ', TagText(e.tags));
    TokensSplit(p, e.key, ' ', e.value);
    TokensOfTagText(p, e.tags);
  }

  lemma {:induction false} TagTokensConcat(p: Platform, a: seq<string>, b: seq<string>)
    ensures TagTokens(p, a + b) == TagTokens(p, a) + TagTokens(p, b)
    decreases |a|
  {
    if a == [] {
      assert a + b == b;
    } else {
      assert (a + b)[0] == a[0] && (a + b)[1..] == a[1..] + b;
      TagTokensConcat(p, a[1..], b);
    }
  }

  /** Every part of an entry is searchable: its words are those of the key, of the value, and of each tag. */
  lemma WordsAre(p: Platform, e: Entry, tags: seq<string>, tag: string)
    requires p.LawfulRunes()
    ensures e.tags == [] ==> Words(p, e) == multiset(Tokens(p, e.key)) + multiset(Tokens(p, e.value))
    ensures Words(p, e.(tags := tags + [tag])) == Words(p, e.(tags := tags)) + multiset(Tokens(p, tag))
  {
    DocumentTokens(p, e);
    DocumentTokens(p, e.(tags := tags));
    DocumentTokens(p, e.(tags := tags + [tag]));
    TagTokensConcat(p, tags, [tag]);
    assert TagTokens(p, [tag]) == Tokens(p, tag) + [] == Tokens(p, tag);
    assert e.tags == [] ==> TagTokens(p, e.tags) == [];
    hide Tokens, TagText, TagTokens, Platform.LawfulRunes;
  }

  /** The entry that reading a file back yields: equal but for how the value is spelled. */
  function ReadBack(p: Platform, e: Entry): Entry {
    e.(value := p.reparse(e.value))
  }

  /** The JSON round trip keeps the words of a value. It does for every value but those with a number that
      float64 cannot hold, which comes back with other digits. */
  ghost predicate Survives(p: Platform, value: string) {
    multiset(Tokens(p, p.reparse(value))) == multiset(Tokens(p, value))
  }

  /** A JSON round trip keeps an entry's words exactly when it keeps those of its value. */
  lemma ReadBackKeepsWordsIff(p: Platform, e: Entry)
    requires p.LawfulRunes()
    ensures Words(p, ReadBack(p, e)) == Words(p, e) <==> Survives(p, e.value)
  {
    DocumentTokens(p, e);
    DocumentTokens(p, ReadBack(p, e));
    hide Tokens, TagText, TagTokens, Platform.LawfulRunes;
    SameMiddle(multiset(Tokens(p, e.key)), multiset(Tokens(p, p.reparse(e.value))), multiset(Tokens(p, e.value)),
      multiset(TagTokens(p, e.tags)));
  }

  lemma SameMiddle<T>(k: multiset<T>, v: multiset<T>, w: multiset<T>, g: multiset<T>)
    ensures k + v + g == k + w + g <==> v == w
  {
    assert v == k + v + g - k - g && w == k + w + g - k - g;
  }

  ghost predicate Digits(p: Platform, v: string) {
    v != "" && forall c | c in v :: '0' <= c <= '9' && p.lower(c) == c && p.isWord(c)
  }

  /** A number that is read back with other digits does not: 9007199254740993 comes back as 9007199254740992. */
  lemma RoundedNumberChanges(p: Platform, v: string)
    requires p.LawfulRunes() && Digits(p, v) && Digits(p, p.reparse(v)) && p.reparse(v) != v
    ensures !Survives(p, v)
  {
    NumberIsToken(p, v);
    NumberIsToken(p, p.reparse(v));
    assert v in multiset([v]) && v !in multiset([p.reparse(v)]);
  }

  lemma NumberIsToken(p: Platform, v: string)
    requires p.LawfulRunes() && Digits(p, v)
    ensures Tokens(p, v) == [v]
  {
    TokensOfWord(p, v);
    assert Lowered(p, v) == v;
    assert v[0] in v;
    assert forall w | w in STOPWORDS :: !('0' <= w[0] <= '9');
  }

  /** Reading back twice is reading back once. */
  lemma ReadBackTwice(p: Platform, e: Entry)
    requires p.Lawful()
    ensures ReadBack(p, ReadBack(p, e)) == ReadBack(p, e)
  {
  }
}
