/** Strict total orders: sorting, and why a sorted listing of a set is unique. */
module Order {

  /** Go's `<` on strings. */
  predicate StrLess(a: string, b: string) {
    if b == "" then false
    else if a == "" then true
    else if a[0] != b[0] then a[0] < b[0]
    else StrLess(a[1..], b[1..])
  }

  /** The first rune in which two strings differ decides; a prefix comes before what extends it. */
  lemma {:induction false} StrLessIs(front: string, c: char, a: string, d: char, b: string)
    ensures c != d ==> (StrLess(front + [c] + a, front + [d] + b) <==> c < d)
    ensures StrLess(front, front + [d] + b) && !StrLess(front + [c] + a, front)
    decreases |front|
  {
    if front != "" {
      var rest := front[1..];
      StrLessIs(rest, c, a, d, b);
      assert (front + [c] + a)[1..] == rest + [c] + a && (front + [d] + b)[1..] == rest + [d] + b;
    } else {
      assert front + [c] + a == [c] + a && front + [d] + b == [d] + b;
    }
  }

  lemma {:induction false} StrLessTotal(a: string, b: string)
    ensures a == b ==> !StrLess(a, b)
    ensures a != b ==> StrLess(a, b) != StrLess(b, a)
    decreases |a|
  {
    if a != "" && b != "" {
      assert a == [a[0]] + a[1..] && b == [b[0]] + b[1..];
      StrLessTotal(a[1..], b[1..]);
    }
  }

  lemma {:induction false} StrLessTransitive(a: string, b: string, c: string)
    requires StrLess(a, b) && StrLess(b, c)
    ensures StrLess(a, c)
    decreases |a|
  {
    if a != "" && a[0] == b[0] && b[0] == c[0] {
      StrLessTransitive(a[1..], b[1..], c[1..]);
    }
  }

  /** `less` is a strict total order. */
  ghost predicate Strict<T(!new)>(less: (T, T) -> bool) {
    && (forall a, b :: a == b ==> !less(a, b))
    && (forall a, b :: a != b ==> less(a, b) != less(b, a))
    && (forall a, b, c :: less(a, b) && less(b, c) ==> less(a, c))
  }

  lemma StrLessStrict()
    ensures Strict(StrLess)
  {
    forall a, b
      ensures a == b ==> !StrLess(a, b)
      ensures a != b ==> StrLess(a, b) != StrLess(b, a)
    {
      StrLessTotal(a, b);
    }
    forall a, b, c | StrLess(a, b) && StrLess(b, c) ensures StrLess(a, c) {
      StrLessTransitive(a, b, c);
    }
  }

  ghost predicate Ascending<T(!new)>(less: (T, T) -> bool, s: seq<T>) {
    forall i, j | 0 <= i < j < |s| :: less(s[i], s[j])
  }

  ghost function Elements<T>(s: seq<T>): set<T> {
    set x | x in s
  }

  /** Two ascending listings of one set are the same listing. */
  lemma {:induction false} AscendingUnique<T(!new)>(less: (T, T) -> bool, s: seq<T>, t: seq<T>)
    requires Strict(less)
    requires Ascending(less, s) && Ascending(less, t)
    requires Elements(s) == Elements(t)
    ensures s == t
    decreases |s|
  {
    assert |t| > 0 ==> t[0] in Elements(t);
    if s != [] {
      assert s[0] in Elements(s) && s[0] in t;
      assert t[0] in Elements(t) && t[0] in s;
      var i :| 0 <= i < |t| && t[i] == s[0];
      var j :| 0 <= j < |s| && s[j] == t[0];
      assert s[0] == t[0];
      forall x ensures x in Elements(s[1..]) <==> x in Elements(t[1..]) {
        assert x in Elements(s) <==> x in Elements(t);
        assert s == [s[0]] + s[1..] && t == [t[0]] + t[1..];
        assert s[0] !in s[1..] && t[0] !in t[1..];
      }
      AscendingUnique(less, s[1..], t[1..]);
    }
  }

  /** `less` is a strict total order on the elements of `dom`. */
  ghost predicate StrictOn<T(!new)>(less: (T, T) -> bool, dom: set<T>) {
    && (forall a, b | a in dom && b in dom :: a == b ==> !less(a, b))
    && (forall a, b | a in dom && b in dom :: a != b ==> less(a, b) != less(b, a))
    && (forall a, b, c | a in dom && b in dom && c in dom :: less(a, b) && less(b, c) ==> less(a, c))
  }

  /** sort.Slice on distinct elements, as an insertion sort. */
  method SortDistinct<T(!new)>(less: (T, T) -> bool, xs: seq<T>) returns (ys: seq<T>)
    requires StrictOn(less, Elements(xs))
    requires forall i, j | 0 <= i < j < |xs| :: xs[i] != xs[j]
    ensures Ascending(less, ys)
    ensures Elements(ys) == Elements(xs) && |ys| == |xs|
  {
    ys := [];
    for n := 0 to |xs|
      invariant Ascending(less, ys)
      invariant |ys| == n && Elements(ys) == Elements(xs[..n])
    {
      var x := xs[n];
      assert x !in xs[..n] && x !in Elements(ys) && Elements(ys) <= Elements(xs);
      assert forall y | y in ys :: y in Elements(ys);
      var k := 0;
      while k < |ys| && less(ys[k], x)
        invariant k <= |ys|
        invariant forall i | 0 <= i < k :: less(ys[i], x)
      {
        k := k + 1;
      }
      assert k < |ys| ==> less(x, ys[k]);
      InsertedAscends(less, Elements(xs), ys, k, x);
      InsertedElements(ys, k, x);
      assert xs[..n + 1] == xs[..n] + [x] && Elements(xs[..n + 1]) == Elements(xs[..n]) + {x};
      hide Elements, Ascending;
      ys := ys[..k] + [x] + ys[k..];
    }
    assert xs[..|xs|] == xs;
  }

  lemma InsertedAscends<T(!new)>(less: (T, T) -> bool, dom: set<T>, ys: seq<T>, k: nat, x: T)
    requires StrictOn(less, dom) && Elements(ys) <= dom && x in dom && Ascending(less, ys) && k <= |ys|
    requires (forall i | 0 <= i < k :: less(ys[i], x)) && (k < |ys| ==> less(x, ys[k]))
    ensures Ascending(less, ys[..k] + [x] + ys[k..])
  {
    forall i | 0 <= i < |ys| ensures ys[i] in dom {
      assert ys[i] in Elements(ys);
    }
    forall j | k < j < |ys| ensures less(x, ys[j]) {
      assert less(ys[k], ys[j]);
    }
  }

  lemma InsertedElements<T(!new)>(ys: seq<T>, k: nat, x: T)
    requires k <= |ys|
    ensures Elements(ys[..k] + [x] + ys[k..]) == Elements(ys) + {x}
  {
    assert ys == ys[..k] + ys[k..];
  }

  lemma SameMap<K(!new), V>(a: map<K, V>, b: map<K, V>)
    requires forall k :: k in a <==> k in b
    requires forall k | k in a :: a[k] == b[k]
    ensures a == b
  {
  }
}
