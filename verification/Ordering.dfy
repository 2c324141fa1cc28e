/** Comparisons and stable sorting. */
module Ordering {

  // ----- lexicographic comparison ------------------------------------------

  /** A three-way comparison: negative, zero or positive. */
  ghost predicate Total<T(!new)>(cmp: (T, T) -> int) {
    && (forall a, b :: cmp(a, b) == 0 <==> a == b)
    && (forall a, b :: cmp(a, b) < 0 <==> cmp(b, a) > 0)
    && (forall a, b, c :: cmp(a, b) < 0 && cmp(b, c) < 0 ==> cmp(a, c) < 0)
  }

  function Lex<T>(cmp: (T, T) -> int, a: seq<T>, b: seq<T>): int {
    if a == [] then if b == [] then 0 else -1
    else if b == [] then 1
    else if cmp(a[0], b[0]) != 0 then cmp(a[0], b[0])
    else Lex(cmp, a[1..], b[1..])
  }

  lemma {:induction false} LexFlip<T(!new)>(cmp: (T, T) -> int, a: seq<T>, b: seq<T>)
    requires Total(cmp)
    ensures Lex(cmp, a, b) == 0 <==> a == b
    ensures Lex(cmp, a, b) < 0 <==> Lex(cmp, b, a) > 0
  {
    if a == [] || b == [] {
    } else {
      LexFlip(cmp, a[1..], b[1..]);
      assert a == [a[0]] + a[1..] && b == [b[0]] + b[1..];
      assert cmp(a[0], b[0]) == 0 <==> cmp(b[0], a[0]) == 0;
    }
  }

  lemma {:induction false} LexTransitive<T(!new)>(cmp: (T, T) -> int, a: seq<T>, b: seq<T>, c: seq<T>)
    requires Total(cmp) && Lex(cmp, a, b) < 0 && Lex(cmp, b, c) < 0
    ensures Lex(cmp, a, c) < 0
  {
    if a == [] || b == [] || c == [] {
    } else {
      if cmp(a[0], b[0]) == 0 && cmp(b[0], c[0]) == 0 {
        LexTransitive(cmp, a[1..], b[1..], c[1..]);
      }
    }
  }

  /** Somewhere the sequences part, and `cmp` decides there; or the first one is a proper beginning of the second. */
  ghost predicate Parts<T(!new)>(cmp: (T, T) -> int, a: seq<T>, b: seq<T>) {
    || (exists i | 0 <= i < |a| && i < |b| :: a[..i] == b[..i] && cmp(a[i], b[i]) < 0)
    || (|a| < |b| && a == b[..|a|])
  }

  lemma PartsBehind<T(!new)>(cmp: (T, T) -> int, a: seq<T>, b: seq<T>)
    requires a != [] && b != [] && a[0] == b[0] && cmp(a[0], a[0]) == 0
    ensures Parts(cmp, a[1..], b[1..]) <==> Parts(cmp, a, b)
  {
    var c, d := a[1..], b[1..];
    if i :| 0 <= i < |c| && i < |d| && c[..i] == d[..i] && cmp(c[i], d[i]) < 0 {
      assert a[..i + 1] == [a[0]] + c[..i] && b[..i + 1] == [b[0]] + d[..i];
      assert cmp(a[i + 1], b[i + 1]) < 0;
    }
    if i :| 0 <= i < |a| && i < |b| && a[..i] == b[..i] && cmp(a[i], b[i]) < 0 {
      assert c[..i - 1] == a[..i][1..] && d[..i - 1] == b[..i][1..];
      assert cmp(c[i - 1], d[i - 1]) < 0;
    }
    if |a| < |b| {
      assert a == [a[0]] + c && b[..|a|] == [b[0]] + d[..|c|];
      assert a == b[..|a|] <==> c == d[..|c|];
    }
  }

  /** What the recursive comparison means. */
  lemma {:induction false} LexParts<T(!new)>(cmp: (T, T) -> int, a: seq<T>, b: seq<T>)
    requires Total(cmp)
    ensures Lex(cmp, a, b) < 0 <==> Parts(cmp, a, b)
  {
    if a == [] || b == [] {
      assert a == [] && b != [] ==> a == b[..|a|];
    } else if a[0] == b[0] {
      LexParts(cmp, a[1..], b[1..]);
      PartsBehind(cmp, a, b);
    } else {
      assert cmp(a[0], b[0]) != 0;
      assert cmp(a[0], b[0]) < 0 ==> a[..0] == b[..0];
      forall i | 0 < i < |a| && i < |b|
        ensures a[..i] != b[..i]
      {
        assert a[..i][0] != b[..i][0];
      }
      assert |a| < |b| ==> a[0] != b[..|a|][0];
    }
  }

  function CompareChars(a: char, b: char): int { a as int - b as int }

  function CompareStrings(a: string, b: string): int { Lex(CompareChars, a, b) }

  lemma StringsTotal()
    ensures Total(CompareStrings)
  {
    forall a, b
      ensures CompareStrings(a, b) == 0 <==> a == b
      ensures CompareStrings(a, b) < 0 <==> CompareStrings(b, a) > 0
    {
      LexFlip(CompareChars, a, b);
    }
    forall a, b, c | CompareStrings(a, b) < 0 && CompareStrings(b, c) < 0
      ensures CompareStrings(a, c) < 0
    {
      LexTransitive(CompareChars, a, b, c);
    }
  }

  /** One string comes before another: at the first difference its character is smaller, or it is a proper prefix. */
  predicate Before(a: string, b: string) {
    || (exists i | 0 <= i < |a| && i < |b| :: a[..i] == b[..i] && a[i] < b[i])
    || (|a| < |b| && a == b[..|a|])
  }

  lemma StringsCompared(a: string, b: string)
    ensures CompareStrings(a, b) < 0 <==> Before(a, b)
    ensures CompareStrings(a, b) <= 0 <==> Before(a, b) || a == b
  {
    assert Total(CompareChars);
    LexParts(CompareChars, a, b);
    LexFlip(CompareChars, a, b);
  }

  // ----- sorting -----------------------------------------------------------

  ghost predicate Preorder<T(!new)>(le: (T, T) -> bool) {
    && (forall a, b :: le(a, b) || le(b, a))
    && (forall a, b, c :: le(a, b) && le(b, c) ==> le(a, c))
  }

  predicate Ordered<T>(le: (T, T) -> bool, s: seq<T>) {
    forall i, j | 0 <= i < j < |s| :: le(s[i], s[j])
  }

  /** `x` goes in front of everything that is not smaller. */
  function Insert<T>(le: (T, T) -> bool, x: T, s: seq<T>): (r: seq<T>)
    ensures multiset(r) == multiset(s) + multiset{x}
  {
    if s == [] || le(x, s[0]) then [x] + s
    else
      assert s == [s[0]] + s[1..];
      [s[0]] + Insert(le, x, s[1..])
  }

  /** `sorted(s, key=...)`: stable. */
  function Sort<T>(le: (T, T) -> bool, s: seq<T>): (r: seq<T>)
    ensures multiset(r) == multiset(s)
  {
    if s == [] then []
    else
      assert s == [s[0]] + s[1..];
      Insert(le, s[0], Sort(le, s[1..]))
  }

  function Filter<T>(p: T -> bool, s: seq<T>): (r: seq<T>)
    ensures (forall x | x in r :: x in s && p(x)) && (forall x | x in s && p(x) :: x in r)
  {
    if s == [] then [] else if p(s[0]) then [s[0]] + Filter(p, s[1..]) else Filter(p, s[1..])
  }

  lemma {:induction false} InsertOrdered<T(!new)>(le: (T, T) -> bool, x: T, s: seq<T>)
    requires Preorder(le) && Ordered(le, s)
    ensures Ordered(le, Insert(le, x, s))
  {
    if s == [] || le(x, s[0]) {
    } else {
      InsertOrdered(le, x, s[1..]);
      forall y | y in Insert(le, x, s[1..])
        ensures le(s[0], y)
      {
        assert y in multiset(s[1..]) + multiset{x};
      }
    }
  }

  lemma {:induction false} SortOrdered<T(!new)>(le: (T, T) -> bool, s: seq<T>)
    requires Preorder(le)
    ensures Ordered(le, Sort(le, s))
  {
    if s == [] {
    } else {
      SortOrdered(le, s[1..]);
      InsertOrdered(le, s[0], Sort(le, s[1..]));
    }
  }

  lemma {:induction false} SortSorted<T>(le: (T, T) -> bool, s: seq<T>)
    requires Ordered(le, s)
    ensures Sort(le, s) == s
  {
    if s == [] {
    } else {
      SortSorted(le, s[1..]);
    }
  }

  lemma {:induction false} FilterInsert<T(!new)>(le: (T, T) -> bool, p: T -> bool, x: T, s: seq<T>)
    requires Preorder(le) && Ordered(le, s)
    ensures Filter(p, Insert(le, x, s)) == if p(x) then Insert(le, x, Filter(p, s)) else Filter(p, s)
  {
    if s == [] || le(x, s[0]) {
      assert ([x] + s)[1..] == s;
      var f := Filter(p, s);
      assert f != [] ==> f[0] in s;
      assert f != [] ==> le(x, f[0]);
    } else {
      FilterInsert(le, p, x, s[1..]);
      var rest := Insert(le, x, s[1..]);
      assert ([s[0]] + rest)[1..] == rest;
      var f := Filter(p, s[1..]);
      assert ([s[0]] + f)[1..] == f;
    }
  }

  /** Filtering a sorted list is sorting the filtered list, ties included. */
  lemma {:induction false} FilterSort<T(!new)>(le: (T, T) -> bool, p: T -> bool, s: seq<T>)
    requires Preorder(le)
    ensures Filter(p, Sort(le, s)) == Sort(le, Filter(p, s))
  {
    if s == [] {
    } else {
      FilterSort(le, p, s[1..]);
      SortOrdered(le, s[1..]);
      FilterInsert(le, p, s[0], Sort(le, s[1..]));
    }
  }

  lemma {:induction false} FilterOrdered<T>(le: (T, T) -> bool, p: T -> bool, s: seq<T>)
    requires Ordered(le, s)
    ensures Ordered(le, Filter(p, s))
  {
    if s == [] {
    } else {
      FilterOrdered(le, p, s[1..]);
      forall y | y in Filter(p, s[1..])
        ensures le(s[0], y)
      {
        assert y in s[1..];
      }
    }
  }

  /** Whether an element has the same key as `x`. */
  function Ties<T>(le: (T, T) -> bool, x: T): T -> bool {
    y => le(x, y) && le(y, x)
  }

  lemma TiesOrdered<T(!new)>(le: (T, T) -> bool, s: seq<T>, x: T)
    requires Preorder(le)
    ensures Ordered(le, Filter(Ties(le, x), s))
  {
    var f := Filter(Ties(le, x), s);
    forall i, j | 0 <= i < j < |f|
      ensures le(f[i], f[j])
    {
      assert f[i] in f && f[j] in f;
      assert le(f[i], x) && le(x, f[j]);
    }
  }

  /** Elements with equal keys keep their order. */
  lemma SortStable<T(!new)>(le: (T, T) -> bool, s: seq<T>, x: T)
    requires Preorder(le)
    ensures Filter(Ties(le, x), Sort(le, s)) == Filter(Ties(le, x), s)
  {
    FilterSort(le, Ties(le, x), s);
    TiesOrdered(le, s, x);
    SortSorted(le, Filter(Ties(le, x), s));
  }

  lemma {:induction false} OrderedUnique<T(!new)>(le: (T, T) -> bool, s: seq<T>, t: seq<T>)
    requires Ordered(le, s) && Ordered(le, t) && multiset(s) == multiset(t)
    requires Preorder(le) && forall a, b :: le(a, b) && le(b, a) ==> a == b
    ensures s == t
  {
    assert |multiset(s)| == |multiset(t)|;
    if s == [] {
    } else {
      assert s[0] in multiset(t) && t[0] in multiset(s);
      assert le(s[0], t[0]) && le(t[0], s[0]);
      TailBag(s);
      TailBag(t);
      OrderedUnique(le, s[1..], t[1..]);
    }
  }

  lemma TailBag<T>(s: seq<T>)
    requires s != []
    ensures multiset(s[1..]) == multiset(s) - multiset{s[0]}
  {
    assert s == [s[0]] + s[1..];
  }

  predicate NoDuplicates<T(==)>(s: seq<T>) {
    forall i, j | 0 <= i < j < |s| :: s[i] != s[j]
  }

  lemma {:induction false} SameElements<T(!new)>(s: seq<T>, t: seq<T>)
    requires NoDuplicates(s) && NoDuplicates(t) && forall x :: x in s <==> x in t
    ensures multiset(s) == multiset(t)
  {
    forall x
      ensures multiset(s)[x] == multiset(t)[x]
    {
      CountOnce(s, x);
      CountOnce(t, x);
    }
  }

  lemma {:induction false} CountOnce<T>(s: seq<T>, x: T)
    requires NoDuplicates(s)
    ensures multiset(s)[x] == if x in s then 1 else 0
  {
    if s == [] {
    } else {
      assert s == [s[0]] + s[1..];
      CountOnce(s[1..], x);
    }
  }

  lemma {:induction false} FilterNoDuplicates<T>(p: T -> bool, s: seq<T>)
    requires NoDuplicates(s)
    ensures NoDuplicates(Filter(p, s))
  {
    if s == [] {
    } else {
      FilterNoDuplicates(p, s[1..]);
    }
  }

  lemma {:induction false} FilterConcat<T>(p: T -> bool, s: seq<T>, t: seq<T>)
    ensures Filter(p, s + t) == Filter(p, s) + Filter(p, t)
  {
    if s == [] {
      assert s + t == t;
    } else {
      FilterConcat(p, s[1..], t);
      assert (s + t)[0] == s[0] && (s + t)[1..] == s[1..] + t;
      var f, g := Filter(p, s[1..]), Filter(p, t);
      assert [s[0]] + (f + g) == [s[0]] + f + g;
    }
  }

  lemma FilterOneMore<T>(p: T -> bool, s: seq<T>, x: T)
    ensures Filter(p, s + [x]) == Filter(p, s) + if p(x) then [x] else []
  {
    FilterConcat(p, s, [x]);
    assert [x][1..] == [];
  }

  lemma {:induction false} FilterTwice<T(!new)>(p: T -> bool, q: T -> bool, r: T -> bool, s: seq<T>)
    requires forall x :: r(x) <==> p(x) && q(x)
    ensures Filter(p, Filter(q, s)) == Filter(r, s)
  {
    if s == [] {
    } else {
      FilterTwice(p, q, r, s[1..]);
      if q(s[0]) {
        var f := Filter(q, s[1..]);
        assert ([s[0]] + f)[1..] == f;
      }
    }
  }
}
