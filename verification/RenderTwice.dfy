/**
 Rendering what has been rendered.  Values are not scanned, so a second rendering can find
 placeholders in them, or across the seam between a value and the text behind it.
 */
module RenderTwice {
  import opened Util
  import opened Templater
  import Text

  /** Rendering the rendered template changes nothing. */
  predicate Stable(s: string, resolve: string -> Option<string>) {
    Out(Out(s, resolve), resolve) == Out(s, resolve)
  }

  /** The text behind the last placeholder. */
  function LastText(s: string): string
    decreases |s|
  {
    if Hole1(s).None? then s else LastText(s[Hole1(s).value.1 + 2..])
  }

  /** A value that renders to itself, whatever comes behind it. */
  ghost predicate Safe(v: string, resolve: string -> Option<string>) {
    Out(v, resolve) == v && Clean(LastText(v))
  }

  /** Values without an opening pair of braces, and without a brace at their end, are safe. */
  lemma CleanIsSafe(v: string, resolve: string -> Option<string>)
    requires Clean(v)
    ensures Safe(v, resolve)
  {
    assert Hole1(v).None?;
    OutStep(v, resolve);
  }

  // ----- text in front -----------------------------------------------------

  lemma OutAtHole(s: string, resolve: string -> Option<string>)
    requires Hole1(s).Some?
    ensures var (i, j) := Hole1(s).value;
      var v := resolve(Strip(s[i + 2..j]));
      Out(s, resolve) == s[..i] + (if v.Some? then v.value else "{{" + s[i + 2..j] + "}}") + Out(s[j + 2..], resolve)
  {
    OutStep(s, resolve);
  }

  /** A hole up to its end closes there. */
  lemma HoleCloses(t: string, i: nat, j: nat)
    requires Hole1(t) == Some((i, j))
    ensures i + 2 <= j && j + 2 <= |t| && PairAt(t, '{', i) && PairAt(t, '}', j)
    ensures FindPair(t[i + 2..j + 2], '}', 0) == Some(j - (i + 2))
  {
    InnerCloses(t);
    assert t[i + 2..j] + "}}" == t[i + 2..j + 2];
  }

  /** The same text around a hole has the same hole, if there is none in front of it. */
  lemma HoleMoved(z: string, m: nat, n: nat, t: string, i: nat, j: nat)
    requires Hole1(t) == Some((i, j)) && m <= n && n - m == j - i && j + 2 <= |t| && n + 2 <= |z|
    requires z[m..n + 2] == t[i..j + 2] && Clean(z[..m])
    ensures Hole1(z) == Some((m, n))
  {
    HoleCloses(t, i, j);
    assert z[m + 2..n + 2] == z[m..n + 2][2..] && t[i + 2..j + 2] == t[i..j + 2][2..];
    assert PairAt(z, '{', m) by { assert z[m..n + 2][0] == z[m] && z[m..n + 2][1] == z[m + 1]; }
    assert PairAt(z, '}', n) by {
      assert z[m..n + 2][n - m] == z[n] && z[m..n + 2][n - m + 1] == z[n + 1];
    }
    hide PairAt, FindPair, Clean;
    HoleAfterClean(z, m, n);
  }

  lemma HoleBehindClean(x: string, t: string)
    requires Clean(x) && Hole1(t).Some?
    ensures Hole1(x + t) == Some((|x| + Hole1(t).value.0, |x| + Hole1(t).value.1))
  {
    var (i, j) := Hole1(t).value;
    LeadIsClean(t);
    CleanConcat(x, t[..i]);
    HoleCloses(t, i, j);
    var z, m, n := x + t, |x| + i, |x| + j;
    hide Clean, Hole1, PairAt, FindPair;
    assert z[..m] == x + t[..i] && z[m..n + 2] == t[i..j + 2];
    HoleMoved(z, m, n, t, i, j);
  }

  lemma MoveSeam(x: string, p: string, m: string, rest: string)
    ensures x + (p + m + rest) == (x + p) + m + rest
  {
    ConcatAssociative(x, p + m, rest);
    ConcatAssociative(x, p, m);
  }

  /** Clean text renders to itself, whatever comes behind it. */
  lemma OutBehindClean(x: string, t: string, resolve: string -> Option<string>)
    requires Clean(x)
    ensures Out(x + t, resolve) == x + Out(t, resolve)
  {
    if Hole1(t).None? {
      NoHoleAfterClean(x, t);
      OutStep(t, resolve);
      OutStep(x + t, resolve);
    } else {
      HoleBehindClean(x, t);
      ShiftedHole(x, t, resolve);
    }
  }

  lemma ShiftedHole(x: string, t: string, resolve: string -> Option<string>)
    requires Hole1(t).Some? && Hole1(x + t) == Some((|x| + Hole1(t).value.0, |x| + Hole1(t).value.1))
    ensures Out(x + t, resolve) == x + Out(t, resolve)
  {
    hide Out, Strip;
    var (i, j) := Hole1(t).value;
    var z := x + t;
    OutAtHole(t, resolve);
    OutAtHole(z, resolve);
    assert z[..|x| + i] == x + t[..i] && z[|x| + i + 2..|x| + j] == t[i + 2..j] && z[|x| + j + 2..] == t[j + 2..];
    var v := resolve(Strip(t[i + 2..j]));
    MoveSeam(x, t[..i], if v.Some? then v.value else "{{" + t[i + 2..j] + "}}", Out(t[j + 2..], resolve));
  }

  // ----- text behind -------------------------------------------------------

  lemma HoleStays(s: string, t: string)
    requires Hole1(s).Some?
    ensures Hole1(s + t) == Hole1(s)
  {
    var (i, j) := Hole1(s).value;
    PairsStay(s, t, '{', 0, i);
    PairsStay(s, t, '}', i + 2, j);
  }

  lemma PairsStay(s: string, t: string, c: char, from: nat, i: nat)
    requires from <= |s| && FindPair(s, c, from) == Some(i)
    ensures FindPair(s + t, c, from) == Some(i)
  {
    var z := s + t;
    assert z[i] == s[i] && z[i + 1] == s[i + 1] && PairAt(z, c, i);
    forall k | from <= k < i
      ensures !PairAt(z, c, k)
    {
      assert !PairAt(s, c, k) && z[k] == s[k] && z[k + 1] == s[k + 1];
    }
  }

  /** Text behind changes only what the last text becomes. */
  lemma {:induction false} OutInFront(s: string, t: string, resolve: string -> Option<string>) returns (p: string)
    ensures Out(s, resolve) == p + LastText(s)
    ensures Out(s + t, resolve) == p + Out(LastText(s) + t, resolve)
    decreases |s|
  {
    hide Out, Strip;
    if Hole1(s).None? {
      p := "";
      OutStep(s, resolve);
      assert p + s == s && p + Out(s + t, resolve) == Out(s + t, resolve);
    } else {
      var (i, j) := Hole1(s).value;
      var q := OutInFront(s[j + 2..], t, resolve);
      var m := FirstHole(s, t, i, j, resolve);
      p := m + q;
      ConcatAssociative(m, q, LastText(s));
      ConcatAssociative(m, q, Out(LastText(s) + t, resolve));
    }
  }

  /** What the text up to the end of the first hole becomes, whatever comes behind. */
  lemma FirstHole(s: string, t: string, i: nat, j: nat, resolve: string -> Option<string>) returns (m: string)
    requires Hole1(s) == Some((i, j))
    ensures Out(s, resolve) == m + Out(s[j + 2..], resolve)
    ensures Out(s + t, resolve) == m + Out(s[j + 2..] + t, resolve)
  {
    hide Out, Strip, LastText;
    var v := resolve(Strip(s[i + 2..j]));
    m := s[..i] + if v.Some? then v.value else "{{" + s[i + 2..j] + "}}";
    HoleStays(s, t);
    OutAtHole(s, resolve);
    OutAtHole(s + t, resolve);
    SameHole(s, t, i, j);
  }

  lemma SameHole(s: string, t: string, i: nat, j: nat)
    requires i + 2 <= j && j + 2 <= |s|
    ensures var z := s + t; z[..i] == s[..i] && z[i + 2..j] == s[i + 2..j] && z[j + 2..] == s[j + 2..] + t
  {
  }

  /** A safe value keeps its place in front of anything. */
  lemma OutBehindSafe(v: string, t: string, resolve: string -> Option<string>)
    requires Safe(v, resolve)
    ensures Out(v + t, resolve) == v + Out(t, resolve)
  {
    var p := OutInFront(v, t, resolve);
    OutBehindClean(LastText(v), t, resolve);
    ConcatAssociative(p, LastText(v), Out(t, resolve));
  }

  // ----- safe values make stable templates ---------------------------------

  ghost predicate SafeValue(v: Option<string>, resolve: string -> Option<string>) {
    v.Some? ==> Safe(v.value, resolve)
  }

  /** Rendering twice is rendering once if every value of the template is safe. */
  lemma {:induction false} SafeIsStable(s: string, resolve: string -> Option<string>)
    requires forall e | e in Expressions(s) :: SafeValue(resolve(e), resolve)
    ensures Stable(s, resolve)
    decreases |s|
  {
    ExpressionsStep(s);
    if Hole1(s).None? {
      OutStep(s, resolve);
    } else {
      var (i, j) := Hole1(s).value;
      SafeIsStable(s[j + 2..], resolve);
      StableBehindHole(s, resolve);
    }
  }

  lemma StableBehindHole(s: string, resolve: string -> Option<string>)
    requires Hole1(s).Some? && Stable(s[Hole1(s).value.1 + 2..], resolve)
    requires SafeValue(resolve(Strip(s[Hole1(s).value.0 + 2..Hole1(s).value.1])), resolve)
    ensures Stable(s, resolve)
  {
    hide Out, Clean, Strip, Closes;
    var (i, j) := Hole1(s).value;
    var p, inner, o := s[..i], s[i + 2..j], Out(s[j + 2..], resolve);
    var v := resolve(Strip(inner));
    LeadIsClean(s);
    InnerCloses(s);
    OutAtHole(s, resolve);
    var m := if v.Some? then v.value else "{{" + inner + "}}";
    ConcatAssociative(p, m, o);
    OutBehindClean(p, m + o, resolve);
    if v.Some? {
      OutBehindSafe(m, o, resolve);
    } else {
      UnresolvedStays(inner, o, resolve);
    }
  }

  lemma UnresolvedStays(inner: string, o: string, resolve: string -> Option<string>)
    requires Closes(inner) && resolve(Strip(inner)).None? && Out(o, resolve) == o
    ensures var z := "{{" + inner + "}}" + o; Out(z, resolve) == z
  {
    EmptyIsClean();
    SplitAtHole("", inner, o);
    assert "" + "{{" + inner + "}}" + o == "{{" + inner + "}}" + o;
    FillTwo(Text(""), Hole(inner), Split(o), resolve);
  }

  // ----- values that are not safe make templates that are not stable --------

  /** The expression `"q"` */
  function Quote(q: string): string { "\"" + q + "\"" }

  predicate PlainQuote(q: string) { '|' !in q && '"' !in q && '}' !in q && '{' !in q }

  lemma QuoteResolves(q: string, number: string -> Option<string>, lookup: string -> Option<string>)
    requires PlainQuote(q)
    ensures Resolver(number, lookup)(Strip(Quote(q))) == Some(q)
  {
    var e := Quote(q);
    QuoteValue(q, number, lookup);
    assert e[0] == '"' && e[|e| - 1] == '"';
    assert LStrip(e) == e && RStrip(e) == e;
    Text.SplitNoSeparator(e, '|');
    assert FirstValue([e], number, lookup) == ValueOf([e], 0, number, lookup);
  }

  lemma {:induction false} SplitLast(a: string, c: char, b: string)
    requires c !in b
    ensures Text.SplitOn(a + [c] + b, c) == Text.SplitOn(a, c) + [b]
  {
    var s := a + [c] + b;
    if a == "" {
      assert s[1..] == b;
      Text.SplitNoSeparator(b, c);
    } else {
      assert s[1..] == a[1..] + [c] + b;
      SplitLast(a[1..], c, b);
    }
  }

  lemma {:induction false} FirstValueAppend(ts: seq<string>, t: string, number: string -> Option<string>,
      lookup: string -> Option<string>)
    ensures var r := FirstValue(ts, number, lookup);
      FirstValue(ts + [t], number, lookup) == if r.Some? then r else ValueOf([t], 0, number, lookup)
  {
    if ts == [] {
      assert ts + [t] == [t] && [t][1..] == [];
    } else {
      FirstValueAppend(ts[1..], t, number, lookup);
      assert (ts + [t])[1..] == ts[1..] + [t];
    }
  }

  lemma {:induction false} StripFront(b: string, q: string)
    requires q != "" && !IsSpace(q[0]) && !IsSpace(q[|q| - 1])
    ensures Strip(b + q) == LStrip(b) + q
  {
    if b != "" && IsSpace(b[0]) {
      assert (b + q)[1..] == b[1..] + q;
      StripFront(b[1..], q);
    } else {
      assert LStrip(b + q) == b + q;
    }
  }

  /** With a quoted alternative at its end, any expression has a value: one of its own, or the quoted one. */
  lemma QuotedFallback(b: string, q: string, number: string -> Option<string>, lookup: string -> Option<string>)
    requires PlainQuote(q)
    ensures var r := FirstValue(Alternatives(LStrip(b)), number, lookup);
      Resolver(number, lookup)(Strip(b + "|" + Quote(q))) == if r.Some? then r else Some(q)
  {
    hide Quote, PlainQuote, LStrip, Strip, FirstValue, ValueOf;
    var t := "|" + Quote(q);
    QuoteEnds(q);
    assert b + "|" + Quote(q) == b + t;
    StripFront(b, t);
    SplitLast(LStrip(b), '|', Quote(q));
    assert LStrip(b) + t == LStrip(b) + ['|'] + Quote(q);
    FirstValueAppend(Alternatives(LStrip(b)), Quote(q), number, lookup);
    QuoteValue(q, number, lookup);
  }

  lemma QuoteEnds(q: string)
    requires PlainQuote(q)
    ensures var t := "|" + Quote(q); '|' !in Quote(q) && t != "" && !IsSpace(t[0]) && !IsSpace(t[|t| - 1])
  {
    var t := "|" + Quote(q);
    assert t[|t| - 1] == '"';
  }

  lemma QuoteValue(q: string, number: string -> Option<string>, lookup: string -> Option<string>)
    requires PlainQuote(q)
    ensures ValueOf([Quote(q)], 0, number, lookup) == Some(q)
  {
    var e := Quote(q);
    assert e[0] == '"' && e[|e| - 1] == '"' && e[1..|e| - 1] == q;
    assert LStrip(e) == e && RStrip(e) == e;
  }

  lemma {:induction false} LastTextHasNoHole(s: string)
    ensures Hole1(LastText(s)).None?
    decreases |s|
  {
    if Hole1(s).None? {
    } else {
      LastTextHasNoHole(s[Hole1(s).value.1 + 2..]);
    }
  }

  lemma NoOpeningNoHole(s: string)
    requires forall k :: !PairAt(s, '{', k)
    ensures Hole1(s).None?
  {
  }

  /** Behind clean text, a placeholder at the end becomes its value. */
  lemma ValueBehindClean(a: string, e: string, w: string, resolve: string -> Option<string>)
    requires Clean(a) && Closes(e) && resolve(Strip(e)) == Some(w)
    ensures Out(a + ("{{" + e + "}}"), resolve) == a + w
  {
    OutBehindClean(a, "{{" + e + "}}", resolve);
    NoOpeningNoHole("");
    OneHole(e, "", resolve);
    assert "{{" + e + "}}" + "" == "{{" + e + "}}" && w + "" == w;
  }

  /** The text `L`, its opening pair at `k`, and a quoted alternative that closes it. */
  lemma ClosedByQuote(l: string, k: nat, q: string)
    requires FindPair(l, '{', 0) == Some(k) && Hole1(l).None? && PlainQuote(q)
    ensures Closes(l[k + 2..] + "|" + Quote(q)) && Clean(l[..k])
    ensures var rest := "|" + Quote(q) + "}}";
      l + rest == l[..k] + ("{{" + (l[k + 2..] + "|" + Quote(q)) + "}}") && Hole1(rest).None?
  {
    var b, t := l[k + 2..], "|" + Quote(q);
    var rest := t + "}}";
    ClosesBehind(b, q) by {
      forall i
        ensures !PairAt(b, '}', i)
      {
        assert i >= 0 ==> !PairAt(l, '}', i + k + 2);
      }
    }
    PrefixIsClean(l, k);
    assert PairAt(l, '{', k) && l[k..k + 2] == "{{";
    assert l == l[..k] + l[k..k + 2] + b;
    Reassociate(l[..k], "{{", b, t, "}}");
    assert b + "|" + Quote(q) == b + t;
    forall i
      ensures !PairAt(rest, '{', i)
    {
    }
    NoOpeningNoHole(rest);
  }

  lemma Reassociate(a: string, o: string, b: string, t: string, c: string)
    ensures a + o + b + (t + c) == a + (o + (b + t) + c)
  {
  }

  lemma PrefixIsClean(l: string, k: nat)
    requires FindPair(l, '{', 0) == Some(k)
    ensures Clean(l[..k])
  {
    var a := l[..k];
    forall i
      ensures !PairAt(a, '{', i)
    {
      assert i < k ==> !PairAt(l, '{', i);
    }
    assert k > 0 ==> !PairAt(l, '{', k - 1);
  }

  lemma ClosesBehind(b: string, q: string)
    requires PlainQuote(q) && forall i :: !PairAt(b, '}', i)
    ensures Closes(b + "|" + Quote(q))
  {
    var e := b + "|" + Quote(q);
    var t := e + "}}";
    forall i | 0 <= i < |e|
      ensures !PairAt(t, '}', i)
    {
      if i + 1 < |b| {
        assert !PairAt(b, '}', i) && t[i] == b[i] && t[i + 1] == b[i + 1];
      } else if i + 1 == |b| {
        assert t[i + 1] == '|';
      } else {
        assert t[i] == ("|" + Quote(q))[i - |b|];
      }
    }
    assert PairAt(t, '}', |e|);
  }

  /** Text that is not clean and has no placeholder can be continued so that it has one with a value. */
  lemma Ending(l: string, number: string -> Option<string>, lookup: string -> Option<string>) returns (rest: string)
    requires !Clean(l) && Hole1(l).None?
    ensures Hole1(rest).None? && Out(l + rest, Resolver(number, lookup)) != l + rest
  {
    var opening := FindPair(l, '{', 0);
    if opening.Some? {
      rest := EndingAtPair(l, opening.value, number, lookup);
    } else {
      rest := EndingAtBrace(l, number, lookup);
    }
  }

  lemma EndingAtPair(l: string, k: nat, number: string -> Option<string>, lookup: string -> Option<string>)
    returns (rest: string)
    requires FindPair(l, '{', 0) == Some(k) && Hole1(l).None?
    ensures Hole1(rest).None? && Out(l + rest, Resolver(number, lookup)) != l + rest
  {
    hide Out, Closes, Clean, Hole1, FindPair, Strip, Quote;
    var a, b := l[..k], l[k + 2..];
    var r := FirstValue(Alternatives(LStrip(b)), number, lookup);
    var q := if r == Some("{{" + (b + "|" + Quote("")) + "}}") then "x" else "";
    QuotesDiffer(b);
    var w := if r.Some? then r.value else q;
    rest := "|" + Quote(q) + "}}";
    ClosedByQuote(l, k, q);
    QuotedFallback(b, q, number, lookup);
    var e := b + "|" + Quote(q);
    ValueBehindClean(a, e, w, Resolver(number, lookup));
    Cancel(a, w, "{{" + e + "}}");
  }

  lemma QuotesDiffer(b: string)
    ensures "{{" + (b + "|" + Quote("")) + "}}" != "{{" + (b + "|" + Quote("x")) + "}}"
    ensures forall q :: "{{" + (b + "|" + Quote(q)) + "}}" != q
  {
    assert |"{{" + (b + "|" + Quote("")) + "}}"| != |"{{" + (b + "|" + Quote("x")) + "}}"|;
    forall q
      ensures "{{" + (b + "|" + Quote(q)) + "}}" != q
    {
      assert |"{{" + (b + "|" + Quote(q)) + "}}"| > |q|;
    }
  }

  lemma Cancel(p: string, a: string, b: string)
    requires a != b
    ensures p + a != p + b
  {
    assert (p + a)[|p|..] == a && (p + b)[|p|..] == b;
  }

  lemma EndingAtBrace(l: string, number: string -> Option<string>, lookup: string -> Option<string>)
    returns (rest: string)
    requires !Clean(l) && FindPair(l, '{', 0).None?
    ensures Hole1(rest).None? && Out(l + rest, Resolver(number, lookup)) != l + rest
  {
    var a, e := l[..|l| - 1], Quote("x");
    rest := "{" + e + "}}";
    forall i
      ensures !PairAt(a, '{', i) && !PairAt(rest, '{', i)
    {
      assert !PairAt(l, '{', i);
    }
    assert !PairAt(l, '{', |l| - 2);
    NoOpeningNoHole(rest);
    assert l == a + "{" && l + rest == a + ("{{" + e + "}}");
    forall i | 0 <= i < |e|
      ensures !PairAt(e + "}}", '}', i)
    {
    }
    assert PairAt(e + "}}", '}', |e|);
    QuoteResolves("x", number, lookup);
    ValueBehindClean(a, e, "x", Resolver(number, lookup));
    Cancel(a, "x", "{{" + e + "}}");
  }

  /** What is behind a value that is not safe can make it change. */
  lemma UnsafeChanges(v: string, number: string -> Option<string>, lookup: string -> Option<string>)
    returns (rest: string)
    requires !Safe(v, Resolver(number, lookup))
    ensures Hole1(rest).None? && Out(v + rest, Resolver(number, lookup)) != v + rest
  {
    var resolve := Resolver(number, lookup);
    if Out(v, resolve) != v {
      rest := "";
      NoOpeningNoHole("");
      assert v + "" == v;
    } else {
      LastTextHasNoHole(v);
      var l := LastText(v);
      rest := Ending(l, number, lookup);
      var p := OutInFront(v, rest, resolve);
      Cancel(p, Out(l + rest, resolve), l + rest);
      ConcatAssociative(p, l, rest);
    }
  }

  lemma UnsafeBreaks(inner: string, number: string -> Option<string>, lookup: string -> Option<string>)
    returns (s: string)
    requires Closes(inner) && !SafeValue(Resolver(number, lookup)(Strip(inner)), Resolver(number, lookup))
    ensures Expressions(s) == [Strip(inner)] && !Stable(s, Resolver(number, lookup))
  {
    var resolve := Resolver(number, lookup);
    var rest := UnsafeChanges(resolve(Strip(inner)).value, number, lookup);
    OneHole(inner, rest, resolve);
    s := "{{" + inner + "}}" + rest;
  }

  // ----- exactly when rendering twice is rendering once ---------------------

  /**
   For the resolver of the renderer, whatever numbers and lookups yield: every template over
   some expressions renders stably exactly when every value of these expressions is safe.
   */
  lemma RendersStablyExactly(allowed: string -> bool, number: string -> Option<string>,
      lookup: string -> Option<string>)
    ensures var resolve := Resolver(number, lookup);
      (forall s | Uses(s, allowed) :: Stable(s, resolve)) <==>
      (forall inner | Closes(inner) && allowed(Strip(inner)) :: SafeValue(resolve(Strip(inner)), resolve))
  {
    hide Stable, SafeValue, Closes, Strip, Expressions;
    var resolve := Resolver(number, lookup);
    if forall inner | Closes(inner) && allowed(Strip(inner)) :: SafeValue(resolve(Strip(inner)), resolve) {
      forall s | Uses(s, allowed)
        ensures Stable(s, resolve)
      {
        ExpressionsClose(s);
        SafeIsStable(s, resolve);
      }
    } else {
      var inner :| Closes(inner) && allowed(Strip(inner)) && !SafeValue(resolve(Strip(inner)), resolve);
      var s := UnsafeBreaks(inner, number, lookup);
      assert Uses(s, allowed);
    }
  }

  /** In particular if no value has an opening pair of braces or a brace at its end. */
  lemma RenderIdempotent(template: Option<string>, number: string -> Option<string>, lookup: string -> Option<string>)
    requires template.Some? ==> forall e | e in Expressions(template.value) ::
      Resolver(number, lookup)(e).Some? ==> Clean(Resolver(number, lookup)(e).value)
    ensures var resolve := Resolver(number, lookup);
      var once := Render(template, resolve); Render(Some(once), resolve) == once
  {
    var resolve := Resolver(number, lookup);
    match template
    case None =>
      NoOpeningNoHole("");
      OutStep("", resolve);
    case Some(s) =>
      forall e | e in Expressions(s)
        ensures SafeValue(resolve(e), resolve)
      {
        if resolve(e).Some? { CleanIsSafe(resolve(e).value, resolve); }
      }
      SafeIsStable(s, resolve);
  }

  /** A template without any context whose second rendering differs: a quoted brace in front of a brace. */
  lemma RenderTwiceCanDiffer(number: string -> Option<string>, lookup: string -> Option<string>)
    ensures var resolve := Resolver(number, lookup);
      var once := "{{\"x\"}}";
      Render(Some("{{\"{\"}}{\"x\"}}"), resolve) == once && Render(Some(once), resolve) == "x"
  {
    hide Closes, Strip, Resolver, FindPair, Clean;
    var brace, rest := "\"{\"", "{\"x\"}}";
    BraceResolves(number, lookup);
    NoOpeningNoHole(rest);
    OneHole(brace, rest, Resolver(number, lookup));
    BraceSpelled();
    QuotedX(number, lookup);
  }

  lemma BraceSpelled()
    ensures "{{" + "\"{\"" + "}}" + "{\"x\"}}" == "{{\"{\"}}{\"x\"}}" && "{" + "{\"x\"}}" == "{{\"x\"}}"
  {
  }

  lemma BraceResolves(number: string -> Option<string>, lookup: string -> Option<string>)
    ensures var brace := "\"{\""; Closes(brace) && Resolver(number, lookup)(Strip(brace)) == Some("{")
  {
    var e := "\"{\"";
    assert !PairAt(e + "}}", '}', 0) && !PairAt(e + "}}", '}', 1) && !PairAt(e + "}}", '}', 2);
    assert PairAt(e + "}}", '}', 3);
    assert LStrip(e) == e && RStrip(e) == e;
    Text.SplitNoSeparator(e, '|');
    assert e[1..2] == "{" && FirstValue([e], number, lookup) == ValueOf([e], 0, number, lookup);
  }

  lemma QuotedX(number: string -> Option<string>, lookup: string -> Option<string>)
    ensures Render(Some("{{\"x\"}}"), Resolver(number, lookup)) == "x"
  {
    var e := Quote("x");
    assert !PairAt(e + "}}", '}', 0) && !PairAt(e + "}}", '}', 1) && !PairAt(e + "}}", '}', 2);
    assert PairAt(e + "}}", '}', 3);
    QuoteResolves("x", number, lookup);
    NoOpeningNoHole("");
    OneHole(e, "", Resolver(number, lookup));
    assert "{{" + e + "}}" + "" == "{{\"x\"}}" && "x" + "" == "x";
  }
}
