/**
 URL path patterns such as "/orders/{orderId}/items/{itemId}": how a pattern is
 compiled, how the compiled expression matches a path greedily with backtracking,
 and exactly when filling a pattern in and matching the result are inverse.
 */
module PathPattern {
  import opened Util

  /** A compiled pattern: literal characters and named groups `(?P<name>[^/]+)`. */
  datatype Token = Lit(c: char) | Param(name: string)

  predicate IsDigit(c: char) { '0' <= c <= '9' }

  /** The class `\w`, for ASCII. */
  predicate IsWord(c: char) { 'a' <= c <= 'z' || 'A' <= c <= 'Z' || IsDigit(c) || c == '_' }

  /** The length of the longest prefix of word characters. */
  function WordRun(s: string): (n: nat)
    ensures n <= |s|
  {
    if s == "" || !IsWord(s[0]) then 0 else 1 + WordRun(s[1..])
  }

  /** Every `{name}` becomes a group, every other character stands for itself. */
  function Tokens(pattern: string): seq<Token>
  {
    if pattern == "" then []
    else
      var n := WordRun(pattern[1..]);
      if pattern[0] == '{' && n > 0 && n + 1 < |pattern| && pattern[n + 1] == '}' then
        [Param(pattern[1..n + 1])] + Tokens(pattern[n + 2..])
      else
        [Lit(pattern[0])] + Tokens(pattern[1..])
  }

  function Names(ts: seq<Token>): seq<string> {
    if ts == [] then [] else (if ts[0].Param? then [ts[0].name] else []) + Names(ts[1..])
  }

  predicate Distinct(names: seq<string>) {
    forall i, j | 0 <= i < j < |names| :: names[i] != names[j]
  }

  /** `re.compile` refuses a group name that is used twice or starts with a digit. */
  function Compile(pattern: string): Option<seq<Token>> {
    var ts := Tokens(pattern);
    if Distinct(Names(ts)) && forall i | 0 <= i < |Names(ts)| :: Names(ts)[i] != "" && !IsDigit(Names(ts)[i][0])
    then Some(ts) else None
  }

  // ----- matching ----------------------------------------------------------

  /** The length of the longest slash-free prefix. */
  function Span(s: string): (n: nat)
    ensures n <= |s| && '/' !in s[..n]
    ensures n < |s| ==> s[n] == '/'
  {
    if s == "" || s[0] == '/' then 0
    else
      var n := Span(s[1..]);
      assert s[..n + 1] == [s[0]] + s[1..][..n];
      n + 1
  }

  /** `re.match` of `^...$`: `$` also matches just before a trailing newline. */
  function Match(ts: seq<Token>, s: string): Option<seq<string>>
    decreases |ts|, |s| + 1
  {
    if ts == [] then if s == "" || s == "\n" then Some([]) else None
    else match ts[0]
      case Lit(c) => if s != "" && s[0] == c then Match(ts[1..], s[1..]) else None
      case Param(_) => Longest(ts, s, Span(s))
  }

  /** Give the first group `k` characters, or as many fewer as the rest needs. */
  function Longest(ts: seq<Token>, s: string, k: nat): Option<seq<string>>
    requires ts != [] && k <= |s|
    decreases |ts|, k
  {
    if k == 0 then None
    else
      var rest := Match(ts[1..], s[k..]);
      if rest.Some? then Some([s[..k]] + rest.value) else Longest(ts, s, k - 1)
  }

  /** `m.groupdict()` */
  function Dict(ts: seq<Token>, vals: seq<string>): map<string, string> {
    if ts == [] then map[]
    else if ts[0].Param? && vals != [] then Dict(ts[1..], vals[1..])[ts[0].name := vals[0]]
    else Dict(ts[1..], vals)
  }

  /** `match_path` and `_extract_path_params`: the parameters of `path`, if it matches. */
  function Extract(pattern: string, path: string): Option<map<string, string>> {
    var ts := Compile(pattern);
    if ts.None? then None else
    var vals := Match(ts.value, path);
    if vals.None? then None else Some(Dict(ts.value, vals.value))
  }

  // ----- what a match means ------------------------------------------------

  /** What a parameter may stand for. */
  predicate Piece(v: string) { v != "" && '/' !in v }

  predicate Pieces(ts: seq<Token>, vals: seq<string>) {
    |vals| == |Names(ts)| && forall i | 0 <= i < |vals| :: Piece(vals[i])
  }

  /** The path that has `vals` for its parameters. */
  function Fill(ts: seq<Token>, vals: seq<string>): string
    requires |vals| == |Names(ts)|
  {
    if ts == [] then ""
    else match ts[0]
      case Lit(c) => [c] + Fill(ts[1..], vals)
      case Param(_) => vals[0] + Fill(ts[1..], vals[1..])
  }

  /** `vals` explains `s`, apart from one trailing newline. */
  predicate Binds(ts: seq<Token>, s: string, vals: seq<string>) {
    Pieces(ts, vals) && (Fill(ts, vals) == s || Fill(ts, vals) + "\n" == s)
  }

  /** At the first difference, `a` is the longer one. */
  predicate Greedier(a: seq<string>, b: seq<string>) {
    |a| == |b| && (a == [] || |a[0]| > |b[0]| || (a[0] == b[0] && Greedier(a[1..], b[1..])))
  }

  lemma {:induction false} GreedierRefl(a: seq<string>)
    ensures Greedier(a, a)
  {
    if a == [] {
    } else {
      GreedierRefl(a[1..]);
    }
  }

  lemma {:induction false} GreedierAntisymmetric(a: seq<string>, b: seq<string>)
    requires Greedier(a, b) && Greedier(b, a)
    ensures a == b
  {
    if a == [] {
    } else {
      GreedierAntisymmetric(a[1..], b[1..]);
    }
  }

  lemma {:induction false} MatchSound(ts: seq<Token>, s: string)
    ensures Match(ts, s).Some? ==> Binds(ts, s, Match(ts, s).value)
    decreases |ts|, |s| + 1
  {
    if ts == [] {
    } else {
      match ts[0]
      case Lit(c) => if s != "" { MatchSound(ts[1..], s[1..]); }
      case Param(_) => LongestSound(ts, s, Span(s));
    }
  }

  lemma {:induction false} LongestSound(ts: seq<Token>, s: string, k: nat)
    requires ts != [] && ts[0].Param? && k <= Span(s)
    ensures Longest(ts, s, k).Some? ==> Binds(ts, s, Longest(ts, s, k).value)
    decreases |ts|, k
  {
    if k == 0 {
    } else {
      MatchSound(ts[1..], s[k..]);
      var rest := Match(ts[1..], s[k..]);
      if rest.Some? {
        var vals := [s[..k]] + rest.value;
        assert vals[1..] == rest.value && s == s[..k] + s[k..];
        assert s[..k] == s[..Span(s)][..k];
      } else {
        LongestSound(ts, s, k - 1);
      }
    }
  }

  lemma {:induction false} SpanLongest(s: string, n: nat)
    requires n <= |s| && '/' !in s[..n]
    ensures n <= Span(s)
  {
    if n == 0 {
    } else {
      assert s[0] == s[..n][0] && s[1..][..n - 1] == s[..n][1..];
      SpanLongest(s[1..], n - 1);
    }
  }

  lemma FillNone(ts: seq<Token>, vals: seq<string>)
    requires ts == [] && |vals| == |Names(ts)|
    ensures Fill(ts, vals) == "" && vals == []
  {
  }

  lemma SplitOff(v: string, f: string, s: string)
    requires v + f == s || v + f + "\n" == s
    ensures |v| <= |s| && s[..|v|] == v && (s[|v|..] == f || s[|v|..] == f + "\n")
  {
    assert v + f + "\n" == v + (f + "\n");
  }

  lemma BindsLit(ts: seq<Token>, s: string, vals: seq<string>)
    requires Binds(ts, s, vals) && ts != [] && ts[0].Lit?
    ensures s != "" && s[0] == ts[0].c && Binds(ts[1..], s[1..], vals)
  {
    var c, f := [ts[0].c], Fill(ts[1..], vals);
    assert Fill(ts, vals) == c + f;
    hide Fill;
    SplitOff(c, f, s);
    assert s[..1][0] == s[0];
  }

  lemma BindsParam(ts: seq<Token>, s: string, vals: seq<string>)
    requires Binds(ts, s, vals) && ts != [] && ts[0].Param?
    ensures vals != [] && 0 < |vals[0]| <= Span(s) && s[..|vals[0]|] == vals[0]
    ensures Binds(ts[1..], s[|vals[0]|..], vals[1..])
  {
    var f := Fill(ts[1..], vals[1..]);
    assert Fill(ts, vals) == vals[0] + f;
    hide Fill;
    SplitOff(vals[0], f, s);
    SpanLongest(s, |vals[0]|);
  }

  lemma {:induction false} MatchComplete(ts: seq<Token>, s: string, vals: seq<string>)
    requires Binds(ts, s, vals)
    ensures Match(ts, s).Some? && Greedier(Match(ts, s).value, vals)
    decreases |ts|, |s| + 1
  {
    hide Fill, Longest;
    if ts == [] {
      FillNone(ts, vals);
    } else if ts[0].Lit? {
      BindsLit(ts, s, vals);
      MatchComplete(ts[1..], s[1..], vals);
    } else {
      BindsParam(ts, s, vals);
      MatchComplete(ts[1..], s[|vals[0]|..], vals[1..]);
      LongestComplete(ts, s, Span(s), vals);
    }
  }

  lemma {:induction false} LongestComplete(ts: seq<Token>, s: string, k: nat, vals: seq<string>)
    requires ts != [] && ts[0].Param? && |vals| == |Names(ts)|
    requires 0 < |vals[0]| <= k <= |s| && s[..|vals[0]|] == vals[0]
    requires var r := Match(ts[1..], s[|vals[0]|..]); r.Some? && Greedier(r.value, vals[1..])
    ensures Longest(ts, s, k).Some? && Greedier(Longest(ts, s, k).value, vals)
    decreases k
  {
    var rest := Match(ts[1..], s[k..]);
    if rest.None? {
      LongestComplete(ts, s, k - 1, vals);
    } else {
      MatchSound(ts[1..], s[k..]);
      var r := [s[..k]] + rest.value;
      assert Longest(ts, s, k) == Some(r) && r[1..] == rest.value;
      if k == |vals[0]| {
        assert r[0] == vals[0];
      } else {
        assert |r[0]| > |vals[0]|;
      }
    }
  }

  /**
   A path matches exactly when non-empty slash-free pieces for the parameters rebuild it
   (up to one trailing newline), and of all such pieces the match returns the greediest.
   */
  lemma MatchIsGreediest(ts: seq<Token>, s: string)
    ensures Match(ts, s).Some? <==> exists vals :: Binds(ts, s, vals)
    ensures Match(ts, s).Some? ==> Binds(ts, s, Match(ts, s).value)
    ensures forall vals | Binds(ts, s, vals) :: Greedier(Match(ts, s).value, vals)
  {
    MatchSound(ts, s);
    forall vals | Binds(ts, s, vals)
      ensures Match(ts, s).Some? && Greedier(Match(ts, s).value, vals)
    {
      MatchComplete(ts, s, vals);
    }
  }

  // ----- substituting back -------------------------------------------------

  /** Replace every parameter by its entry in the dictionary. */
  function Substitute(ts: seq<Token>, d: map<string, string>): string
    requires forall i | 0 <= i < |Names(ts)| :: Names(ts)[i] in d
  {
    if ts == [] then ""
    else match ts[0]
      case Lit(c) => assert Names(ts) == Names(ts[1..]); [c] + Substitute(ts[1..], d)
      case Param(n) =>
        assert Names(ts)[0] == n && Names(ts)[1..] == Names(ts[1..]);
        d[n] + Substitute(ts[1..], d)
  }

  lemma NamesStep(ts: seq<Token>)
    requires ts != []
    ensures ts[0].Lit? ==> Names(ts) == Names(ts[1..])
    ensures ts[0].Param? ==> Names(ts) != [] && Names(ts)[0] == ts[0].name && Names(ts)[1..] == Names(ts[1..])
  {
  }

  /** The dictionary gives every parameter its own piece. */
  predicate Assigns(ts: seq<Token>, vals: seq<string>, d: map<string, string>) {
    |vals| == |Names(ts)| && forall i | 0 <= i < |vals| :: Names(ts)[i] in d && d[Names(ts)[i]] == vals[i]
  }

  lemma {:induction false} DictKeepsPieces(ts: seq<Token>, vals: seq<string>, d: map<string, string>)
    requires Assigns(ts, vals, d)
    ensures Substitute(ts, d) == Fill(ts, vals)
  {
    if ts == [] {
    } else {
      NamesStep(ts);
      if ts[0].Lit? {
        DictKeepsPieces(ts[1..], vals, d);
      } else {
        forall i | 0 <= i < |vals[1..]|
          ensures Names(ts[1..])[i] in d && d[Names(ts[1..])[i]] == vals[1..][i]
        {
          assert Names(ts[1..])[i] == Names(ts)[i + 1];
        }
        DictKeepsPieces(ts[1..], vals[1..], d);
        assert d[Names(ts)[0]] == vals[0];
      }
    }
  }

  lemma {:induction false} DictEntries(ts: seq<Token>, vals: seq<string>)
    requires |vals| == |Names(ts)| && Distinct(Names(ts))
    ensures Assigns(ts, vals, Dict(ts, vals)) && forall n :: n in Dict(ts, vals) <==> n in Names(ts)
  {
    if ts == [] {
    } else {
      NamesStep(ts);
      if ts[0].Lit? {
        DictEntries(ts[1..], vals);
      } else {
        assert forall i | 0 <= i < |Names(ts[1..])| :: Names(ts[1..])[i] == Names(ts)[i + 1];
        DictEntries(ts[1..], vals[1..]);
        forall i | 0 <= i < |vals|
          ensures Names(ts)[i] in Dict(ts, vals) && Dict(ts, vals)[Names(ts)[i]] == vals[i]
        {
          if i > 0 {
            assert Names(ts)[i] == Names(ts[1..])[i - 1] && vals[i] == vals[1..][i - 1];
            assert Names(ts)[0] != Names(ts)[i];
          }
        }
      }
    }
  }

  /** Substituting the extracted parameters back rebuilds the path (up to one trailing newline). */
  lemma SubstituteBack(pattern: string, path: string)
    requires Extract(pattern, path).Some?
    ensures var ts, d := Tokens(pattern), Extract(pattern, path).value;
      && (forall n :: n in d <==> n in Names(ts)) && (forall n | n in d :: Piece(d[n]))
      && (Substitute(ts, d) == path || Substitute(ts, d) + "\n" == path)
  {
    var ts := Tokens(pattern);
    MatchSound(ts, path);
    DictEntries(ts, Match(ts, path).value);
    DictKeepsPieces(ts, Match(ts, path).value, Extract(pattern, path).value);
  }

  // ----- compiling loses nothing -------------------------------------------

  function Show(ts: seq<Token>): string {
    if ts == [] then ""
    else (match ts[0] case Lit(c) => [c] case Param(n) => "{" + n + "}") + Show(ts[1..])
  }

  lemma SplitAtBraces(pattern: string, n: nat)
    requires n + 1 < |pattern| && pattern[0] == '{' && pattern[n + 1] == '}'
    ensures ("{" + pattern[1..n + 1] + "}") + pattern[n + 2..] == pattern
  {
    var open, name, close := pattern[..1], pattern[1..n + 1], pattern[n + 1..n + 2];
    assert open + name == pattern[..n + 1];
    assert open + name + close == pattern[..n + 2];
  }

  /** The tokens of a pattern spell the pattern. */
  lemma {:induction false} TokensSpellPattern(pattern: string)
    ensures Show(Tokens(pattern)) == pattern
    decreases |pattern|
  {
    if pattern != "" {
      var n := WordRun(pattern[1..]);
      var ts := Tokens(pattern);
      if pattern[0] == '{' && n > 0 && n + 1 < |pattern| && pattern[n + 1] == '}' {
        assert ts[1..] == Tokens(pattern[n + 2..]);
        TokensSpellPattern(pattern[n + 2..]);
        SplitAtBraces(pattern, n);
      } else {
        assert ts[1..] == Tokens(pattern[1..]);
        TokensSpellPattern(pattern[1..]);
        assert pattern == [pattern[0]] + pattern[1..];
      }
    }
  }

  // ----- when filling and matching are inverse -----------------------------

  /** No two parameters share a path segment; `used` says that the current segment has one. */
  predicate Separate(ts: seq<Token>, used: bool) {
    ts == [] ||
    match ts[0]
      case Lit(c) => Separate(ts[1..], used && c != '/')
      case Param(_) => !used && Separate(ts[1..], true)
  }

  lemma FirstSlash(x: string, y: string, f: string, g: string)
    requires '/' !in x && '/' !in y && x + "/" + f == y + "/" + g
    ensures x == y && f == g
  {
    var s := x + "/" + f;
    assert s[|x|] == '/' && s[|y|] == '/';
    assert s[..|x|] == x && s[..|y|] == y;
    assert s[|x| + 1..] == f && s[|y| + 1..] == g;
  }

  /** The first token joins what is in front of it. */
  lemma FillBehind(x: string, ts: seq<Token>, a: seq<string>)
    requires ts != [] && |a| == |Names(ts)|
    ensures ts[0].Lit? ==> x + Fill(ts, a) == x + [ts[0].c] + Fill(ts[1..], a)
    ensures ts[0].Param? ==> x + Fill(ts, a) == x + a[0] + Fill(ts[1..], a[1..])
  {
  }

  /**
   Two ways to explain one path, segment by segment: `x` and `y` are what they have put
   into the current segment so far, `nl` is a newline that only the second one explains.
   */
  lemma {:induction false} SegmentsAgree(ts: seq<Token>, used: bool, x: string, y: string, a: seq<string>,
      b: seq<string>, nl: string)
    requires Separate(ts, used) && Pieces(ts, a) && Pieces(ts, b) && '/' !in x && '/' !in y
    requires x + Fill(ts, a) + nl == y + Fill(ts, b) && (nl == "" || nl == "\n")
    requires !used ==> x == y
    requires nl == "" || |x| > |y| || (|x| == |y| && Greedier(a, b))
    ensures nl == "" && x == y && a == b
    decreases ts
  {
    hide Fill;
    if ts == [] {
      FillNone(ts, a);
      assert x + "" + nl == x + nl && y + "" == y;
    } else if ts[0] == Lit('/') {
      var f, g := Fill(ts[1..], a), Fill(ts[1..], b);
      FillBehind(x, ts, a);
      FillBehind(y, ts, b);
      ConcatAssociative(x + "/", f, nl);
      FirstSlash(x, y, f + nl, g);
      assert "" + f + nl == f + nl && "" + g == g;
      SegmentsAgree(ts[1..], false, "", "", a, b, nl);
    } else if ts[0].Lit? {
      var c := [ts[0].c];
      FillBehind(x, ts, a);
      FillBehind(y, ts, b);
      SegmentsAgree(ts[1..], used, x + c, y + c, a, b, nl);
      assert (x + c)[..|x|] == x && (y + c)[..|y|] == y;
    } else {
      FillBehind(x, ts, a);
      FillBehind(y, ts, b);
      SegmentsAgree(ts[1..], true, x + a[0], y + b[0], a[1..], b[1..], nl);
      assert (x + a[0])[|x|..] == a[0] && (y + b[0])[|y|..] == b[0];
      assert a == [a[0]] + a[1..] && b == [b[0]] + b[1..];
    }
  }

  /** If no two parameters share a segment, the binding of a path without a newline at its end is unique. */
  lemma BindingUnique(ts: seq<Token>, s: string, a: seq<string>, b: seq<string>)
    requires Separate(ts, false) && Pieces(ts, a) && Pieces(ts, b) && Fill(ts, a) == s && Fill(ts, b) == s
    ensures a == b
  {
    SegmentsAgree(ts, false, "", "", a, b, "");
  }

  lemma BuildThenMatch(ts: seq<Token>, vals: seq<string>)
    requires Separate(ts, false) && Pieces(ts, vals)
    ensures Match(ts, Fill(ts, vals)) == Some(vals)
  {
    var s := Fill(ts, vals);
    MatchComplete(ts, s, vals);
    MatchSound(ts, s);
    var r := Match(ts, s).value;
    if Fill(ts, r) == s {
      SegmentsAgree(ts, false, "", "", r, vals, "");
    } else {
      SegmentsAgree(ts, false, "", "", r, vals, "\n");
    }
  }

  /** Literal characters up to the next parameter of the same segment, if there is one. */
  function Gap(ts: seq<Token>): Option<nat> {
    if ts == [] || ts[0] == Lit('/') then None
    else if ts[0].Param? then Some(0)
    else var g := Gap(ts[1..]); if g.None? then None else Some(g.value + 1)
  }

  lemma {:induction false} NoGapNoConflict(ts: seq<Token>)
    requires Gap(ts).None? && !Separate(ts, true)
    ensures !Separate(ts, false)
  {
    if ts[0] != Lit('/') { NoGapNoConflict(ts[1..]); }
  }

  /** Some pieces for any tokens. */
  function Filler(ts: seq<Token>): (vals: seq<string>)
    ensures Pieces(ts, vals)
  {
    if ts == [] then [] else (if ts[0].Param? then ["c"] else []) + Filler(ts[1..])
  }

  function Lead(ts: seq<Token>): (w: string)
    requires Gap(ts).Some?
    ensures '/' !in w
  {
    if ts[0].Param? then "" else [ts[0].c] + Lead(ts[1..])
  }

  lemma PutInFront(c: string, lead: string, v: string, rest: string)
    ensures c + (lead + v + rest) == c + lead + v + rest
  {
    ConcatAssociative(c, lead + v, rest);
    ConcatAssociative(c, lead, v);
  }

  /** With another parameter in the same segment, its value stands between two fixed texts. */
  lemma {:induction false} FillAroundNext(ts: seq<Token>, v: string, post: seq<string>)
    requires Gap(ts).Some? && Names(ts) != [] && |post| == |Names(ts)| - 1
    ensures Gap(ts).value < |ts| && |Names(ts[Gap(ts).value + 1..])| == |post|
    ensures Fill(ts, [v] + post) == Lead(ts) + v + Fill(ts[Gap(ts).value + 1..], post)
  {
    if ts[0].Param? {
      assert ([v] + post)[1..] == post;
    } else {
      FillAroundNext(ts[1..], v, post);
      var after := ts[1..][Gap(ts[1..]).value + 1..];
      assert ts[Gap(ts).value + 1..] == after;
      PutInFront([ts[0].c], Lead(ts[1..]), v, Fill(after, post));
    }
  }

  lemma {:induction false} GapHasName(ts: seq<Token>)
    requires Gap(ts).Some?
    ensures Names(ts) != []
  {
    if ts[0].Lit? { GapHasName(ts[1..]); }
  }

  lemma Regroup(w: string, f: string)
    ensures "c" + (w + ("c" + w + "c") + f) == ("c" + w + "c") + (w + "c" + f)
  {
  }

  lemma PiecesCons(ts: seq<Token>, v: string, vals: seq<string>)
    requires ts != [] && ts[0].Param? && Piece(v) && Pieces(ts[1..], vals)
    ensures Pieces(ts, [v] + vals) && ([v] + vals)[1..] == vals && Fill(ts, [v] + vals) == v + Fill(ts[1..], vals)
  {
    NamesStep(ts);
  }

  /** A parameter and the next one of its segment: text can move from one to the other. */
  lemma Twins(ts: seq<Token>) returns (a: seq<string>, b: seq<string>)
    requires ts != [] && ts[0].Param? && Gap(ts[1..]).Some?
    ensures Pieces(ts, a) && Pieces(ts, b) && Fill(ts, a) == Fill(ts, b) && a != b && Greedier(b, a)
  {
    var rest := ts[1..];
    GapHasName(rest);
    var w, post := Lead(rest), Filler(rest)[1..];
    var cwc := "c" + w + "c";
    FillAroundNext(rest, cwc, post);
    FillAroundNext(rest, "c", post);
    var f := Fill(rest[Gap(rest).value + 1..], post);
    PiecesCons(ts, "c", [cwc] + post);
    PiecesCons(ts, cwc, ["c"] + post);
    Regroup(w, f);
    a, b := ["c"] + ([cwc] + post), [cwc] + (["c"] + post);
    assert |b[0]| > |a[0]|;
  }

  /** If two parameters share a segment, some path has two bindings, `b` greedier than `a`. */
  lemma {:induction false} Ambiguous(ts: seq<Token>) returns (a: seq<string>, b: seq<string>)
    requires !Separate(ts, false)
    ensures Pieces(ts, a) && Pieces(ts, b) && Fill(ts, a) == Fill(ts, b) && a != b && Greedier(b, a)
  {
    NamesStep(ts);
    if ts[0].Lit? {
      a, b := Ambiguous(ts[1..]);
    } else if Gap(ts[1..]).None? {
      NoGapNoConflict(ts[1..]);
      var a', b' := Ambiguous(ts[1..]);
      a, b := ["c"] + a', ["c"] + b';
      assert a[1..] == a' && b[1..] == b';
    } else {
      a, b := Twins(ts);
    }
  }

  /**
   Filling a pattern in and matching the result gives the values back, whatever they are,
   exactly when no two parameters share a segment.
   */
  lemma RoundTripExactly(ts: seq<Token>)
    ensures (forall vals | Pieces(ts, vals) :: Match(ts, Fill(ts, vals)) == Some(vals)) <==> Separate(ts, false)
  {
    if Separate(ts, false) {
      forall vals | Pieces(ts, vals)
        ensures Match(ts, Fill(ts, vals)) == Some(vals)
      {
        BuildThenMatch(ts, vals);
      }
    } else {
      var a, b := Ambiguous(ts);
      MatchComplete(ts, Fill(ts, a), b);
      if Match(ts, Fill(ts, a)) == Some(a) {
        GreedierAntisymmetric(a, b);
      }
    }
  }

  /** No name twice, and none that starts with a digit. */
  predicate Regular(names: seq<string>) {
    Distinct(names) && forall i | 0 <= i < |names| :: names[i] != "" && !('0' <= names[i][0] <= '9')
  }

  /** For a pattern whose parameters are in segments of their own: build a path, get the values back by name. */
  lemma BuildThenExtract(pattern: string, vals: seq<string>)
    requires Regular(Names(Tokens(pattern))) && Separate(Tokens(pattern), false) && Pieces(Tokens(pattern), vals)
    ensures var r := Extract(pattern, Fill(Tokens(pattern), vals));
      r.Some? && Assigns(Tokens(pattern), vals, r.value) && forall n :: n in r.value <==> n in Names(Tokens(pattern))
  {
    BuildThenMatch(Tokens(pattern), vals);
    DictEntries(Tokens(pattern), vals);
  }

  /** A pattern matches no path at all exactly if it uses a name twice or has one that starts with a digit. */
  lemma MatchesNothingExactly(pattern: string)
    ensures (forall path :: Extract(pattern, path).None?) <==> !Regular(Names(Tokens(pattern)))
  {
    if Regular(Names(Tokens(pattern))) {
      var ts := Tokens(pattern);
      var path := Fill(ts, Filler(ts));
      MatchComplete(ts, path, Filler(ts));
      assert Extract(pattern, path).Some?;
    }
  }
}
