/**
 Message templates: the one-pass scanner for `{{ ... }}` placeholders with fallbacks.
 */
module Templater {
  import opened Util
  import Text

  // ----- the scanner -------------------------------------------------------

  /** Two characters `c` stand at position `i`. */
  predicate PairAt(s: string, c: char, i: int) {
    0 <= i && i + 2 <= |s| && s[i] == c && s[i + 1] == c
  }

  /** The first pair of characters `c` at or after `from`; None if there is none. */
  function FindPair(s: string, c: char, from: nat): (r: Option<nat>)
    requires from <= |s|
    ensures r.Some? ==> from <= r.value && PairAt(s, c, r.value)
    ensures forall i | from <= i && (r.Some? ==> i < r.value) :: !PairAt(s, c, i)
    decreases |s| - from
  {
    if from + 2 > |s| then None
    else if PairAt(s, c, from) then Some(from)
    else FindPair(s, c, from + 1)
  }

  predicate IsSpace(c: char) { c == ' ' || '\t' <= c <= '\r' || '\U{1C}' <= c <= '\U{1F}' }

  function LStrip(s: string): string {
    if s != "" && IsSpace(s[0]) then LStrip(s[1..]) else s
  }

  function RStrip(s: string): string {
    if s != "" && IsSpace(s[|s| - 1]) then RStrip(s[..|s| - 1]) else s
  }

  function Strip(s: string): string { RStrip(LStrip(s)) }

  /** A template is literal text and placeholders; the text of a placeholder excludes its braces. */
  datatype Piece = Text(s: string) | Hole(inner: string)

  /** The matches of PLACEHOLDER_PATTERN, from left to right, and the text around them. */
  function Split(s: string): seq<Piece>
    decreases |s|
  {
    var start := FindPair(s, '{', 0);
    if start.None? then [Text(s)]
    else
      var end := FindPair(s, '}', start.value + 2);
      if end.None? then [Text(s)]
      else
        [Text(s[..start.value]), Hole(s[start.value + 2..end.value])] + Split(s[end.value + 2..])
  }

  function Spell(p: Piece): string {
    match p case Text(s) => s case Hole(inner) => "{{" + inner + "}}"
  }

  function SpellAll(ps: seq<Piece>): string {
    if ps == [] then "" else Spell(ps[0]) + SpellAll(ps[1..])
  }

  /** The text of a piece after rendering; unresolved placeholders stay as they are. */
  function Fill(p: Piece, resolve: string -> Option<string>): string {
    match p
    case Text(s) => s
    case Hole(inner) =>
      var v := resolve(Strip(inner));
      if v.None? then Spell(p) else v.value
  }

  function FillAll(ps: seq<Piece>, resolve: string -> Option<string>): string {
    if ps == [] then "" else Fill(ps[0], resolve) + FillAll(ps[1..], resolve)
  }

  /** `TemplateRenderer.render`: `None` renders as the empty string. */
  function Render(template: Option<string>, resolve: string -> Option<string>): string {
    match template
    case None => ""
    case Some(s) => FillAll(Split(s), resolve)
  }

  /** The first placeholder of a template, if it has one: where it opens and where it closes. */
  function Hole1(s: string): (r: Option<(nat, nat)>)
    ensures r.Some? ==> r.value.0 + 2 <= r.value.1 && PairAt(s, '{', r.value.0) && PairAt(s, '}', r.value.1)
    ensures r.Some? ==> FindPair(s, '}', r.value.0 + 2) == Some(r.value.1)
  {
    var start := FindPair(s, '{', 0);
    if start.None? then None
    else
      var end := FindPair(s, '}', start.value + 2);
      if end.None? then None else Some((start.value, end.value))
  }

  lemma SplitStep(s: string)
    ensures Hole1(s).None? ==> Split(s) == [Text(s)]
    ensures Hole1(s).Some? ==>
      var (i, j) := Hole1(s).value; Split(s) == [Text(s[..i]), Hole(s[i + 2..j])] + Split(s[j + 2..])
  {
  }

  lemma SpellCons(a: Piece, ps: seq<Piece>)
    ensures SpellAll([a] + ps) == Spell(a) + SpellAll(ps)
  {
    assert ([a] + ps)[1..] == ps;
  }

  lemma SpellTwo(a: Piece, b: Piece, ps: seq<Piece>)
    ensures SpellAll([a, b] + ps) == Spell(a) + Spell(b) + SpellAll(ps)
  {
    assert [a, b] + ps == [a] + ([b] + ps);
    SpellCons(a, [b] + ps);
    SpellCons(b, ps);
    ConcatAssociative(Spell(a), Spell(b), SpellAll(ps));
  }

  lemma FillCons(a: Piece, ps: seq<Piece>, resolve: string -> Option<string>)
    ensures FillAll([a] + ps, resolve) == Fill(a, resolve) + FillAll(ps, resolve)
  {
    assert ([a] + ps)[1..] == ps;
  }

  lemma FillTwo(a: Piece, b: Piece, ps: seq<Piece>, resolve: string -> Option<string>)
    ensures FillAll([a, b] + ps, resolve) == Fill(a, resolve) + Fill(b, resolve) + FillAll(ps, resolve)
  {
    assert [a, b] + ps == [a] + ([b] + ps);
    FillCons(a, [b] + ps, resolve);
    FillCons(b, ps, resolve);
    ConcatAssociative(Fill(a, resolve), Fill(b, resolve), FillAll(ps, resolve));
  }

  lemma FillOne(a: Piece, resolve: string -> Option<string>)
    ensures FillAll([a], resolve) == Fill(a, resolve) && SpellAll([a]) == Spell(a)
  {
    assert [a][1..] == [];
  }

  /** Where the parts of a text with a placeholder are. */
  lemma Layout(x: string, inner: string, rest: string)
    ensures var s := x + "{{" + inner + "}}" + rest; var i, j := |x|, |x| + 2 + |inner|;
      && |s| == j + 2 + |rest|
      && s[..i] == x && s[i + 2..j] == inner && s[j + 2..] == rest && s[i + 2..j + 2] == inner + "}}"
      && PairAt(s, '{', i) && PairAt(s, '}', j)
  {
  }

  lemma Reassemble(s: string, i: nat, j: nat)
    requires i + 2 <= j && PairAt(s, '{', i) && PairAt(s, '}', j)
    ensures s == s[..i] + ("{{" + s[i + 2..j] + "}}") + s[j + 2..]
  {
    assert s[i..i + 2] == "{{" && s[j..j + 2] == "}}";
    assert s[i..j + 2] == s[i..i + 2] + s[i + 2..j] + s[j..j + 2];
  }

  /** Splitting into literals and placeholders loses no character. */
  lemma {:induction false} SplitLosesNothing(s: string)
    ensures SpellAll(Split(s)) == s
    decreases |s|
  {
    SplitStep(s);
    if Hole1(s).None? {
      FillOne(Text(s), _ => None);
    } else {
      var (i, j) := Hole1(s).value;
      SplitLosesNothing(s[j + 2..]);
      SpellTwo(Text(s[..i]), Hole(s[i + 2..j]), Split(s[j + 2..]));
      Reassemble(s, i, j);
    }
  }

  // ----- where placeholders are found --------------------------------------

  /** Text that neither contains nor can begin an opening pair of braces. */
  ghost predicate Clean(x: string) {
    (forall i :: !PairAt(x, '{', i)) && (x == "" || x[|x| - 1] != '{')
  }

  lemma EmptyIsClean()
    ensures Clean("")
  {
  }

  lemma CleanConcat(x: string, y: string)
    requires Clean(x) && Clean(y)
    ensures Clean(x + y)
  {
    forall i
      ensures !PairAt(x + y, '{', i)
    {
      assert !PairAt(x, '{', i) && !PairAt(y, '{', i - |x|);
    }
  }

  /** Behind clean text, a placeholder is found where it starts. */
  lemma HoleAfterClean(s: string, i: nat, j: nat)
    requires i + 2 <= j && PairAt(s, '{', i) && PairAt(s, '}', j)
    requires Clean(s[..i]) && FindPair(s[i + 2..j + 2], '}', 0) == Some(j - (i + 2))
    ensures Hole1(s) == Some((i, j))
  {
    forall k | 0 <= k < i
      ensures !PairAt(s, '{', k)
    {
      assert !PairAt(s[..i], '{', k) && s[..i][k] == s[k];
    }
    assert FindPair(s, '{', 0) == Some(i);
    forall k | i + 2 <= k < j
      ensures !PairAt(s, '}', k)
    {
      assert !PairAt(s[i + 2..j + 2], '}', k - (i + 2));
    }
  }

  /** The text in front of the first placeholder is clean. */
  lemma LeadIsClean(s: string)
    requires Hole1(s).Some?
    ensures Clean(s[..Hole1(s).value.0])
  {
    var i := Hole1(s).value.0;
    forall k
      ensures !PairAt(s[..i], '{', k)
    {
      assert k < i ==> !PairAt(s, '{', k);
    }
    assert i > 0 ==> !PairAt(s, '{', i - 1);
  }

  lemma SplitAtHole(x: string, inner: string, rest: string)
    requires Clean(x) && Closes(inner)
    ensures Split(x + "{{" + inner + "}}" + rest) == [Text(x), Hole(inner)] + Split(rest)
  {
    Layout(x, inner, rest);
    HoleAfterClean(x + "{{" + inner + "}}" + rest, |x|, |x| + 2 + |inner|);
    SplitStep(x + "{{" + inner + "}}" + rest);
  }

  /** Clean text in front of text without placeholders brings no placeholder about. */
  lemma NoHoleAfterClean(x: string, s: string)
    requires Clean(x) && Hole1(s).None?
    ensures Hole1(x + s).None?
  {
    var z := x + s;
    var start := FindPair(z, '{', 0);
    if start.Some? {
      var i := start.value;
      assert !PairAt(x, '{', i) && i >= |x|;
      assert PairAt(s, '{', i - |x|);
      forall k | 0 <= k < i - |x|
        ensures !PairAt(s, '{', k)
      {
        assert !PairAt(z, '{', k + |x|) && z[k + |x|] == s[k];
      }
      assert FindPair(s, '{', 0) == Some(i - |x|);
      forall k | i + 2 <= k
        ensures !PairAt(z, '}', k)
      {
        assert !PairAt(s, '}', k - |x|);
      }
    }
  }

  lemma InnerEndsAtPair(s: string, i: nat, j: nat)
    requires i + 2 <= |s| && FindPair(s, '}', i + 2) == Some(j)
    ensures FindPair(s[i + 2..j] + "}}", '}', 0) == Some(|s[i + 2..j]|)
  {
    var t := s[i + 2..j] + "}}";
    assert t == s[i + 2..j + 2];
    forall k | 0 <= k < j - (i + 2)
      ensures !PairAt(t, '}', k)
    {
      assert !PairAt(s, '}', i + 2 + k) && t[k] == s[i + 2 + k] && t[k + 1] == s[i + 3 + k];
    }
    assert PairAt(t, '}', j - (i + 2));
  }

  // ----- what a template asks for ------------------------------------------

  function Out(s: string, resolve: string -> Option<string>): string {
    FillAll(Split(s), resolve)
  }

  lemma OutStep(s: string, resolve: string -> Option<string>)
    ensures Hole1(s).None? ==> Out(s, resolve) == s
    ensures Hole1(s).Some? ==>
      var (i, j) := Hole1(s).value;
      Out(s, resolve) == s[..i] + Fill(Hole(s[i + 2..j]), resolve) + Out(s[j + 2..], resolve)
  {
    SplitStep(s);
    if Hole1(s).None? {
      FillOne(Text(s), resolve);
    } else {
      var (i, j) := Hole1(s).value;
      FillTwo(Text(s[..i]), Hole(s[i + 2..j]), Split(s[j + 2..]), resolve);
    }
  }

  /** The expressions of all placeholders, from left to right. */
  function ExpressionsOf(ps: seq<Piece>): seq<string> {
    if ps == [] then []
    else if ps[0].Hole? then [Strip(ps[0].inner)] + ExpressionsOf(ps[1..])
    else ExpressionsOf(ps[1..])
  }

  function Expressions(s: string): seq<string> { ExpressionsOf(Split(s)) }

  /** The template asks only for allowed expressions. */
  predicate Uses(s: string, allowed: string -> bool) {
    forall e | e in Expressions(s) :: allowed(e)
  }

  lemma ExpressionsTwo(x: string, inner: string, ps: seq<Piece>)
    ensures ExpressionsOf([Text(x), Hole(inner)] + ps) == [Strip(inner)] + ExpressionsOf(ps)
    ensures ExpressionsOf([Text(x)]) == []
  {
    var a: Piece, b: Piece := Text(x), Hole(inner);
    assert ([a, b] + ps)[1..] == [b] + ps && ([b] + ps)[1..] == ps;
    assert [a][1..] == [];
  }

  lemma ExpressionsStep(s: string)
    ensures Hole1(s).None? ==> Expressions(s) == []
    ensures Hole1(s).Some? ==>
      var (i, j) := Hole1(s).value; Expressions(s) == [Strip(s[i + 2..j])] + Expressions(s[j + 2..])
  {
    SplitStep(s);
    if Hole1(s).None? {
      ExpressionsTwo(s, "", []);
    } else {
      var (i, j) := Hole1(s).value;
      ExpressionsTwo(s[..i], s[i + 2..j], Split(s[j + 2..]));
    }
  }

  /** This text, put between braces, is one placeholder. */
  predicate Closes(inner: string) {
    FindPair(inner + "}}", '}', 0) == Some(|inner|)
  }

  lemma InnerCloses(s: string)
    requires Hole1(s).Some?
    ensures var (i, j) := Hole1(s).value; Closes(s[i + 2..j])
  {
    var (i, j) := Hole1(s).value;
    InnerEndsAtPair(s, i, j);
  }

  lemma SplitOneHole(inner: string, rest: string)
    requires Closes(inner) && Hole1(rest).None?
    ensures Split("{{" + inner + "}}" + rest) == [Text(""), Hole(inner)] + [Text(rest)]
  {
    EmptyIsClean();
    SplitAtHole("", inner, rest);
    assert "" + "{{" + inner + "}}" + rest == "{{" + inner + "}}" + rest;
    SplitStep(rest);
  }

  /** A placeholder in front of text that has none. */
  lemma OneHole(inner: string, rest: string, resolve: string -> Option<string>)
    requires Closes(inner) && Hole1(rest).None?
    ensures var s := "{{" + inner + "}}" + rest;
      && Expressions(s) == [Strip(inner)]
      && (resolve(Strip(inner)).Some? ==> Out(s, resolve) == resolve(Strip(inner)).value + rest)
  {
    SplitOneHole(inner, rest);
    ExpressionsTwo("", inner, [Text(rest)]);
    ExpressionsTwo(rest, "", []);
    FillTwo(Text(""), Hole(inner), [Text(rest)], resolve);
    FillOne(Text(rest), resolve);
    if resolve(Strip(inner)).Some? {
      assert "" + resolve(Strip(inner)).value == resolve(Strip(inner)).value;
    }
  }

  /**
   Rendering goes from left to right: behind clean text, a placeholder becomes its value, or
   stays as it is if it has none, and the rest is rendered by itself.
   */
  lemma RenderAtHole(x: string, inner: string, rest: string, resolve: string -> Option<string>)
    requires Clean(x) && Closes(inner)
    ensures var v := resolve(Strip(inner)); var filled := if v.Some? then v.value else "{{" + inner + "}}";
      Render(Some(x + "{{" + inner + "}}" + rest), resolve) == x + filled + Render(Some(rest), resolve)
  {
    SplitAtHole(x, inner, rest);
    FillTwo(Text(x), Hole(inner), Split(rest), resolve);
  }

  /** Text in which no opening pair of braces is closed renders to itself. */
  lemma RenderWithoutHole(s: string, resolve: string -> Option<string>)
    requires forall i, j | PairAt(s, '{', i) && i + 2 <= j :: !PairAt(s, '}', j)
    ensures Render(Some(s), resolve) == s
  {
    SplitStep(s);
    FillOne(Text(s), resolve);
  }

  // ----- when rendering is the identity ------------------------------------

  lemma {:induction false} NothingResolved(ps: seq<Piece>, resolve: string -> Option<string>)
    requires forall e | e in ExpressionsOf(ps) :: resolve(e).None?
    ensures FillAll(ps, resolve) == SpellAll(ps)
  {
    if ps == [] {
    } else {
      NothingResolved(ps[1..], resolve);
    }
  }

  /** If none of its placeholders can be resolved, a template renders to itself. */
  lemma RenderIdentity(s: string, resolve: string -> Option<string>)
    requires forall e | e in Expressions(s) :: resolve(e).None?
    ensures Render(Some(s), resolve) == s
  {
    NothingResolved(Split(s), resolve);
    SplitLosesNothing(s);
  }

  /** Space behind an expression does not matter. */
  lemma SpaceBehind(inner: string)
    requires Closes(inner)
    ensures Closes(inner + " ") && Strip(inner + " ") == Strip(inner)
  {
    var t, u := inner + "}}", inner + " " + "}}";
    forall k | 0 <= k < |inner| + 1
      ensures !PairAt(u, '}', k)
    {
      assert k + 1 < |inner| ==> !PairAt(t, '}', k) && t[k] == u[k] && t[k + 1] == u[k + 1];
    }
    assert PairAt(u, '}', |inner| + 1);
    LStripSpace(inner);
  }

  lemma {:induction false} LStripSpace(s: string)
    ensures LStrip(s + " ") == (if LStrip(s) == "" then "" else LStrip(s) + " ")
    ensures RStrip(LStrip(s + " ")) == RStrip(LStrip(s))
  {
    if s == "" {
      assert LStrip(" ") == LStrip(" "[1..]);
    } else if IsSpace(s[0]) {
      LStripSpace(s[1..]);
      assert (s + " ")[1..] == s[1..] + " ";
    } else {
      assert (s + " ")[..|s|] == s;
    }
  }

  /**
   Every template over some expressions renders to itself exactly when none of these
   expressions can be resolved.
   */
  lemma IdentityExactly(allowed: string -> bool, resolve: string -> Option<string>)
    ensures (forall s | Uses(s, allowed) :: Render(Some(s), resolve) == s) <==>
      (forall inner | Closes(inner) && allowed(Strip(inner)) :: resolve(Strip(inner)).None?)
  {
    hide Closes, Strip, Expressions, Render;
    if forall inner | Closes(inner) && allowed(Strip(inner)) :: resolve(Strip(inner)).None? {
      forall s | Uses(s, allowed)
        ensures Render(Some(s), resolve) == s
      {
        ExpressionsClose(s);
        RenderIdentity(s, resolve);
      }
    } else {
      var inner :| Closes(inner) && allowed(Strip(inner)) && resolve(Strip(inner)).Some?;
      var s, s' := RendersAlike(inner, resolve);
      assert Uses(s, allowed) && Uses(s', allowed);
    }
  }

  /** Two templates that ask for the same expression and render to the same text. */
  lemma RendersAlike(inner: string, resolve: string -> Option<string>) returns (s: string, s': string)
    requires Closes(inner) && resolve(Strip(inner)).Some?
    ensures Expressions(s) == [Strip(inner)] && Expressions(s') == [Strip(inner)] && s != s'
    ensures Render(Some(s), resolve) == Render(Some(s'), resolve)
  {
    SpaceBehind(inner);
    OneHole(inner, "", resolve);
    OneHole(inner + " ", "", resolve);
    s, s' := "{{" + inner + "}}" + "", "{{" + (inner + " ") + "}}" + "";
    assert |s'| == |s| + 1;
  }

  /** Every expression comes from a text that closes. */
  lemma {:induction false} ExpressionsClose(s: string)
    ensures forall e | e in Expressions(s) :: exists inner :: Closes(inner) && Strip(inner) == e
    decreases |s|
  {
    ExpressionsStep(s);
    if Hole1(s).None? {
    } else {
      var (i, j) := Hole1(s).value;
      InnerCloses(s);
      ExpressionsClose(s[j + 2..]);
    }
  }

  // ----- what stripping leaves ---------------------------------------------

  /** Blanks, line ends and the other ASCII characters that count as white space. */
  const WHITE := " \t\n\U{0B}\U{0C}\r\U{1C}\U{1D}\U{1E}\U{1F}"

  predicate AllWhite(s: string) {
    forall i | 0 <= i < |s| :: s[i] in WHITE
  }

  lemma WhiteConcat(a: string, b: string)
    requires AllWhite(a) && AllWhite(b)
    ensures AllWhite(a + b)
  {
  }

  lemma WhiteIsSpace(c: char)
    ensures IsSpace(c) <==> c in WHITE
  {
    assert WHITE == [' ', '\t', '\n', '\U{0B}', '\U{0C}', '\r', '\U{1C}', '\U{1D}', '\U{1E}', '\U{1F}'];
    if IsSpace(c) {
      var i := if c == ' ' then 0 else if c <= '\r' then c as int - 8 else c as int - 22;
      assert WHITE[i] == c;
    }
  }

  lemma {:induction false} LStripped(s: string) returns (a: string)
    ensures s == a + LStrip(s) && AllWhite(a) && (LStrip(s) != "" ==> LStrip(s)[0] !in WHITE)
  {
    if s == "" {
      a := "";
    } else {
      WhiteIsSpace(s[0]);
      if IsSpace(s[0]) {
        a := LStripped(s[1..]);
        WhiteConcat([s[0]], a);
        ConcatAssociative([s[0]], a, LStrip(s));
        assert s == [s[0]] + s[1..];
        a := [s[0]] + a;
      } else {
        a := "";
      }
    }
  }

  lemma OneBehind(s: string, r: string, b: string)
    requires s != "" && s[..|s| - 1] == r + b && AllWhite(b) && s[|s| - 1] in WHITE
    ensures s == r + (b + [s[|s| - 1]]) && AllWhite(b + [s[|s| - 1]])
  {
    hide WHITE;
    assert s == s[..|s| - 1] + [s[|s| - 1]];
  }

  lemma {:induction false} RStripped(s: string) returns (b: string)
    ensures s == RStrip(s) + b && AllWhite(b) && (RStrip(s) != "" ==> RStrip(s)[|RStrip(s)| - 1] !in WHITE)
  {
    if s == "" {
      b := "";
    } else {
      var last := |s| - 1;
      WhiteIsSpace(s[last]);
      hide WHITE, IsSpace, AllWhite;
      if IsSpace(s[last]) {
        b := RStripped(s[..last]);
        OneBehind(s, RStrip(s), b);
        b := b + [s[last]];
      } else {
        b := "";
        assert s + "" == s;
        assert AllWhite("") by { NothingIsWhite(); }
      }
    }
  }

  lemma NothingIsWhite()
    ensures AllWhite("")
  {
  }

  /** Stripping takes away white space at both ends, all of it and nothing else. */
  lemma StripExactly(s: string) returns (a: string, b: string)
    ensures s == a + Strip(s) + b && AllWhite(a) && AllWhite(b)
    ensures Strip(s) != "" ==> Strip(s)[0] !in WHITE && Strip(s)[|Strip(s)| - 1] !in WHITE
  {
    a := LStripped(s);
    b := RStripped(LStrip(s));
    ConcatAssociative(a, Strip(s), b);
    if Strip(s) != "" {
      assert LStrip(s)[0] == Strip(s)[0];
    }
  }

  // ----- fallbacks ---------------------------------------------------------

  /** A token between pipes: a quoted literal, a number, or something to look up. */
  function TokenValue(token: string, number: string -> Option<string>,
      lookup: string -> Option<string>): Option<string>
  {
    if token != "" && token[0] == token[|token| - 1] && (token[0] == '"' || token[0] == '\'') then
      Some(if |token| == 1 then "" else token[1..|token| - 1])
    else if number(token).Some? then number(token)
    else lookup(token)
  }

  function ValueOf(tokens: seq<string>, i: nat, number: string -> Option<string>,
      lookup: string -> Option<string>): Option<string>
    requires i < |tokens|
  {
    TokenValue(Strip(tokens[i]), number, lookup)
  }

  /** The alternatives of an expression, in order. */
  function Alternatives(expression: string): seq<string> {
    Text.SplitOn(expression, '|')
  }

  /** The value of the first alternative that has one. */
  function FirstValue(tokens: seq<string>, number: string -> Option<string>,
      lookup: string -> Option<string>): Option<string>
  {
    if tokens == [] then None
    else
      var v := ValueOf(tokens, 0, number, lookup);
      if v.Some? then v else FirstValue(tokens[1..], number, lookup)
  }

  /** `_resolve_with_fallbacks`, given the parser of numbers and the lookup of everything else. */
  function Resolver(number: string -> Option<string>, lookup: string -> Option<string>): string -> Option<string> {
    expression => FirstValue(Alternatives(expression), number, lookup)
  }

  /** Token `i` is the first one with a value, and its value is `r`. */
  predicate Decides(tokens: seq<string>, i: nat, r: Option<string>,
                    number: string -> Option<string>, lookup: string -> Option<string>) {
    && i < |tokens| && r.Some? && ValueOf(tokens, i, number, lookup) == r
    && forall j | 0 <= j < i :: ValueOf(tokens, j, number, lookup).None?
  }

  /** The first token that has a value decides; without one there is none. */
  lemma {:induction false} FirstValueDecides(tokens: seq<string>, number: string -> Option<string>,
      lookup: string -> Option<string>)
    ensures var r := FirstValue(tokens, number, lookup);
      && (r.None? ==> forall i | 0 <= i < |tokens| :: ValueOf(tokens, i, number, lookup).None?)
      && (r.Some? ==> exists i: nat :: Decides(tokens, i, r, number, lookup))
  {
    if tokens == [] {
    } else if ValueOf(tokens, 0, number, lookup).Some? {
      assert Decides(tokens, 0, FirstValue(tokens, number, lookup), number, lookup);
    } else {
      var rest := tokens[1..];
      FirstValueDecides(rest, number, lookup);
      assert forall i | 0 <= i < |rest| :: ValueOf(rest, i, number, lookup) == ValueOf(tokens, i + 1, number, lookup);
      var r := FirstValue(rest, number, lookup);
      if r.Some? {
        var i: nat :| Decides(rest, i, r, number, lookup);
        forall j | 0 <= j < i + 1
          ensures ValueOf(tokens, j, number, lookup).None?
        {
          if j > 0 { assert ValueOf(rest, j - 1, number, lookup).None?; }
        }
        assert Decides(tokens, i + 1, r, number, lookup);
      } else {
        forall i | 0 <= i < |tokens|
          ensures ValueOf(tokens, i, number, lookup).None?
        {
          if i > 0 { assert ValueOf(rest, i - 1, number, lookup).None?; }
        }
      }
    }
  }

  lemma {:induction false} FirstValueSkips(tokens: seq<string>, i: nat, number: string -> Option<string>,
      lookup: string -> Option<string>)
    requires i < |tokens| && forall j | 0 <= j < i :: ValueOf(tokens, j, number, lookup).None?
    ensures ValueOf(tokens, i, number, lookup).Some? ==>
      FirstValue(tokens, number, lookup) == ValueOf(tokens, i, number, lookup)
  {
    if i == 0 {
    } else {
      var rest := tokens[1..];
      assert forall j | 0 <= j < i :: ValueOf(rest, j, number, lookup) == ValueOf(tokens, j + 1, number, lookup);
      assert ValueOf(tokens, 0, number, lookup).None?;
      FirstValueSkips(rest, i - 1, number, lookup);
    }
  }

  /**
   What the deciding alternative of an expression means.  With quotes of either kind around it,
   it is the text between them; otherwise a number, if it is one; otherwise what it leads to.
   */
  lemma AlternativeDecides(parts: seq<string>, i: nat, number: string -> Option<string>,
      lookup: string -> Option<string>)
    requires i < |parts| && forall j | 0 <= j < |parts| :: '|' !in parts[j]
    requires forall j | 0 <= j < i :: ValueOf(parts, j, number, lookup).None?
    ensures var token, r := Strip(parts[i]), Resolver(number, lookup)(Text.Join(parts, '|'));
      && (forall x :: token == "\"" + x + "\"" || token == "'" + x + "'" ==> r == Some(x))
      && (token == "" || token[0] !in "\"'" || token[|token| - 1] != token[0] ==>
            && (number(token).Some? ==> r == number(token))
            && (number(token).None? && lookup(token).Some? ==> r == lookup(token)))
  {
    hide Strip;
    Text.SplitJoin(parts, '|');
    FirstValueSkips(parts, i, number, lookup);
    var token := Strip(parts[i]);
    forall x | token == "\"" + x + "\"" || token == "'" + x + "'"
      ensures TokenValue(token, number, lookup) == Some(x)
    {
      assert token[1..|token| - 1] == x;
    }
    assert "\"'" == ['"', '\''];
  }

  /** `_resolve_with_fallbacks` */
  method ResolveWithFallbacks(expression: string, number: string -> Option<string>, lookup: string -> Option<string>)
    returns (r: Option<string>)
    ensures r == Resolver(number, lookup)(expression)
  {
    var tokens := Alternatives(expression);
    for i := 0 to |tokens|
      invariant FirstValue(tokens, number, lookup) == FirstValue(tokens[i..], number, lookup)
    {
      assert ValueOf(tokens[i..], 0, number, lookup) == ValueOf(tokens, i, number, lookup);
      assert tokens[i..][1..] == tokens[i + 1..];
      var token := Strip(tokens[i]);
      if token != "" && ((token[0] == '"' && token[|token| - 1] == '"')
        || (token[0] == '\'' && token[|token| - 1] == '\'')) {
        return Some(if |token| == 1 then "" else token[1..|token| - 1]);
      }
      r := number(token);
      if r.Some? {
        return;
      }
      r := lookup(token);
      if r.Some? {
        return;
      }
    }
    return None;
  }
}
