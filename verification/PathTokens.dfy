/**
 Which characters of a path pattern are parameters, and what that means for the paths a
 pattern matches.
 */
module PathTokens {
  import opened Util
  import opened PathPattern

  /** Only word characters, and at least one: what may stand between the braces of a parameter. */
  predicate Word(name: string) {
    name != "" && forall i | 0 <= i < |name| ::
      'a' <= name[i] <= 'z' || 'A' <= name[i] <= 'Z' || '0' <= name[i] <= '9' || name[i] == '_'
  }

  /** Nowhere in the pattern is a word in braces. */
  ghost predicate NoParameter(pattern: string) {
    forall pre, name, post | Word(name) :: pattern != pre + "{" + name + "}" + post
  }

  /** Every character stands for itself. */
  function Literals(s: string): seq<Token> {
    seq(|s|, i requires 0 <= i < |s| => Lit(s[i]))
  }

  lemma {:induction false} WordRunStops(s: string, rest: string)
    requires rest != "" && !IsWord(rest[0])
    ensures WordRun(s + rest) == WordRun(s)
  {
    if s == "" || !IsWord(s[0]) {
      assert (s + rest)[0] == if s == "" then rest[0] else s[0];
    } else {
      assert (s + rest)[1..] == s[1..] + rest;
      WordRunStops(s[1..], rest);
    }
  }

  lemma {:induction false} WordRunOf(s: string)
    ensures WordRun(s) > 0 ==> Word(s[..WordRun(s)])
    ensures Word(s) ==> WordRun(s) == |s|
  {
    if s == "" || !IsWord(s[0]) {
    } else {
      WordRunOf(s[1..]);
      assert s[..WordRun(s)] == [s[0]] + s[1..][..WordRun(s[1..])];
    }
  }

  /** A word in braces stands at the beginning. */
  predicate StartsWithParameter(pattern: string) {
    pattern != "" && pattern[0] == '{' && var n := WordRun(pattern[1..]);
    n > 0 && n + 1 < |pattern| && pattern[n + 1] == '}'
  }

  lemma TokensStep(pattern: string)
    requires pattern != ""
    ensures StartsWithParameter(pattern) ==> var n := WordRun(pattern[1..]);
      Tokens(pattern) == [Param(pattern[1..n + 1])] + Tokens(pattern[n + 2..])
    ensures !StartsWithParameter(pattern) ==> Tokens(pattern) == [Lit(pattern[0])] + Tokens(pattern[1..])
  {
  }

  lemma StartIsKept(pre: string, rest: string)
    requires pre != "" && rest != "" && rest[0] == '{'
    ensures WordRun((pre + rest)[1..]) == WordRun(pre[1..])
    ensures StartsWithParameter(pre + rest) <==> StartsWithParameter(pre)
  {
    assert (pre + rest)[1..] == pre[1..] + rest;
    WordRunStops(pre[1..], rest);
  }

  lemma SlicesOfAppend(pre: string, rest: string, i: nat, j: nat)
    requires i <= j <= |pre|
    ensures (pre + rest)[i..j] == pre[i..j] && (pre + rest)[j..] == pre[j..] + rest
  {
  }

  /** An opening brace starts afresh: no parameter goes on behind it. */
  lemma {:induction false} TokensBefore(pre: string, rest: string)
    requires rest != "" && rest[0] == '{'
    ensures Tokens(pre + rest) == Tokens(pre) + Tokens(rest)
    decreases |pre|
  {
    if pre == "" {
      assert pre + rest == rest;
    } else {
      TokensStep(pre);
      TokensStep(pre + rest);
      StartIsKept(pre, rest);
      if StartsWithParameter(pre) {
        var n := WordRun(pre[1..]);
        hide Tokens, StartsWithParameter, WordRun;
        SlicesOfAppend(pre, rest, 1, n + 1);
        SlicesOfAppend(pre, rest, n + 2, n + 2);
        TokensBefore(pre[n + 2..], rest);
        ConcatAssociative([Param(pre[1..n + 1])], Tokens(pre[n + 2..]), Tokens(rest));
      } else {
        hide Tokens, StartsWithParameter, WordRun;
        SlicesOfAppend(pre, rest, 1, 1);
        TokensBefore(pre[1..], rest);
        ConcatAssociative([Lit(pre[0])], Tokens(pre[1..]), Tokens(rest));
      }
    }
  }

  lemma ParameterFirst(name: string, post: string)
    requires Word(name)
    ensures Tokens("{" + name + "}" + post) == [Param(name)] + Tokens(post)
  {
    var s := "{" + name + "}" + post;
    var n := |name|;
    assert s[1..] == name + ("}" + post);
    WordRunStops(name, "}" + post);
    WordRunOf(name);
    assert s[n + 1] == '}' && s[1..n + 1] == name && s[n + 2..] == post;
  }

  /** Every word in braces is a parameter, wherever it stands. */
  lemma TokensAround(pre: string, name: string, post: string)
    requires Word(name)
    ensures Tokens(pre + "{" + name + "}" + post) == Tokens(pre) + [Param(name)] + Tokens(post)
  {
    var rest := "{" + name + "}" + post;
    assert pre + "{" + name + "}" + post == pre + rest;
    TokensBefore(pre, rest);
    ParameterFirst(name, post);
  }

  lemma ParameterFound(pattern: string)
    requires StartsWithParameter(pattern)
    ensures !NoParameter(pattern)
  {
    var n := WordRun(pattern[1..]);
    WordRunOf(pattern[1..]);
    SplitAtBraces(pattern, n);
    assert pattern[1..][..n] == pattern[1..n + 1];
    assert pattern == "" + "{" + pattern[1..n + 1] + "}" + pattern[n + 2..];
  }

  lemma ParameterFoundLater(pattern: string)
    requires pattern != "" && !NoParameter(pattern[1..])
    ensures !NoParameter(pattern)
  {
    var pre, name, post :| Word(name) && pattern[1..] == pre + "{" + name + "}" + post;
    assert pattern == [pattern[0]] + pattern[1..];
    assert pattern == ([pattern[0]] + pre) + "{" + name + "}" + post;
  }

  /** And nothing else is: without a word in braces all characters stand for themselves. */
  lemma {:induction false} TokensLiteral(pattern: string)
    requires NoParameter(pattern)
    ensures Tokens(pattern) == Literals(pattern)
  {
    if pattern == "" {
    } else {
      if StartsWithParameter(pattern) {
        ParameterFound(pattern);
      }
      if !NoParameter(pattern[1..]) {
        ParameterFoundLater(pattern);
      }
      TokensLiteral(pattern[1..]);
      TokensStep(pattern);
      assert Literals(pattern) == [Lit(pattern[0])] + Literals(pattern[1..]);
    }
  }

  // ----- paths -------------------------------------------------------------

  /** Literal characters in front of a pattern stand in front of its paths. */
  lemma {:induction false} LiteralsInFront(pre: string, ts: seq<Token>, vals: seq<string>)
    ensures var all := Literals(pre) + ts;
      Names(all) == Names(ts) && Dict(all, vals) == Dict(ts, vals) && Separate(all, false) == Separate(ts, false)
    ensures |vals| == |Names(ts)| ==> Fill(Literals(pre) + ts, vals) == pre + Fill(ts, vals)
  {
    var all := Literals(pre) + ts;
    if pre == "" {
      assert all == ts;
    } else {
      assert all[0] == Lit(pre[0]) && all[1..] == Literals(pre[1..]) + ts;
      LiteralsInFront(pre[1..], ts, vals);
      if |vals| == |Names(ts)| {
        assert [pre[0]] + (pre[1..] + Fill(ts, vals)) == pre + Fill(ts, vals);
      }
    }
  }

  lemma {:induction false} OnlyLiterals(s: string, used: bool)
    ensures Names(Literals(s)) == [] && Fill(Literals(s), []) == s && Dict(Literals(s), []) == map[]
    ensures Separate(Literals(s), used)
  {
    if s == "" {
    } else {
      assert Literals(s)[1..] == Literals(s[1..]);
      OnlyLiterals(s[1..], used && s[0] != '/');
    }
  }

  /** A pattern without parameters matches itself only. */
  lemma LiteralPattern(pattern: string, path: string)
    requires NoParameter(pattern)
    ensures Extract(pattern, path) == if path == pattern || path == pattern + "\n" then Some(map[]) else None
  {
    TokensLiteral(pattern);
    OnlyLiterals(pattern, false);
    MatchIsGreediest(Literals(pattern), path);
    if path == pattern || path == pattern + "\n" {
      assert Binds(Literals(pattern), path, []);
    }
  }

  lemma ParameterThenLiterals(name: string, post: string, v: string)
    ensures var ts := [Param(name)] + Literals(post);
      Names(ts) == [name] && Fill(ts, [v]) == v + post && Dict(ts, [v]) == map[name := v] && Separate(ts, false)
  {
    var ts := [Param(name)] + Literals(post);
    assert ts[1..] == Literals(post) && [v][1..] == [];
    OnlyLiterals(post, true);
  }

  lemma OneParameterTokens(pre: string, name: string, post: string, v: string)
    requires Word(name) && NoParameter(pre) && NoParameter(post)
    ensures var ts := Tokens(pre + "{" + name + "}" + post);
      Names(ts) == [name] && Fill(ts, [v]) == pre + v + post && Dict(ts, [v]) == map[name := v] && Separate(ts, false)
  {
    TokensAround(pre, name, post);
    TokensLiteral(pre);
    TokensLiteral(post);
    hide Tokens, NoParameter, Names, Fill, Dict, Separate;
    var rest := [Param(name)] + Literals(post);
    ParameterThenLiterals(name, post, v);
    LiteralsInFront(pre, rest, [v]);
    ConcatAssociative(Literals(pre), [Param(name)], Literals(post));
    ConcatAssociative(pre, v, post);
  }

  /**
   A pattern with one parameter matches exactly the paths that have a non-empty slash-free
   text in its place, and yields that text under the parameter's name.
   */
  lemma OneParameter(pre: string, name: string, post: string, path: string)
    requires Word(name) && !('0' <= name[0] <= '9') && NoParameter(pre) && NoParameter(post)
    ensures var r := Extract(pre + "{" + name + "}" + post, path);
      && (forall v | Piece(v) && path == pre + v + post :: r == Some(map[name := v]))
      && (r.Some? ==> exists v :: Piece(v) && r.value == map[name := v] && (path == pre + v + post
                                                                          || path == pre + v + post + "\n"))
  {
    var ts := Tokens(pre + "{" + name + "}" + post);
    OneParameterTokens(pre, name, post, "");
    forall v | Piece(v) && path == pre + v + post
      ensures Extract(pre + "{" + name + "}" + post, path) == Some(map[name := v])
    {
      OneParameterTokens(pre, name, post, v);
      BuildThenMatch(ts, [v]);
    }
    MatchSound(ts, path);
    if Match(ts, path).Some? {
      var vals := Match(ts, path).value;
      OneParameterTokens(pre, name, post, vals[0]);
      assert vals == [vals[0]];
    }
  }
}
