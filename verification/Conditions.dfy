/** Requests and match conditions, shared by stubs and rules. */
module Conditions {
  import opened Util

  datatype Condition = Condition(kind: string, expression: Option<string>, value: Option<string>, regex: Option<string>)

  /** What a matcher says about a condition; it may also raise. */
  datatype Verdict = Matched | NotMatched | Raised

  datatype Request = Request(
    server: string,
    verb: string,
    path: string,
    headers: map<string, string>,
    body: string,
    query: map<string, string>)

  function UpperChar(c: char): char {
    if 'a' <= c <= 'z' then c - 'a' + 'A' else c
  }

  /** `str.upper`, for ASCII. */
  function Upper(s: string): string {
    seq(|s|, i requires 0 <= i < |s| => UpperChar(s[i]))
  }

  /** The same letters, upper or lower case. */
  predicate SameButCase(s: string, t: string) {
    && |s| == |t|
    && forall i | 0 <= i < |s| ::
      || s[i] == t[i]
      || ('a' <= s[i] <= 'z' && s[i] as int - 'a' as int == t[i] as int - 'A' as int)
      || ('a' <= t[i] <= 'z' && t[i] as int - 'a' as int == s[i] as int - 'A' as int)
  }

  lemma UpperEqual(s: string, t: string)
    ensures Upper(s) == Upper(t) <==> SameButCase(s, t)
  {
    if Upper(s) == Upper(t) {
      forall i | 0 <= i < |s|
        ensures UpperChar(s[i]) == UpperChar(t[i])
      {
        assert Upper(s)[i] == Upper(t)[i];
      }
    }
  }

  lemma IsUpperOf(s: string, t: string)
    ensures s == Upper(t) <==> SameButCase(s, t) && forall i | 0 <= i < |s| :: !('a' <= s[i] <= 'z')
  {
    if SameButCase(s, t) && forall i | 0 <= i < |s| :: !('a' <= s[i] <= 'z') {
      assert forall i | 0 <= i < |s| :: s[i] == Upper(t)[i];
    }
  }

  /** All conditions hold; an exception counts as a mismatch, and no conditions is a wildcard. */
  predicate AllMatch(judge: Condition -> Verdict, conditions: seq<Condition>) {
    forall i | 0 <= i < |conditions| :: judge(conditions[i]) == Matched
  }

  /** `_evaluate_conditions`: stops at the first condition that does not match or raises. */
  method Evaluate(judge: Condition -> Verdict, conditions: seq<Condition>) returns (matched: bool)
    ensures matched <==> AllMatch(judge, conditions)
  {
    for i := 0 to |conditions|
      invariant forall j | 0 <= j < i :: judge(conditions[j]) == Matched
    {
      match judge(conditions[i])
      case Matched =>
      case NotMatched => return false;
      case Raised => return false;
    }
    return true;
  }
}
