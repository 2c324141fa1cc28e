/**
 Which rule a message triggers: the first one that matches in the order priority, name,
 load order.  The Kafka listener tries all rules of the topic, the JMS listener passes over
 rules of other types first.  For both, a matching rule that is marked skip ends the search.
 */
module RuleSelection {
  import opened Util
  import opened Conditions
  import opened Ordering
  import opened Rules
  import ConfigLoader

  function First<T>(p: T -> bool, s: seq<T>): Option<T> {
    if s == [] then None else if p(s[0]) then Some(s[0]) else First(p, s[1..])
  }

  /** The conditions of a rule hold for the message at hand. */
  function Applies(judge: Condition -> Verdict): Rule -> bool {
    (r: Rule) => AllMatch(judge, r.conditions)
  }

  function AppliesTo(judge: Condition -> Verdict, destination: string): Rule -> bool {
    (r: Rule) => r.destination == destination && AllMatch(judge, r.conditions)
  }

  function AppliesToJms(judge: Condition -> Verdict, destination: string): Rule -> bool {
    (r: Rule) => r.destination == destination && r.inputType == "jms" && AllMatch(judge, r.conditions)
  }

  lemma {:induction false} FirstFiltered<T(!new)>(p: T -> bool, q: T -> bool, r: T -> bool, s: seq<T>)
    requires forall x :: r(x) <==> p(x) && q(x)
    ensures First(p, Filter(q, s)) == First(r, s)
  {
    if s == [] {
    } else {
      FirstFiltered(p, q, r, s[1..]);
      if q(s[0]) {
        var f := Filter(q, s[1..]);
        assert ([s[0]] + f)[1..] == f;
      }
    }
  }

  // ----- the first rule of the sorted list, in terms of the list as loaded --

  /** Among the elements with `p`, number `i` is smallest, and the first one loaded of those. */
  predicate IsChosen<T>(le: (T, T) -> bool, p: T -> bool, s: seq<T>, i: nat) {
    && i < |s| && p(s[i])
    && forall j | 0 <= j < |s| && p(s[j]) :: le(s[i], s[j]) && (j < i ==> !le(s[j], s[i]))
  }

  lemma {:induction false} FirstInsert<T(!new)>(le: (T, T) -> bool, p: T -> bool, x: T, s: seq<T>)
    requires Preorder(le) && Ordered(le, s)
    ensures var f := First(p, s);
      First(p, Insert(le, x, s)) == if p(x) && (f.None? || le(x, f.value)) then Some(x) else f
  {
    if s == [] || le(x, s[0]) {
      assert ([x] + s)[1..] == s;
      if s != [] { FirstIn(p, s); }
    } else {
      FirstInsert(le, p, x, s[1..]);
      var rest := Insert(le, x, s[1..]);
      assert ([s[0]] + rest)[1..] == rest;
    }
  }

  lemma {:induction false} FirstIn<T>(p: T -> bool, s: seq<T>)
    ensures First(p, s).Some? ==> First(p, s).value in s && p(First(p, s).value)
    ensures First(p, s).None? ==> forall x | x in s :: !p(x)
  {
    if s == [] {
    } else {
      FirstIn(p, s[1..]);
    }
  }

  /** The first hit in the sorted list is the smallest one, the earlier loaded one of equals. */
  lemma {:induction false} FirstOfSorted<T(!new)>(le: (T, T) -> bool, p: T -> bool, s: seq<T>)
    requires Preorder(le)
    ensures First(p, Sort(le, s)).None? ==> forall x | x in s :: !p(x)
    ensures First(p, Sort(le, s)).Some? ==>
      exists i: nat :: IsChosen(le, p, s, i) && First(p, Sort(le, s)) == Some(s[i])
  {
    hide Ordered, Insert;
    if s == [] {
    } else {
      var rest := Sort(le, s[1..]);
      FirstOfSorted(le, p, s[1..]);
      SortOrdered(le, s[1..]);
      FirstInsert(le, p, s[0], rest);
      var f := First(p, rest);
      if p(s[0]) && (f.None? || le(s[0], f.value)) {
        assert IsChosen(le, p, s, 0) by {
          forall j | 0 <= j < |s| && p(s[j])
            ensures le(s[0], s[j])
          {
            if j > 0 { assert s[j] == s[1..][j - 1]; }
          }
        }
      } else if f.Some? {
        var i: nat :| IsChosen(le, p, s[1..], i) && f == Some(s[1..][i]);
        ChosenStep(le, p, s, i);
      }
    }
  }

  lemma ChosenStep<T(!new)>(le: (T, T) -> bool, p: T -> bool, s: seq<T>, i: nat)
    requires Preorder(le) && s != [] && IsChosen(le, p, s[1..], i)
    requires p(s[0]) ==> !le(s[0], s[1..][i])
    ensures IsChosen(le, p, s, i + 1)
  {
    forall j | 0 <= j < |s| && p(s[j])
      ensures le(s[i + 1], s[j]) && (j < i + 1 ==> !le(s[j], s[i + 1]))
    {
      if j > 0 { assert s[j] == s[1..][j - 1]; }
    }
  }

  // ----- the listeners -----------------------------------------------------

  /** `KafkaListener._process_message`: the rule that is selected, and whether it is executed. */
  method ProcessKafkaMessage(loader: ConfigLoader.ConfigLoader, topic: string, judge: Condition -> Verdict)
    returns (selected: Option<Rule>, executed: bool)
    requires loader.Valid()
    ensures selected == First(AppliesTo(judge, topic), loader.rules)
    ensures executed <==> selected.Some? && !selected.value.skip
  {
    var rules := loader.GetRulesForTopic(topic);
    selected, executed := None, false;
    for i := 0 to |rules|
      invariant First(Applies(judge), rules) == First(Applies(judge), rules[i..])
      invariant selected.None? && !executed
    {
      assert rules[i..][0] == rules[i] && rules[i..][1..] == rules[i + 1..];
      var matched := Evaluate(judge, rules[i].conditions);
      if matched {
        selected := Some(rules[i]);
        executed := !rules[i].skip;   // `_execute_rule` returns at once if the rule is skipped
        break;
      }
    }
    FirstFiltered(Applies(judge), ListensOn(topic), AppliesTo(judge, topic), loader.rules);
  }

  /** `JMSListener._process_message`: here, too, a selected rule that is marked skip is not executed. */
  method ProcessJmsMessage(loader: ConfigLoader.ConfigLoader, queue: string, judge: Condition -> Verdict)
    returns (selected: Option<Rule>, executed: bool)
    requires loader.Valid()
    ensures selected == First(AppliesToJms(judge, queue), loader.rules)
    ensures executed <==> selected.Some? && !selected.value.skip
  {
    var rules := loader.GetRulesForTopic(queue);
    ghost var hit := (r: Rule) => r.inputType == "jms" && AllMatch(judge, r.conditions);
    selected, executed := None, false;
    for i := 0 to |rules|
      invariant First(hit, rules) == First(hit, rules[i..])
      invariant selected.None? && !executed
    {
      assert rules[i..][0] == rules[i] && rules[i..][1..] == rules[i + 1..];
      if rules[i].inputType != "jms" {
        continue;
      }
      var matched := Evaluate(judge, rules[i].conditions);
      if matched {
        selected := Some(rules[i]);
        executed := !rules[i].skip;
        break;
      }
    }
    FirstFiltered(hit, ListensOn(queue), AppliesToJms(judge, queue), loader.rules);
  }

  /** Of the matching rules, number `i` comes first: by priority, then by name, then by load order. */
  ghost predicate IsLeast(hit: Rule -> bool, rules: seq<Rule>, i: nat) {
    && i < |rules| && hit(rules[i])
    && forall j | 0 <= j < |rules| && j != i && hit(rules[j]) ::
      Precedes(rules[i], rules[j]) || (SameKey(rules[i], rules[j]) && i < j)
  }

  /** Of the rules as loaded, the first matching one of the sorted list is least in (priority, name, load order). */
  lemma SelectsLeast(rules: seq<Rule>, hit: Rule -> bool)
    ensures var selected := First(hit, SortRules(rules));
      && (selected.None? ==> forall r | r in rules :: !hit(r))
      && (selected.Some? ==> exists i: nat :: IsLeast(hit, rules, i) && selected.value == rules[i])
  {
    RulePreorder();
    FirstOfSorted(RuleLe, hit, rules);
    if First(hit, SortRules(rules)).Some? {
      var i: nat :| IsChosen(RuleLe, hit, rules, i) && First(hit, SortRules(rules)) == Some(rules[i]);
      forall j | 0 <= j < |rules| && j != i && hit(rules[j])
        ensures Precedes(rules[i], rules[j]) || (SameKey(rules[i], rules[j]) && i < j)
      {
        RuleOrder(rules[i], rules[j]);
      }
      assert IsLeast(hit, rules, i);
    }
  }

  /** What the listeners execute, given which rules match. */
  function Executed(hit: Rule -> bool, rules: seq<Rule>): Option<Rule> {
    var selected := First(hit, rules);
    if selected.Some? && !selected.value.skip then selected else None
  }

  function NotSkipped(): Rule -> bool { (r: Rule) => !r.skip }

  /**
   A skipped rule is not as good as absent: taking the skipped rules away changes what is
   executed exactly when a skipped rule is selected although another one matches.
   */
  lemma {:induction false} SkipEndsSearch(hit: Rule -> bool, rules: seq<Rule>)
    ensures Executed(hit, rules) == Executed(hit, Filter(NotSkipped(), rules)) <==>
      !(First(hit, rules).Some? && First(hit, rules).value.skip && exists r | r in rules :: hit(r) && !r.skip)
  {
    var live := (r: Rule) => hit(r) && !r.skip;
    FirstFiltered(hit, NotSkipped(), live, rules);
    FirstIn(live, rules);
    FirstIn(hit, rules);
    if First(hit, rules).Some? && !First(hit, rules).value.skip {
      SameFirst(hit, live, rules);
    }
  }

  lemma {:induction false} SameFirst<T(!new)>(p: T -> bool, q: T -> bool, s: seq<T>)
    requires First(p, s).Some? && q(First(p, s).value) && forall x :: q(x) ==> p(x)
    ensures First(q, s) == First(p, s)
  {
    if !p(s[0]) { SameFirst(p, q, s[1..]); }
  }
}
