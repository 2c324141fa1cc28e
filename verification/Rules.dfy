/** Rules and the order in which they are tried. */
module Rules {
  import opened Util
  import opened Conditions
  import opened Ordering

  datatype Output = Output(msgType: string, destination: string, payload: Option<string>, statusCode: int)

  datatype Rule = Rule(
    priority: int,
    name: string,
    destination: string,            // input_destination: topic, queue or path pattern
    inputType: string,              // kafka, jms or http
    inputMethod: string,
    connectionRef: Option<string>,
    skip: bool,
    conditions: seq<Condition>,
    outputs: seq<Output>)

  /** The sort key (priority, rule_name), compared as tuples are. */
  predicate RuleLe(a: Rule, b: Rule) {
    a.priority < b.priority || (a.priority == b.priority && CompareStrings(a.name, b.name) <= 0)
  }

  lemma RulePreorder()
    ensures Preorder(RuleLe)
  {
    StringsTotal();
  }

  /** A rule comes before another: it has the smaller priority, or the same one and the earlier name. */
  predicate Precedes(a: Rule, b: Rule) {
    a.priority < b.priority || (a.priority == b.priority && Before(a.name, b.name))
  }

  predicate SameKey(a: Rule, b: Rule) {
    a.priority == b.priority && a.name == b.name
  }

  lemma RuleOrder(a: Rule, b: Rule)
    ensures RuleLe(a, b) <==> Precedes(a, b) || SameKey(a, b)
    ensures !RuleLe(b, a) <==> Precedes(a, b)
  {
    StringsCompared(a.name, b.name);
    StringsCompared(b.name, a.name);
    LexFlip(CompareChars, a.name, b.name);
  }

  /** Smaller priorities first, then earlier names. */
  predicate InOrder(rules: seq<Rule>) {
    forall i, j | 0 <= i < j < |rules| :: Precedes(rules[i], rules[j]) || SameKey(rules[i], rules[j])
  }

  lemma OrderedInOrder(rules: seq<Rule>)
    ensures Ordered(RuleLe, rules) <==> InOrder(rules)
  {
    forall i, j | 0 <= i < j < |rules|
      ensures RuleLe(rules[i], rules[j]) <==> Precedes(rules[i], rules[j]) || SameKey(rules[i], rules[j])
    {
      RuleOrder(rules[i], rules[j]);
    }
  }

  function SortRules(rules: seq<Rule>): (r: seq<Rule>)
    ensures multiset(r) == multiset(rules)
  {
    Sort(RuleLe, rules)
  }

  /** Whether a rule listens on a destination. */
  function ListensOn(destination: string): Rule -> bool {
    (r: Rule) => r.destination == destination
  }
}
