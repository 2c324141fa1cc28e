/**
 The context in which the JMS listener renders the outputs of a rule: the contexts of the
 rule's conditions, the message and its fields, the headers.
 */
module ListenerContext {
  import opened ContextLookup
  import opened FlattenedKeys
  import Text

  /** What a matching condition adds: a jsonpath condition the flattened message, others what they like. */
  datatype MatcherContext = FromJsonpath(value: Json) | FromOther(entries: Flat)

  function EntriesOf(d: Fields, c: MatcherContext): Flat {
    match c
    case FromJsonpath(value) => map["message" := Obj(d), "matched_value" := value] + Flatten(d, "")
    case FromOther(entries) => entries
  }

  /** Condition by condition; later entries override earlier ones. */
  function Collected(d: Fields, contexts: seq<MatcherContext>): Flat {
    if contexts == [] then map[]
    else Collected(d, contexts[..|contexts| - 1]) + EntriesOf(d, contexts[|contexts| - 1])
  }

  /** Each field of the message, with and without `$.` in front. */
  function Accessors(d: Fields): Flat {
    match d
    case NoFields => map[]
    case Field(k, v, rest) => map[k := v]["$." + k := v] + Accessors(rest)
  }

  function JmsContext(d: Fields, contexts: seq<MatcherContext>, headers: Flat): Flat {
    Collected(d, contexts) + map["message" := Obj(d), "$" := Obj(d)] + Accessors(d) + headers
  }

  /** How `_execute_rule` collects the context. */
  method BuildContext(d: Fields, contexts: seq<MatcherContext>, headers: Flat) returns (context: Flat)
    ensures context == JmsContext(d, contexts, headers)
  {
    context := Collect(d, contexts);
    context := context["message" := Obj(d)]["$" := Obj(d)];
    assert context == Collected(d, contexts) + map["message" := Obj(d), "$" := Obj(d)];
    context := AddAccessors(context, d);
    context := context + headers;
  }

  method Collect(d: Fields, contexts: seq<MatcherContext>) returns (context: Flat)
    ensures context == Collected(d, contexts)
  {
    context := map[];
    for i := 0 to |contexts|
      invariant context == Collected(d, contexts[..i])
    {
      assert contexts[..i + 1][..i] == contexts[..i];
      var more := MatchContext(d, contexts[i]);
      context := context + more;
    }
    assert contexts[..|contexts|] == contexts;
  }

  method MatchContext(d: Fields, c: MatcherContext) returns (context: Flat)
    ensures context == EntriesOf(d, c)
  {
    match c
    case FromJsonpath(value) =>
      var flat := FlattenDict(d, "");
      context := map["message" := Obj(d), "matched_value" := value] + flat;
    case FromOther(entries) =>
      context := entries;
  }

  method AddAccessors(start: Flat, d: Fields) returns (context: Flat)
    ensures context == start + Accessors(d)
  {
    context := start;
    var rest := d;
    while rest.Field?
      invariant context + Accessors(rest) == start + Accessors(d)
      decreases rest
    {
      AddOne(context, rest);
      context := context[rest.key := rest.value]["$." + rest.key := rest.value];
      rest := rest.rest;
    }
  }

  lemma AddOne(context: Flat, d: Fields)
    requires d.Field?
    ensures context[d.key := d.value]["$." + d.key := d.value] + Accessors(d.rest) == context + Accessors(d)
  {
    var one := map[d.key := d.value]["$." + d.key := d.value];
    MapAssoc(context, one, Accessors(d.rest));
    assert context[d.key := d.value]["$." + d.key := d.value] == context + one;
  }

  // ----- what the parts bind -----------------------------------------------

  lemma {:induction false} AccessorOf(d: Fields, k: string)
    requires Plain(d) && HasKey(d, k)
    ensures k in Accessors(d) && Accessors(d)[k] == Get(d, k).value
  {
    if d.key == k {
      DollarHasDot(k);
      NoAccessor(d.rest, k);
    } else {
      AccessorOf(d.rest, k);
    }
  }

  lemma DollarHasDot(k: string)
    ensures "$." <= k ==> '.' in k
  {
    assert "$." <= k ==> k[1] == '.';
  }

  /** Nothing but plain keys of the message, and these behind `$.`. */
  lemma {:induction false} NoAccessor(d: Fields, k: string)
    requires Plain(d) && !HasKey(d, k) && !("$." <= k && HasKey(d, k[2..]))
    ensures k !in Accessors(d)
  {
    match d
    case NoFields =>
    case Field(key, v, rest) =>
      assert ("$." + key)[2..] == key;
      NoAccessor(rest, k);
  }

  predicate AnyJsonpath(contexts: seq<MatcherContext>) {
    exists i | 0 <= i < |contexts| :: contexts[i].FromJsonpath?
  }

  /** The rule's other conditions do not bind the key. */
  predicate OthersLeave(contexts: seq<MatcherContext>, k: string) {
    forall i | 0 <= i < |contexts| :: contexts[i].FromOther? ==> k !in contexts[i].entries
  }

  lemma {:induction false} CollectedAt(d: Fields, contexts: seq<MatcherContext>, k: string)
    requires OthersLeave(contexts, k) && k != "message" && k != "matched_value"
    ensures k in Collected(d, contexts) <==> AnyJsonpath(contexts) && k in Flatten(d, "")
    ensures k in Collected(d, contexts) ==> Collected(d, contexts)[k] == Flatten(d, "")[k]
  {
    if contexts == [] {
    } else {
      var most := contexts[..|contexts| - 1];
      CollectedAt(d, most, k);
      assert AnyJsonpath(contexts) <==> AnyJsonpath(most) || contexts[|most|].FromJsonpath?;
    }
  }

  // ----- rendering an entry of the message ---------------------------------

  /** A key with separators is a field accessor only if it starts at a field `$`. */
  lemma SeparatedIsNoAccessor(d: Fields, path: seq<Seg>)
    requires Plain(d) && path != [] && GoodPath(path) && (|path| > 1 || path[0].Elem?) && path[0].k != "$"
    ensures PathKey(path) !in Accessors(d)
  {
    var key := PathKey(path);
    HasSeparator(path);
    if HasKey(d, key) { GetPlain(d, key); }
    if "$." <= key && HasKey(d, key[2..]) {
      GetPlain(d, key[2..]);
      StartsAtDollar(path);
    }
    NoAccessor(d, key);
  }

  lemma StartsAtDollar(path: seq<Seg>)
    requires path != [] && GoodPath(path) && "$." <= PathKey(path)
    ensures path[0] == Key("$")
  {
    var key := PathKey(path);
    var first := Texts(path)[0];
    TextsHaveNoDots(path);
    Text.SplitJoin(Texts(path), '.');
    assert key == "$" + ['.'] + key[2..];
    Text.SplitAtFirst("$", '.', key[2..]);
    assert first == "$";
    SegTextInjective(path[0], Key("$"));
  }

  /** From the second step on, traversing the context is traversing the message. */
  lemma WalkContext(d: Fields, context: Fields, path: seq<Seg>, index: Indexing)
    requires Plain(d) && IsEntry(d, path) && (|path| > 1 || path[0].Elem?)
    requires Get(context, path[0].k) == Get(d, path[0].k)
    ensures Lookup(context, PathKey(path), index) == Seen(d, path)
  {
    var g := path[0];
    EntryIsGood(d, path);
    TextsHaveNoDots(path);
    Text.SplitJoin(Texts(path), '.');
    WalkSees(d, path, index);
    if g.Elem? {
      ListPart(d, g.k, g.i, index);
      ListPart(context, g.k, g.i, index);
    }
  }

  /** A field of the message itself has an accessor. */
  lemma FieldIsFound(d: Fields, contexts: seq<MatcherContext>, headers: Flat, context: Fields,
      path: seq<Seg>, index: Indexing)
    requires Plain(d) && IsEntry(d, path) && Represents(context, JmsContext(d, contexts, headers))
    requires |path| == 1 && path[0].Key? && PathKey(path) !in headers
    ensures ContextValue(context, "$." + PathKey(path), index) == NotNull(EntryAt(d, path).value)
  {
    var key := PathKey(path);
    assert ("$." + key)[2..] == key;
    EntryIsGood(d, path);
    HasSeparator(path);
    AccessorOf(d, key);
  }

  /** Any other entry is found in the flattened message, or by traversing. */
  lemma SeparatedIsFound(d: Fields, contexts: seq<MatcherContext>, headers: Flat, context: Fields,
      path: seq<Seg>, index: Indexing)
    requires Plain(d) && IsEntry(d, path) && Represents(context, JmsContext(d, contexts, headers))
    requires OthersLeave(contexts, PathKey(path)) && path[0].k != "$" && (|path| > 1 || path[0].Elem?)
    requires PathKey(path) !in headers && path[0].k !in headers
    ensures ContextValue(context, "$." + PathKey(path), index) ==
      if AnyJsonpath(contexts) then NotNull(EntryAt(d, path).value) else Seen(d, path)
  {
    hide Walk, Flatten, Accessors, Collected;
    var key := PathKey(path);
    assert ("$." + key)[2..] == key;
    EntryIsGood(d, path);
    EntryValue(d, path);
    HasSeparator(path);
    SeparatedIsNoAccessor(d, path);
    NotReserved(key);
    CollectedAt(d, contexts, key);
    if !AnyJsonpath(contexts) {
      AccessorOf(d, path[0].k);
      WalkContext(d, context, path, index);
    }
  }

  lemma NotReserved(key: string)
    requires !PlainText(key)
    ensures key != "message" && key != "matched_value" && key != "$"
  {
  }

  /**
   An output that asks for an entry of the message gets it exactly if the entry's key has no
   index, or some condition of the rule is a jsonpath condition - or there is nothing to get.
   Otherwise it gets the whole list at the index, and nothing behind it.
   */
  lemma EntryIsRenderedExactly(d: Fields, contexts: seq<MatcherContext>, headers: Flat, context: Fields,
      path: seq<Seg>, index: Indexing)
    requires Plain(d) && IsEntry(d, path) && Represents(context, JmsContext(d, contexts, headers))
    requires OthersLeave(contexts, PathKey(path)) && path[0].k != "$"
    requires PathKey(path) !in headers && path[0].k !in headers
    ensures var v := EntryAt(d, path).value; var found := ContextValue(context, "$." + PathKey(path), index);
      && (found == NotNull(v) <==> AnyJsonpath(contexts) || IndexFree(path) || (v.Null? && !EndsAtIndex(path)))
      && (found == NotNull(v) || found == Seen(d, path))
  {
    SeenExactly(d, path);
    EntryIsGood(d, path);
    if |path| == 1 && path[0].Key? {
      FieldIsFound(d, contexts, headers, context, path, index);
    } else {
      SeparatedIsFound(d, contexts, headers, context, path, index);
    }
  }

  /** Headers override everything. */
  lemma HeadersWin(d: Fields, contexts: seq<MatcherContext>, headers: Flat, context: Fields, k: string,
      index: Indexing)
    requires Represents(context, JmsContext(d, contexts, headers)) && k in headers && (k == "" || k[0] != '$')
    ensures ContextValue(context, k, index) == NotNull(headers[k])
  {
    hide Collected, Accessors, Walk;
    assert JmsContext(d, contexts, headers)[k] == headers[k];
    assert !("$" <= k) && !("$." <= k);
  }

  /** Without a field or header of that name, `message` is the whole message. */
  lemma MessageIsWhole(d: Fields, contexts: seq<MatcherContext>, headers: Flat, context: Fields, index: Indexing)
    requires Plain(d) && Represents(context, JmsContext(d, contexts, headers))
    requires "message" !in headers && !HasKey(d, "message")
    ensures ContextValue(context, "message", index) == Value(Obj(d))
  {
    var k := "message";
    assert k[0] == 'm' && !("$" <= k) && !("$." <= k);
    NoAccessor(d, k);
    hide Collected, Accessors, Walk, Plain;
    assert JmsContext(d, contexts, headers)[k] == Obj(d);
  }

  /** There is such a context for every choice of conditions and headers. */
  lemma {:induction false} SomeContext(entries: Flat) returns (context: Fields)
    ensures Represents(context, entries)
    decreases |entries|
  {
    if entries == map[] {
      context := NoFields;
    } else {
      var k :| k in entries;
      var rest := SomeContext(entries - {k});
      context := Field(k, entries[k], rest);
    }
  }
}
