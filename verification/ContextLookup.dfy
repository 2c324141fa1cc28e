/**
 Flattening a parsed message into template keys, and traversing a path into a nested message:
 what a path with brackets means, and when it gives the element it names.
 */
module ContextLookup {
  import opened Util
  import Text

  datatype Json = Null | Scalar(text: string) | List(items: Items) | Obj(fields: Fields)
  datatype Items = NoItems | Item(head: Json, tail: Items)
  /** A dictionary, in insertion order. */
  datatype Fields = NoFields | Field(key: string, value: Json, rest: Fields)

  type Flat = map<string, Json>

  function Digits(n: nat): string {
    if n < 10 then [('0' as int + n) as char] else Digits(n / 10) + [('0' as int + n % 10) as char]
  }

  /** What decimal digits stand for. */
  function Number(digits: string): int {
    if digits == "" then 0
    else 10 * Number(digits[..|digits| - 1]) + (digits[|digits| - 1] as int - '0' as int)
  }

  /** An index is written in decimal, without leading zeros. */
  lemma {:induction false} DigitsAreDecimal(n: nat)
    ensures Number(Digits(n)) == n && Digits(n) != "" && (n > 0 ==> Digits(n)[0] != '0')
    ensures forall i | 0 <= i < |Digits(n)| :: '0' <= Digits(n)[i] <= '9'
  {
    if n < 10 {
      assert Digits(n)[..0] == "";
    } else {
      DigitsAreDecimal(n / 10);
      assert Digits(n)[..|Digits(n)| - 1] == Digits(n / 10);
    }
  }

  /** The name of an element of the list under `key`. */
  function ElementName(key: string, i: nat): string { key + "[" + Digits(i) + "]" }

  // ----- flattening --------------------------------------------------------

  function Prefixed(parent: string, key: string): string {
    if parent == "" then key else parent + "." + key
  }

  /** `flatten_dict(d, parent)`; a later entry overrides an earlier one with the same key. */
  function Flatten(d: Fields, parent: string): Flat
    decreases d
  {
    match d
    case NoFields => map[]
    case Field(k, v, rest) => FlattenEntry(v, Prefixed(parent, k)) + Flatten(rest, parent)
  }

  /** What one entry contributes. */
  function FlattenEntry(v: Json, key: string): Flat
    decreases v
  {
    match v
    case Obj(fields) => Flatten(fields, key)
    case List(items) => map[key := v] + FlattenItems(items, key, 0)
    case _ => map[key := v]
  }

  function FlattenItems(items: Items, key: string, i: nat): Flat
    decreases items
  {
    match items
    case NoItems => map[]
    case Item(head, tail) =>
      var at := ElementName(key, i);
      (match head case Obj(fields) => Flatten(fields, at) case _ => map[at := head]) + FlattenItems(tail, key, i + 1)
  }

  lemma MapAssoc(a: Flat, b: Flat, c: Flat)
    ensures (a + b) + c == a + (b + c)
  {
  }

  /** The loop of `flatten_dict`, collecting into `items`. */
  method FlattenDict(d: Fields, parent: string) returns (items: Flat)
    ensures items == Flatten(d, parent)
    decreases d
  {
    items := map[];
    var rest := d;
    while rest.Field?
      invariant rest == d || rest < d
      invariant items + Flatten(rest, parent) == Flatten(d, parent)
      decreases rest
    {
      var newKey := Prefixed(parent, rest.key);
      var more: Flat;
      match rest.value {
        case Obj(fields) => more := FlattenDict(fields, newKey);
        case List(elements) =>
          var inner := FlattenElements(elements, newKey);
          more := map[newKey := rest.value] + inner;
        case _ => more := map[newKey := rest.value];
      }
      MapAssoc(items, more, Flatten(rest.rest, parent));
      items := items + more;
      rest := rest.rest;
    }
  }

  /** Its inner loop over the elements of a list. */
  method FlattenElements(elements: Items, key: string) returns (items: Flat)
    ensures items == FlattenItems(elements, key, 0)
    decreases elements
  {
    items := map[];
    var i, todo := 0, elements;
    while todo.Item?
      invariant todo == elements || todo < elements
      invariant items + FlattenItems(todo, key, i) == FlattenItems(elements, key, 0)
      decreases todo
    {
      var at := ElementName(key, i);
      var more: Flat;
      match todo.head {
        case Obj(fields) => more := FlattenDict(fields, at);
        case _ => more := map[at := todo.head];
      }
      MapAssoc(items, more, FlattenItems(todo.tail, key, i + 1));
      items := items + more;
      i, todo := i + 1, todo.tail;
    }
  }

  // ----- lookup ------------------------------------------------------------

  /** `d.get(key)` */
  function Get(d: Fields, key: string): Option<Json> {
    match d
    case NoFields => None
    case Field(k, v, rest) => if k == key then Some(v) else Get(rest, key)
  }

  /** What a lookup comes to; `None` in the message means that there is nothing. */
  datatype Found = Value(v: Json) | Missing | Raised

  function NotNull(v: Json): Found { if v.Null? then Missing else Value(v) }

  /** `current[int(text)]`; None if the text is no number or there is no such element. */
  type Indexing = (Json, string) -> Option<Json>

  /** `int` accepts no text with an opening bracket. */
  ghost predicate NumbersOnly(index: Indexing) {
    forall v, text :: '[' in text ==> index(v, text).None?
  }

  /** Where a character stands first. */
  function At(s: string, c: char): (n: nat)
    requires c in s
    ensures n < |s| && s[n] == c && c !in s[..n]
  {
    if s[0] == c then 0
    else
      var n := At(s[1..], c);
      assert s[..n + 1] == [s[0]] + s[1..][..n];
      n + 1
  }

  /** The loop over the indices of one part. */
  function Indices(current: Json, rest: string, index: Indexing): Found
    decreases |rest|
  {
    if '[' !in rest then Value(current)
    else if ']' !in rest then Raised          // nothing to unpack
    else
      var n := At(rest, ']');
      var next, more := index(current, rest[..n]), rest[n + 1..];
      if next.None? then Missing
      else Indices(next.value, if more != "" && more[0] == '.' then more[1..] else more, index)
  }

  /** One part of a path. */
  function Part(current: Json, part: string, index: Indexing): Found {
    if '[' in part && ']' in part then
      var n := At(part, '[');
      var key, rest := part[..n], part[n + 1..];
      if key == "" then Indices(current, rest, index)
      else if !current.Obj? then Missing      // no attribute `get`
      else
        var v := Get(current.fields, key);
        Indices(if v.Some? && !v.value.Null? then v.value else current, rest, index)
    else if !current.Obj? then Missing
    else
      var v := Get(current.fields, part);
      if v.None? then Missing else NotNull(v.value)
  }

  function Walk(current: Json, parts: seq<string>, index: Indexing): Found
    decreases |parts|
  {
    if parts == [] then NotNull(current)
    else
      var next := Part(current, parts[0], index);
      if next.Value? then Walk(next.v, parts[1..], index) else next
  }

  /** `_traverse_path` */
  function Lookup(context: Fields, path: string, index: Indexing): Found {
    Walk(Obj(context), Text.SplitOn(path, '.'), index)
  }

  method TraversePath(context: Fields, path: string, index: Indexing) returns (r: Found)
    ensures r == Lookup(context, path, index)
  {
    var parts := Text.SplitOn(path, '.');
    var current := Obj(context);
    for i := 0 to |parts|
      invariant Walk(current, parts[i..], index) == Walk(Obj(context), parts, index)
    {
      var part := parts[i];
      var next: Found;
      if '[' in part && ']' in part {
        next := TraverseBrackets(current, part, index);
      } else if !current.Obj? {
        return Missing;
      } else {
        var v := Get(current.fields, part);
        next := if v.None? || v.value.Null? then Missing else Value(v.value);
      }
      if !next.Value? {
        return next;
      }
      current := next.v;
    }
    return NotNull(current);
  }

  /** A part with brackets: get the object first, then apply all indices. */
  method TraverseBrackets(start: Json, part: string, index: Indexing) returns (r: Found)
    requires '[' in part && ']' in part
    ensures r == Part(start, part, index)
  {
    var n := At(part, '[');
    var key, rest, current := part[..n], part[n + 1..], start;
    if key != "" {
      if !current.Obj? {
        return Missing;
      }
      var v := Get(current.fields, key);
      if v.Some? && !v.value.Null? {
        current := v.value;
      }
    }
    while '[' in rest
      invariant Indices(current, rest, index) == Part(start, part, index)
      decreases |rest|
    {
      if ']' !in rest {
        return Raised;
      }
      var m := At(rest, ']');
      var next := index(current, rest[..m]);
      if next.None? {
        return Missing;
      }
      current, rest := next.value, rest[m + 1..];
      if rest != "" && rest[0] == '.' {
        rest := rest[1..];
      }
    }
    return Value(current);
  }

  /** `_get_context_value`: a leading `$` is dropped, a plain key wins over a path. */
  function ContextValue(context: Fields, key: string, index: Indexing): Found {
    var k := if "$." <= key then key[2..] else if "$" <= key then key[1..] else key;
    var direct := Get(context, k);
    if direct.Some? then NotNull(direct.value)
    else if '.' in k || '[' in k then Lookup(context, k, index)
    else Missing
  }

  /** `key`, `$key` and `$.key` mean the same. */
  lemma PrefixesAreDropped(context: Fields, key: string, index: Indexing)
    requires key != "" && key[0] != '.' && key[0] != '$'
    ensures ContextValue(context, "$" + key, index) == ContextValue(context, key, index)
    ensures ContextValue(context, "$." + key, index) == ContextValue(context, key, index)
  {
    assert ("$." + key)[2..] == key && ("$" + key)[1..] == key;
    assert ("$" + key)[1] == key[0];
  }

  // ----- brackets ----------------------------------------------------------

  /** A part with more than one opening bracket never yields a value: the loop leaves only by failing. */
  lemma {:induction false} NoSecondBracket(current: Json, rest: string, index: Indexing)
    requires NumbersOnly(index) && '[' in rest
    ensures !Indices(current, rest, index).Value?
    ensures ']' !in rest ==> Indices(current, rest, index).Raised?
    ensures ']' in rest && '[' in rest[..At(rest, ']')] ==> Indices(current, rest, index).Missing?
    decreases |rest|
  {
    if ']' !in rest {
    } else {
      var n := At(rest, ']');
      var next, more := index(current, rest[..n]), rest[n + 1..];
      if next.Some? {
        assert rest == rest[..n] + [']'] + more;
        NoSecondBracket(next.value, if more != "" && more[0] == '.' then more[1..] else more, index);
      }
    }
  }

  /** One opening bracket, with a closing one somewhere: the rest of the part is ignored, and so is an absent key. */
  lemma OneBracketPart(current: Json, key: string, tail: string, index: Indexing)
    requires '[' !in key && '[' !in tail && (']' in key || ']' in tail)
    ensures Part(current, key + "[" + tail, index) ==
      if key == "" then Value(current)
      else if !current.Obj? then Missing
      else
        var v := Get(current.fields, key);
        Value(if v.Some? && !v.value.Null? then v.value else current)
  {
    var part := key + "[" + tail;
    assert part == key + ['['] + tail;
    AtBehind(key, '[', tail);
    assert part[..|key|] == key && part[|key| + 1..] == tail;
    assert part[|key|] == '[';
    assert forall c | c in key || c in tail :: c in part;
  }

  lemma {:induction false} AtBehind(a: string, c: char, b: string)
    requires c !in a
    ensures At(a + [c] + b, c) == |a|
  {
    if a == "" {
    } else {
      AtBehind(a[1..], c, b);
      assert (a + [c] + b)[1..] == a[1..] + [c] + b;
    }
  }

  /** Where a walk gets to, null included. */
  function Reach(current: Json, parts: seq<string>, index: Indexing): Found
    decreases |parts|
  {
    if parts == [] then Value(current)
    else
      var next := Part(current, parts[0], index);
      if next.Value? then Reach(next.v, parts[1..], index) else next
  }

  lemma {:induction false} WalkOn(current: Json, before: seq<string>, after: seq<string>, index: Indexing)
    ensures var at := Reach(current, before, index);
      Walk(current, before + after, index) == if at.Value? then Walk(at.v, after, index) else at
    decreases |before|
  {
    if before == [] {
      assert before + after == after;
    } else {
      var next := Part(current, before[0], index);
      assert (before + after)[0] == before[0] && (before + after)[1..] == before[1..] + after;
      if next.Value? {
        WalkOn(next.v, before[1..], after, index);
      }
    }
  }

  predicate NoDots(parts: seq<string>) { forall j | 0 <= j < |parts| :: '.' !in parts[j] }

  /** The key in front of a bracket leads nowhere: it is empty, or where it is looked up there is nothing under it. */
  predicate LeadsNowhere(d: Fields, before: seq<string>, key: string, index: Indexing) {
    var at := Reach(Obj(d), before, index);
    key == "" || (at.Value? && at.v.Obj? && (Get(at.v.fields, key).None? || Get(at.v.fields, key).value.Null?))
  }

  lemma WalkPart(d: Fields, before: seq<string>, part: string, after: seq<string>, index: Indexing)
    ensures var at := Reach(Obj(d), before, index);
      Walk(Obj(d), before + [part] + after, index) == if at.Value? then Walk(at.v, [part] + after, index) else at
  {
    WalkOn(Obj(d), before, [part] + after, index);
    assert before + [part] + after == before + ([part] + after);
  }

  lemma BracketsIgnored(d: Fields, before: seq<string>, key: string, tail: string, after: seq<string>, index: Indexing)
    requires '[' !in key && '[' !in tail && (']' in key || ']' in tail)
    requires Reach(Obj(d), before, index).Value?
    ensures var at := Reach(Obj(d), before, index).v;
      Walk(at, [key + "[" + tail] + after, index) ==
      if LeadsNowhere(d, before, key, index) then Walk(at, after, index) else Walk(at, [key] + after, index)
  {
    var part, at := key + "[" + tail, Reach(Obj(d), before, index).v;
    OneBracketPart(at, key, tail, index);
    assert ([part] + after)[1..] == after && ([key] + after)[1..] == after;
  }

  /**
   What a path with one opening bracket in a part means: the same as without the brackets and
   what is in them - and without the whole part if its key leads nowhere.  No element is ever
   selected, and `missing[0]` stands for the object that has no such key.
   */
  lemma OneBracketPath(d: Fields, before: seq<string>, key: string, tail: string, after: seq<string>, index: Indexing)
    requires NoDots(before) && NoDots(after) && '.' !in key && '.' !in tail
    requires '[' !in key && '[' !in tail && (']' in key || ']' in tail)
    ensures Lookup(d, Text.Join(before + [key + "[" + tail] + after, '.'), index) ==
      Walk(Obj(d), before + (if LeadsNowhere(d, before, key, index) then [] else [key]) + after, index)
  {
    hide Walk, Part, Reach, LeadsNowhere;
    var part := key + "[" + tail;
    assert NoDots(before + [part] + after);
    Text.SplitJoin(before + [part] + after, '.');
    WalkPart(d, before, part, after, index);
    WalkPart(d, before, key, after, index);
    WalkOn(Obj(d), before, after, index);
    assert before + [] + after == before + after;
    if Reach(Obj(d), before, index).Value? {
      BracketsIgnored(d, before, key, tail, after, index);
    }
  }

  /** In particular `missing[0]` gives the whole context. */
  lemma MissingKeyYieldsContext(d: Fields, key: string, i: nat, index: Indexing)
    requires PlainText(key) && (Get(d, key).None? || Get(d, key).value.Null?)
    ensures Lookup(d, ElementName(key, i), index) == Value(Obj(d))
  {
    var tail := Digits(i) + "]";
    DigitsPlain(i);
    OneBracketPath(d, [], key, tail, [], index);
    assert [] + [key + "[" + tail] + [] == [ElementName(key, i)] by {
      assert key + "[" + tail == ElementName(key, i);
    }
    assert tail[|tail| - 1] == ']';
    var none: seq<string> := [];
    assert none + none + none == none;
  }

  /** Text without separators and brackets. */
  predicate PlainText(s: string) { '.' !in s && '[' !in s && ']' !in s }

  lemma {:induction false} DigitsPlain(n: nat)
    ensures PlainText(Digits(n)) && Digits(n) != ""
  {
    if n < 10 {
    } else {
      DigitsPlain(n / 10);
    }
  }

  // ----- elements of lists -------------------------------------------------

  function ItemAt(items: Items, i: nat): Option<Json> {
    match items
    case NoItems => None
    case Item(head, tail) => if i == 0 then Some(head) else ItemAt(tail, i - 1)
  }

  /** No element of a list is the list. */
  lemma {:induction false} ItemIsSmaller(items: Items, i: nat)
    requires ItemAt(items, i).Some?
    ensures ItemAt(items, i).value < items
  {
    if i == 0 {
    } else {
      ItemIsSmaller(items.tail, i - 1);
    }
  }

  lemma JoinedHas(parts: seq<string>, last: string, c: char)
    requires c in last
    ensures c in Text.Join(parts + [last], '.')
    decreases |parts|
  {
    if parts == [] {
      assert parts + [last] == [last];
    } else {
      JoinedHas(parts[1..], last, c);
      assert (parts + [last])[1..] == parts[1..] + [last];
    }
  }

  /** Traversing a path to an element gives the whole list, at any depth. */
  lemma ElementKeyYieldsList(d: Fields, parents: seq<string>, fields: Fields, key: string, items: Items, i: nat,
      index: Indexing)
    requires NoDots(parents) && PlainText(key) && key != ""
    requires Walk(Obj(d), parents, index) == Value(Obj(fields)) && Get(fields, key) == Some(List(items))
    ensures Lookup(d, Text.Join(parents + [ElementName(key, i)], '.'), index) == Value(List(items))
  {
    var tail := Digits(i) + "]";
    DigitsPlain(i);
    assert tail[|tail| - 1] == ']';
    OneBracketPath(d, parents, key, tail, [], index);
    assert key + "[" + tail == ElementName(key, i);
    assert parents + [ElementName(key, i)] + [] == parents + [ElementName(key, i)];
    WalkOn(Obj(d), parents, [], index);
    assert parents + [] == parents;
    WalkOn(Obj(d), parents, [key], index);
    assert [key][1..] == [];
    assert parents + [key] + [] == parents + [key];
  }

  /**
   `_get_context_value` yields the element that its documentation promises exactly if the
   context has that very path as a key of its own; otherwise it yields the list.
   */
  lemma ElementExactly(d: Fields, parents: seq<string>, fields: Fields, key: string, items: Items, i: nat, v: Json,
      index: Indexing)
    requires NoDots(parents) && PlainText(key) && key != ""
    requires Walk(Obj(d), parents, index) == Value(Obj(fields)) && Get(fields, key) == Some(List(items))
    requires ItemAt(items, i) == Some(v) && !v.Null?
    ensures var path := Text.Join(parents + [ElementName(key, i)], '.');
      && (ContextValue(d, "$." + path, index) == Value(v) <==> Get(d, path) == Some(v))
      && (Get(d, path).None? ==> ContextValue(d, "$." + path, index) == Value(List(items)))
  {
    var last := ElementName(key, i);
    var path := Text.Join(parents + [last], '.');
    assert last[|key|] == '[';
    JoinedHas(parents, last, '[');
    assert ("$." + path)[2..] == path;
    ElementKeyYieldsList(d, parents, fields, key, items, i, index);
    ItemIsSmaller(items, i);
  }
}
