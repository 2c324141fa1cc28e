/**
 The keys of a flattened message, lists included, against traversing the message itself:
 which keys lead back to their values, and what the others lead to.
 */
module FlattenedKeys {
  import opened Util
  import opened ContextLookup
  import Text

  /** A step into a message: to the value under a key, or to an element of the list under a key. */
  datatype Seg = Key(k: string) | Elem(k: string, i: nat)

  function SegText(g: Seg): string {
    match g case Key(k) => k case Elem(k, i) => ElementName(k, i)
  }

  function Texts(path: seq<Seg>): (texts: seq<string>)
    ensures |texts| == |path| && forall j | 0 <= j < |path| :: texts[j] == SegText(path[j])
  {
    if path == [] then [] else [SegText(path[0])] + Texts(path[1..])
  }

  function PathKey(path: seq<Seg>): string
    requires path != []
  {
    Text.Join(Texts(path), '.')
  }

  function KeyOf(parent: string, path: seq<Seg>): string
    requires path != []
  {
    Prefixed(parent, PathKey(path))
  }

  predicate GoodKey(k: string) { k != "" && PlainText(k) }

  predicate GoodPath(path: seq<Seg>) { forall j | 0 <= j < |path| :: GoodKey(path[j].k) }

  predicate HasKey(d: Fields, k: string) { Get(d, k).Some? }

  /** A message whose keys are plain, and distinct within each object, wherever flattening goes. */
  predicate Plain(d: Fields) {
    match d
    case NoFields => true
    case Field(k, v, rest) => GoodKey(k) && !HasKey(rest, k) && PlainValue(v) && Plain(rest)
  }

  predicate PlainValue(v: Json) {
    match v
    case Obj(fields) => Plain(fields)
    case List(items) => PlainItems(items)
    case _ => true
  }

  /** Flattening does not look into a list that is an element of a list. */
  predicate PlainItems(items: Items) {
    match items
    case NoItems => true
    case Item(head, tail) => (head.Obj? ==> Plain(head.fields)) && PlainItems(tail)
  }

  function SegValue(d: Fields, g: Seg): Option<Json> {
    var v := Get(d, g.k);
    if g.Key? then v
    else if v.Some? && v.value.List? then ItemAt(v.value.items, g.i)
    else None
  }

  /** What flattening enters for a path: anything but an object. */
  function EntryAt(d: Fields, path: seq<Seg>): Option<Json>
    decreases |path|
  {
    if path == [] then None
    else
      var v := SegValue(d, path[0]);
      if v.None? then None
      else if v.value.Obj? then EntryAt(v.value.fields, path[1..])
      else if |path| == 1 then v
      else None
  }

  predicate IsEntry(d: Fields, path: seq<Seg>) { EntryAt(d, path).Some? }

  // ----- keys and paths ----------------------------------------------------

  lemma KeyOfStep(parent: string, g: Seg, path: seq<Seg>)
    requires SegText(g) != "" && path != []
    ensures KeyOf(Prefixed(parent, SegText(g)), path) == KeyOf(parent, [g] + path)
  {
    var j, k := PathKey(path), SegText(g);
    assert ([g] + path)[1..] == path;
    assert Texts([g] + path) == [k] + Texts(path);
    assert ([k] + Texts(path))[1..] == Texts(path);
    assert parent + "." + k + "." + j == parent + "." + (k + ['.'] + j);
  }

  lemma KeyOfOne(parent: string, g: Seg)
    ensures KeyOf(parent, [g]) == Prefixed(parent, SegText(g))
  {
    assert Texts([g]) == [SegText(g)];
  }

  lemma ElementPrefix(parent: string, k: string, i: nat)
    requires k != ""
    ensures ElementName(Prefixed(parent, k), i) == Prefixed(parent, SegText(Elem(k, i)))
  {
    assert parent + "." + k + "[" + Digits(i) + "]" == parent + "." + (k + "[" + Digits(i) + "]");
  }

  lemma {:induction false} DigitsInjective(m: nat, n: nat)
    requires Digits(m) == Digits(n)
    ensures m == n
  {
    DigitsPlain(m / 10);
    DigitsPlain(n / 10);
    if m < 10 || n < 10 {
    } else {
      var a, b := Digits(m), Digits(n);
      assert a[..|a| - 1] == Digits(m / 10) && b[..|b| - 1] == Digits(n / 10);
      assert a[|a| - 1] == ('0' as int + m % 10) as char && b[|b| - 1] == ('0' as int + n % 10) as char;
      DigitsInjective(m / 10, n / 10);
    }
  }

  lemma SegTextInjective(g: Seg, h: Seg)
    requires GoodKey(g.k) && GoodKey(h.k) && SegText(g) == SegText(h)
    ensures g == h
  {
    if g.Elem? { BracketAt(g.k, g.i); }
    if h.Elem? { BracketAt(h.k, h.i); }
    if g.Elem? && h.Elem? {
      var text, n := SegText(g), |g.k|;
      assert text[..n] == g.k && text[..n] == h.k;
      assert text[n + 1..|text| - 1] == Digits(g.i) && text[n + 1..|text| - 1] == Digits(h.i);
      DigitsInjective(g.i, h.i);
    }
  }

  lemma BracketAt(k: string, i: nat)
    requires PlainText(k)
    ensures '[' in ElementName(k, i) && At(ElementName(k, i), '[') == |k|
    ensures '.' !in ElementName(k, i)
  {
    DigitsPlain(i);
    AtBehind(k, '[', Digits(i) + "]");
    assert ElementName(k, i) == k + ['['] + (Digits(i) + "]");
    assert ElementName(k, i)[|k|] == '[';
  }

  lemma TextsHaveNoDots(path: seq<Seg>)
    requires GoodPath(path)
    ensures NoDots(Texts(path))
  {
    forall j | 0 <= j < |path|
      ensures '.' !in Texts(path)[j]
    {
      if path[j].Elem? { BracketAt(path[j].k, path[j].i); }
    }
  }

  /** Different paths have different keys. */
  lemma KeyOfInjective(parent: string, p: seq<Seg>, q: seq<Seg>)
    requires p != [] && q != [] && KeyOf(parent, p) == KeyOf(parent, q) && GoodPath(p) && GoodPath(q)
    ensures p == q
  {
    var n := if parent == "" then 0 else |parent| + 1;
    assert KeyOf(parent, p)[n..] == PathKey(p) && KeyOf(parent, q)[n..] == PathKey(q);
    TextsHaveNoDots(p);
    TextsHaveNoDots(q);
    Text.SplitJoin(Texts(p), '.');
    Text.SplitJoin(Texts(q), '.');
    assert Texts(p) == Texts(q);
    forall j | 0 <= j < |p|
      ensures p[j] == q[j]
    {
      assert Texts(p)[j] == Texts(q)[j];
      SegTextInjective(p[j], q[j]);
    }
  }

  // ----- every key is the key of an entry ----------------------------------

  lemma {:induction false} GetPlain(d: Fields, k: string)
    requires Plain(d) && HasKey(d, k)
    ensures GoodKey(k) && PlainValue(Get(d, k).value)
  {
    if d.key == k {
    } else {
      GetPlain(d.rest, k);
    }
  }

  lemma {:induction false} ItemPlain(items: Items, i: nat)
    requires PlainItems(items) && ItemAt(items, i).Some?
    ensures var v := ItemAt(items, i).value; v.Obj? ==> Plain(v.fields)
  {
    if i == 0 {
    } else {
      ItemPlain(items.tail, i - 1);
    }
  }

  lemma SegPlain(d: Fields, g: Seg)
    requires Plain(d) && SegValue(d, g).Some?
    ensures GoodKey(g.k) && var v := SegValue(d, g).value; v.Obj? ==> Plain(v.fields)
  {
    GetPlain(d, g.k);
    if g.Elem? { ItemPlain(Get(d, g.k).value.items, g.i); }
  }

  lemma {:induction false} EntryIsGood(d: Fields, path: seq<Seg>)
    requires Plain(d) && IsEntry(d, path)
    ensures GoodPath(path)
    decreases |path|
  {
    SegPlain(d, path[0]);
    var v := SegValue(d, path[0]).value;
    if v.Obj? {
      EntryIsGood(v.fields, path[1..]);
      assert forall j | 1 <= j < |path| :: path[j] == path[1..][j - 1];
    }
  }

  lemma {:induction false} FlattenedIsEntry(d: Fields, parent: string, key: string) returns (path: seq<Seg>)
    requires Plain(d) && key in Flatten(d, parent)
    ensures path != [] && KeyOf(parent, path) == key && EntryAt(d, path) == Some(Flatten(d, parent)[key])
    decreases d
  {
    var k, v := d.key, d.value;
    if key in Flatten(d.rest, parent) {
      path := FlattenedIsEntry(d.rest, parent, key);
      assert SegValue(d.rest, path[0]).Some? && path[0].k != k;
    } else {
      var at := Prefixed(parent, k);
      KeyOfOne(parent, Key(k));
      match v
      case Obj(fields) =>
        var sub := FlattenedIsEntry(fields, at, key);
        path := [Key(k)] + sub;
        assert path[1..] == sub;
        KeyOfStep(parent, Key(k), sub);
      case List(items) =>
        if key in FlattenItems(items, at, 0) {
          path := FlattenedIsElement(d, parent, key);
        } else {
          path := [Key(k)];
        }
      case _ =>
        path := [Key(k)];
    }
  }

  lemma {:induction false} FlattenedIsElement(d: Fields, parent: string, key: string) returns (path: seq<Seg>)
    requires Plain(d) && d.Field? && d.value.List? && key in FlattenItems(d.value.items, Prefixed(parent, d.key), 0)
    ensures path != [] && KeyOf(parent, path) == key
    ensures EntryAt(d, path) == Some(FlattenItems(d.value.items, Prefixed(parent, d.key), 0)[key])
    decreases d, 0
  {
    var k := d.key;
    var j, sub := ItemEntry(d.value.items, Prefixed(parent, k), 0, key);
    var g := Elem(k, j);
    ElementPrefix(parent, k, j);
    path := [g] + sub;
    assert path[1..] == sub && SegValue(d, g) == ItemAt(d.value.items, j);
    if sub == [] {
      KeyOfOne(parent, g);
      assert path == [g];
    } else {
      KeyOfStep(parent, g, sub);
    }
  }

  /** A key that comes from a list comes from an element: the element's own, or one from within. */
  lemma {:induction false} ItemEntry(items: Items, at: string, i: nat, key: string) returns (j: nat, sub: seq<Seg>)
    requires PlainItems(items) && key in FlattenItems(items, at, i)
    ensures ItemAt(items, j).Some?
    ensures var v := ItemAt(items, j).value; var name := ElementName(at, i + j);
      if v.Obj? then
        sub != [] && KeyOf(name, sub) == key && EntryAt(v.fields, sub) == Some(FlattenItems(items, at, i)[key])
      else
        sub == [] && key == name && v == FlattenItems(items, at, i)[key]
    decreases items
  {
    if key in FlattenItems(items.tail, at, i + 1) {
      j, sub := ItemEntry(items.tail, at, i + 1, key);
      j := j + 1;
    } else {
      j, sub := 0, [];
      if items.head.Obj? {
        sub := FlattenedIsEntry(items.head.fields, ElementName(at, i), key);
      }
    }
  }

  // ----- every entry has a key ---------------------------------------------

  lemma {:induction false} EntryIsFlattened(d: Fields, parent: string, path: seq<Seg>)
    requires Plain(d) && IsEntry(d, path)
    ensures KeyOf(parent, path) in Flatten(d, parent)
    decreases d
  {
    var g := path[0];
    SegPlain(d, g);
    if g.k != d.key {
      assert EntryAt(d.rest, path) == EntryAt(d, path);
      EntryIsFlattened(d.rest, parent, path);
    } else {
      var at, v := Prefixed(parent, g.k), SegValue(d, g).value;
      if g.Elem? {
        ElementPrefix(parent, g.k, g.i);
        ItemIsFlattened(d.value.items, at, 0, g.i);
        ItemIsSmaller(d.value.items, g.i);
      }
      if v.Obj? {
        EntryIsFlattened(v.fields, Prefixed(parent, SegText(g)), path[1..]);
        KeyOfStep(parent, g, path[1..]);
        assert [g] + path[1..] == path;
      } else {
        KeyOfOne(parent, g);
        assert path == [g];
      }
    }
  }

  lemma {:induction false} ItemIsFlattened(items: Items, at: string, i: nat, j: nat)
    requires ItemAt(items, j).Some?
    ensures var v := ItemAt(items, j).value; var name := ElementName(at, i + j);
      if v.Obj? then Flatten(v.fields, name).Keys <= FlattenItems(items, at, i).Keys
      else name in FlattenItems(items, at, i)
    decreases items
  {
    if j == 0 {
    } else {
      ItemIsFlattened(items.tail, at, i + 1, j - 1);
    }
  }

  lemma EntryValue(d: Fields, path: seq<Seg>)
    requires Plain(d) && IsEntry(d, path)
    ensures PathKey(path) in Flatten(d, "") && Flatten(d, "")[PathKey(path)] == EntryAt(d, path).value
  {
    EntryIsFlattened(d, "", path);
    var other := FlattenedIsEntry(d, "", PathKey(path));
    EntryIsGood(d, path);
    EntryIsGood(d, other);
    KeyOfInjective("", path, other);
  }

  // ----- traversing the message itself -------------------------------------

  predicate IndexFree(path: seq<Seg>) { forall j | 0 <= j < |path| :: path[j].Key? }

  /** The first index is at the very end. */
  predicate EndsAtIndex(path: seq<Seg>) {
    path != [] && path[|path| - 1].Elem? && IndexFree(path[..|path| - 1])
  }

  /** What traversing finds: at an index the whole list, and behind it nothing. */
  function Seen(d: Fields, path: seq<Seg>): Found
    requires IsEntry(d, path)
    decreases |path|
  {
    var v := Get(d, path[0].k).value;
    if path[0].Elem? then if |path| == 1 then Value(v) else Missing
    else if v.Obj? then Seen(v.fields, path[1..])
    else NotNull(v)
  }

  lemma {:induction false} WalkSees(d: Fields, path: seq<Seg>, index: Indexing)
    requires Plain(d) && IsEntry(d, path)
    ensures Walk(Obj(d), Texts(path), index) == Seen(d, path)
    decreases |path|
  {
    var g, parts := path[0], Texts(path);
    SegPlain(d, g);
    var v := Get(d, g.k).value;
    assert parts[1..] == Texts(path[1..]);
    if g.Elem? {
      ListPart(d, g.k, g.i, index);
      if |path| > 1 {
        EntryIsGood(d, path);
        BehindList(v, path[1], index);
        assert parts[1..][0] == SegText(path[1]);
      }
    } else if v.Obj? {
      WalkSees(v.fields, path[1..], index);
    }
  }

  lemma ListPart(d: Fields, k: string, i: nat, index: Indexing)
    requires GoodKey(k) && HasKey(d, k) && Get(d, k).value.List?
    ensures Part(Obj(d), ElementName(k, i), index) == Value(Get(d, k).value)
  {
    DigitsPlain(i);
    var tail := Digits(i) + "]";
    assert tail[|tail| - 1] == ']';
    OneBracketPart(Obj(d), k, tail, index);
    assert k + "[" + tail == ElementName(k, i);
  }

  /** A list has no keys. */
  lemma BehindList(v: Json, g: Seg, index: Indexing)
    requires v.List? && GoodKey(g.k)
    ensures Part(v, SegText(g), index) == Missing
  {
    if g.Elem? {
      DigitsPlain(g.i);
      var tail := Digits(g.i) + "]";
      assert tail[|tail| - 1] == ']';
      OneBracketPart(v, g.k, tail, index);
      assert g.k + "[" + tail == ElementName(g.k, g.i);
    }
  }

  /** Traversing finds the entry itself exactly on paths without an index, or if it finds nothing and that is null. */
  lemma {:induction false} SeenExactly(d: Fields, path: seq<Seg>)
    requires Plain(d) && IsEntry(d, path)
    ensures var v := EntryAt(d, path).value;
      Seen(d, path) == NotNull(v) <==> IndexFree(path) || (v.Null? && !EndsAtIndex(path))
    decreases |path|
  {
    var g := path[0];
    var v := Get(d, g.k).value;
    if g.Elem? {
      ItemIsSmaller(v.items, g.i);
      if |path| > 1 {
        assert path[..|path| - 1][0] == g;
      }
    } else if v.Obj? {
      var rest := path[1..];
      SegPlain(d, g);
      SeenExactly(v.fields, rest);
      FirstIsKey(path);
    }
  }

  lemma FirstIsKey(path: seq<Seg>)
    requires |path| > 1 && path[0].Key?
    ensures IndexFree(path) <==> IndexFree(path[1..])
    ensures EndsAtIndex(path) <==> EndsAtIndex(path[1..])
  {
    var rest := path[1..];
    assert forall j | 1 <= j < |path| :: path[j] == rest[j - 1];
    var a, b := path[..|path| - 1], rest[..|rest| - 1];
    assert forall j | 1 <= j < |a| :: a[j] == b[j - 1];
    assert forall j | 0 <= j < |b| :: b[j] == a[j + 1];
    assert forall j | 0 <= j < |rest| :: rest[j] == path[j + 1];
  }

  lemma LookupSees(d: Fields, path: seq<Seg>, index: Indexing)
    requires Plain(d) && IsEntry(d, path)
    ensures Lookup(d, PathKey(path), index) == Seen(d, path)
  {
    EntryIsGood(d, path);
    TextsHaveNoDots(path);
    Text.SplitJoin(Texts(path), '.');
    WalkSees(d, path, index);
  }

  /**
   Flattening a message with plain keys and traversing it: flattened keys are the keys of its
   entries, each with a key of its own and its value; and traversing the message along a key
   finds that value exactly if the key has no index - or finds nothing, behind an index, where
   the value is null.
   */
  lemma FlattenAgreesWithLookup(d: Fields, index: Indexing)
    requires Plain(d)
    ensures forall key | key in Flatten(d, "") :: exists path :: IsEntry(d, path) && PathKey(path) == key
    ensures forall path | IsEntry(d, path) :: var key := PathKey(path); var v := EntryAt(d, path).value;
      && key in Flatten(d, "") && Flatten(d, "")[key] == v
      && (Lookup(d, key, index) == NotNull(v) <==> IndexFree(path) || (v.Null? && !EndsAtIndex(path)))
    ensures forall p, q | IsEntry(d, p) && IsEntry(d, q) :: PathKey(p) == PathKey(q) ==> p == q
  {
    forall key | key in Flatten(d, "")
      ensures exists path :: IsEntry(d, path) && PathKey(path) == key
    {
      var path := FlattenedIsEntry(d, "", key);
      assert IsEntry(d, path);
    }
    forall path | IsEntry(d, path)
      ensures var key := PathKey(path); var v := EntryAt(d, path).value;
        && key in Flatten(d, "") && Flatten(d, "")[key] == v
        && (Lookup(d, key, index) == NotNull(v) <==> IndexFree(path) || (v.Null? && !EndsAtIndex(path)))
    {
      EntryValue(d, path);
      LookupSees(d, path, index);
      SeenExactly(d, path);
    }
    forall p, q | IsEntry(d, p) && IsEntry(d, q) && PathKey(p) == PathKey(q)
      ensures p == q
    {
      EntryIsGood(d, p);
      EntryIsGood(d, q);
      KeyOfInjective("", p, q);
    }
  }

  // ----- through `_get_context_value` --------------------------------------

  /** The dictionary holds these entries. */
  ghost predicate Represents(context: Fields, entries: Flat) {
    forall k :: Get(context, k) == if k in entries then Some(entries[k]) else None
  }

  lemma HasSeparator(path: seq<Seg>)
    requires path != [] && GoodPath(path)
    ensures |path| == 1 && path[0].Key? ==> PathKey(path) == path[0].k
    ensures |path| > 1 || path[0].Elem? ==>
      !PlainText(PathKey(path)) && ('.' in PathKey(path) || '[' in PathKey(path))
  {
    if |path| > 1 {
      assert PathKey(path)[|Texts(path)[0]|] == '.';
    } else if path[0].Elem? {
      BracketAt(path[0].k, path[0].i);
    }
  }

  /**
   A key of the flattened message, with or without `$.`: against the flattened message it gives
   the entry; against the message itself what traversing finds, which is the same exactly if
   the key has no index, or both find nothing.
   */
  lemma ContextValueAgrees(d: Fields, path: seq<Seg>, flat: Fields, index: Indexing)
    requires Plain(d) && IsEntry(d, path) && Represents(flat, Flatten(d, ""))
    ensures var key := PathKey(path); var v := EntryAt(d, path).value;
      && ContextValue(flat, "$." + key, index) == NotNull(v)
      && ContextValue(d, "$." + key, index) == Seen(d, path)
      && (ContextValue(d, "$." + key, index) == ContextValue(flat, "$." + key, index) <==>
            IndexFree(path) || (v.Null? && !EndsAtIndex(path)))
      && (!("$" <= key) ==>
            && ContextValue(flat, key, index) == ContextValue(flat, "$." + key, index)
            && ContextValue(d, key, index) == ContextValue(d, "$." + key, index))
  {
    var key := PathKey(path);
    assert ("$." + key)[2..] == key;
    EntryValue(d, path);
    EntryIsGood(d, path);
    LookupSees(d, path, index);
    SeenExactly(d, path);
    HasSeparator(path);
    if HasKey(d, key) { GetPlain(d, key); }
  }
}
