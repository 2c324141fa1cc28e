/**
 The rule loader: rules from a directory, sorted and indexed by input destination, and
 hot reload by comparing the set of files and their hashes.
 */
module ConfigLoader {
  import opened Util
  import opened Ordering
  import opened Rules

  type Path = seq<string>     // its parts
  type Content = string
  type Hash = string
  type Index = map<string, seq<Rule>>

  // ----- the topic index ---------------------------------------------------

  function IndexedRules(index: Index, destination: string): seq<Rule> {
    if destination in index then index[destination] else []
  }

  /** The index is the rule list, filtered by destination. */
  ghost predicate Indexes(index: Index, rules: seq<Rule>) {
    && (forall t :: IndexedRules(index, t) == Filter(ListensOn(t), rules))
    && (forall t | t in index :: index[t] != [])
  }

  // ----- directories -------------------------------------------------------

  /** A directory tree: the files in the order a walk finds them; unreadable ones have no content. */
  datatype Dir = Dir(found: seq<Path>, content: map<Path, Option<Content>>)

  predicate WellFormed(dir: Dir) {
    NoDuplicates(dir.found) && forall p | p in dir.found :: p in dir.content
  }

  predicate EndsWith(s: string, suffix: string) {
    |s| >= |suffix| && s[|s| - |suffix|..] == suffix
  }

  predicate IsYaml(p: Path) { p != [] && EndsWith(p[|p| - 1], ".yaml") }
  predicate IsYml(p: Path) { p != [] && EndsWith(p[|p| - 1], ".yml") }

  const SPECIAL_DIRS := {"topic-config", "custom_placeholders", "http-config", "jms-config", "db-config"}

  /** Not in a directory that another loader handles. */
  predicate Ours(p: Path) { forall i | 0 <= i < |p| :: p[i] !in SPECIAL_DIRS }

  predicate OurYaml(p: Path) { IsYaml(p) && Ours(p) }
  predicate OurYml(p: Path) { IsYml(p) && Ours(p) }

  predicate PathLe(a: Path, b: Path) { Lex(CompareStrings, a, b) <= 0 }

  lemma PathOrder()
    ensures Preorder(PathLe) && forall a, b :: PathLe(a, b) && PathLe(b, a) ==> a == b
  {
    StringsTotal();
    forall a, b
      ensures PathLe(a, b) || PathLe(b, a)
      ensures PathLe(a, b) && PathLe(b, a) ==> a == b
    {
      LexFlip(CompareStrings, a, b);
      LexFlip(CompareStrings, b, a);
    }
    forall a, b, c | PathLe(a, b) && PathLe(b, c)
      ensures PathLe(a, c)
    {
      LexFlip(CompareStrings, a, b);
      LexFlip(CompareStrings, b, c);
      if a != b && b != c { LexTransitive(CompareStrings, a, b, c); }
    }
  }

  /** The rule files in the order they are loaded: .yaml before .yml, each sorted by path. */
  function LoadOrder(dir: Dir): seq<Path> {
    Sort(PathLe, Filter(OurYaml, dir.found)) + Sort(PathLe, Filter(OurYml, dir.found))
  }

  /** The rule files in the order the walk finds them. */
  function RuleFiles(dir: Dir): (files: seq<Path>)
    ensures forall p | p in files :: p in dir.found
  {
    Filter(OurYaml, dir.found) + Filter(OurYml, dir.found)
  }

  /** Sorting and then skipping is skipping and then sorting. */
  lemma SkipAfterSort(dir: Dir)
    ensures Filter(Ours, Sort(PathLe, Filter(IsYaml, dir.found)) + Sort(PathLe, Filter(IsYml, dir.found)))
      == LoadOrder(dir)
    ensures Filter(Ours, Filter(IsYaml, dir.found) + Filter(IsYml, dir.found)) == RuleFiles(dir)
  {
    PathOrder();
    var yaml, yml := Filter(IsYaml, dir.found), Filter(IsYml, dir.found);
    FilterConcat(Ours, Sort(PathLe, yaml), Sort(PathLe, yml));
    FilterConcat(Ours, yaml, yml);
    FilterSort(PathLe, Ours, yaml);
    FilterSort(PathLe, Ours, yml);
    FilterTwice(Ours, IsYaml, OurYaml, dir.found);
    FilterTwice(Ours, IsYml, OurYml, dir.found);
  }

  lemma RuleFilesAre(dir: Dir, p: Path)
    ensures p in RuleFiles(dir) <==> p in dir.found && Ours(p) && (IsYaml(p) || IsYml(p))
    ensures p in LoadOrder(dir) <==> p in RuleFiles(dir)
  {
    var yaml, yml := Filter(OurYaml, dir.found), Filter(OurYml, dir.found);
    assert p in Sort(PathLe, yaml) <==> p in multiset(yaml);
    assert p in Sort(PathLe, yml) <==> p in multiset(yml);
  }

  /** At the first part that differs, the one of `a` comes before that of `b`; or `a` is a proper beginning of `b`. */
  ghost predicate PathBefore(a: Path, b: Path) {
    || (exists i | 0 <= i < |a| && i < |b| :: a[..i] == b[..i] && Before(a[i], b[i]))
    || (|a| < |b| && a == b[..|a|])
  }

  lemma PathsCompared(a: Path, b: Path)
    ensures PathLe(a, b) <==> PathBefore(a, b) || a == b
  {
    StringsTotal();
    LexParts(CompareStrings, a, b);
    LexFlip(CompareStrings, a, b);
    forall i | 0 <= i < |a| && i < |b|
      ensures CompareStrings(a[i], b[i]) < 0 <==> Before(a[i], b[i])
    {
      StringsCompared(a[i], b[i]);
    }
  }

  /** A file name with this extension. */
  ghost predicate HasExtension(p: Path, extension: string) {
    exists stem: string :: p != [] && p[|p| - 1] == stem + extension
  }

  lemma EndsWithExtension(p: Path)
    ensures IsYaml(p) <==> HasExtension(p, ".yaml")
    ensures IsYml(p) <==> HasExtension(p, ".yml")
  {
    if p != [] {
      var name := p[|p| - 1];
      forall suffix: string
        ensures EndsWith(name, suffix) <==> exists stem: string :: name == stem + suffix
      {
        if EndsWith(name, suffix) { assert name == name[..|name| - |suffix|] + suffix; }
      }
    }
  }

  /** Is file `a` loaded before file `b`? */
  ghost predicate LoadedBefore(a: Path, b: Path) {
    || (HasExtension(a, ".yaml") && HasExtension(b, ".yml"))
    || (HasExtension(a, ".yaml") && HasExtension(b, ".yaml") && (PathBefore(a, b) || a == b))
    || (HasExtension(a, ".yml") && HasExtension(b, ".yml") && (PathBefore(a, b) || a == b))
  }

  /** Which files are loaded. */
  lemma LoadedFilesAre(dir: Dir, p: Path)
    ensures p in LoadOrder(dir) <==>
      && p in dir.found && (HasExtension(p, ".yaml") || HasExtension(p, ".yml"))
      && "topic-config" !in p && "custom_placeholders" !in p && "http-config" !in p && "jms-config" !in p
      && "db-config" !in p
  {
    RuleFilesAre(dir, p);
    EndsWithExtension(p);
  }

  ghost predicate InPathOrder(files: seq<Path>) {
    forall i, j | 0 <= i < j < |files| :: PathBefore(files[i], files[j]) || files[i] == files[j]
  }

  ghost predicate AllHave(files: seq<Path>, extension: string) {
    forall i | 0 <= i < |files| :: HasExtension(files[i], extension)
  }

  lemma SortedFiles(files: seq<Path>, extension: string)
    requires AllHave(files, extension)
    ensures InPathOrder(Sort(PathLe, files)) && AllHave(Sort(PathLe, files), extension)
  {
    PathOrder();
    SortOrdered(PathLe, files);
    var s := Sort(PathLe, files);
    forall i | 0 <= i < |s|
      ensures HasExtension(s[i], extension)
    {
      assert s[i] in multiset(files);
    }
    forall i, j | 0 <= i < j < |s|
      ensures PathBefore(s[i], s[j]) || s[i] == s[j]
    {
      PathsCompared(s[i], s[j]);
    }
  }

  lemma OneAfterTheOther(yaml: seq<Path>, yml: seq<Path>)
    requires AllHave(yaml, ".yaml") && AllHave(yml, ".yml") && InPathOrder(yaml) && InPathOrder(yml)
    ensures var files := yaml + yml;
      forall i, j | 0 <= i < j < |files| :: LoadedBefore(files[i], files[j])
  {
    hide HasExtension, PathBefore;
    var files, n := yaml + yml, |yaml|;
    forall i, j | 0 <= i < j < |files|
      ensures LoadedBefore(files[i], files[j])
    {
      assert files[i] == if i < n then yaml[i] else yml[i - n];
      assert files[j] == if j < n then yaml[j] else yml[j - n];
    }
  }

  lemma KindHasExtension(dir: Dir)
    ensures AllHave(Filter(OurYaml, dir.found), ".yaml") && AllHave(Filter(OurYml, dir.found), ".yml")
  {
    forall p
      ensures IsYaml(p) ==> HasExtension(p, ".yaml")
      ensures IsYml(p) ==> HasExtension(p, ".yml")
    {
      EndsWithExtension(p);
    }
    hide HasExtension;
    var yaml, yml := Filter(OurYaml, dir.found), Filter(OurYml, dir.found);
    assert forall i | 0 <= i < |yaml| :: yaml[i] in yaml;
    assert forall i | 0 <= i < |yml| :: yml[i] in yml;
  }

  /** In which order they are loaded. */
  lemma LoadOrderIs(dir: Dir)
    ensures var files := LoadOrder(dir);
      forall i, j | 0 <= i < j < |files| :: LoadedBefore(files[i], files[j])
  {
    KindHasExtension(dir);
    hide AllHave, InPathOrder, LoadedBefore;
    SortedFiles(Filter(OurYaml, dir.found), ".yaml");
    SortedFiles(Filter(OurYml, dir.found), ".yml");
    OneAfterTheOther(Sort(PathLe, Filter(OurYaml, dir.found)), Sort(PathLe, Filter(OurYml, dir.found)));
  }

  // ----- loading -----------------------------------------------------------

  /** YAML parsing (None: it raises) and the hash of a file. */
  datatype Env = Env(parse: (Path, Content) -> Option<seq<Rule>>, hash: Content -> Hash)

  function Parsed(env: Env, dir: Dir, p: Path): Option<seq<Rule>> {
    if p in dir.content && dir.content[p].Some? then env.parse(p, dir.content[p].value) else None
  }

  /** The rules of some files, one file after the other; files that fail to load have none. */
  function RulesOf(env: Env, dir: Dir, files: seq<Path>): seq<Rule> {
    if files == [] then []
    else
      var rules := Parsed(env, dir, files[0]);
      (if rules.Some? then rules.value else []) + RulesOf(env, dir, files[1..])
  }

  /** A fresh load of the directory. */
  function Load(env: Env, dir: Dir): seq<Rule> {
    SortRules(RulesOf(env, dir, LoadOrder(dir)))
  }

  /** The hashes of the files that load. */
  ghost predicate HashesOf(env: Env, dir: Dir, files: seq<Path>, hashes: map<Path, Hash>) {
    && (forall p :: p in hashes <==> p in files && Parsed(env, dir, p).Some?)
    && (forall p | p in hashes :: hashes[p] == env.hash(dir.content[p].value))
  }

  lemma {:induction false} RulesOfAppend(env: Env, dir: Dir, a: seq<Path>, b: seq<Path>)
    ensures RulesOf(env, dir, a + b) == RulesOf(env, dir, a) + RulesOf(env, dir, b)
  {
    if a == [] {
      assert a + b == b;
    } else {
      RulesOfAppend(env, dir, a[1..], b);
      assert (a + b)[1..] == a[1..] + b;
    }
  }

  // ----- what a check finds ------------------------------------------------

  /** Compare files with their hashes until one differs; its new hash is remembered. */
  function Compare(env: Env, hashes: map<Path, Hash>, dir: Dir, files: seq<Path>): (map<Path, Hash>, bool)
    requires forall p | p in files :: p in dir.content
  {
    if files == [] then (hashes, false)
    else
      var p := files[0];
      if dir.content[p].None? then (hashes, true)
      else
        var h := env.hash(dir.content[p].value);
        if p in hashes && hashes[p] == h then Compare(env, hashes, dir, files[1..])
        else (hashes[p := h], true)
  }

  function Elements(files: seq<Path>): set<Path> { set p | p in files }

  /** The hashes after a check, and whether it reports a change. */
  function Check(env: Env, hashes: map<Path, Hash>, dir: Dir): (map<Path, Hash>, bool)
    requires WellFormed(dir)
  {
    var current := Elements(RuleFiles(dir));
    if hashes.Keys - current != {} then (hashes - (hashes.Keys - current), true)
    else if current - hashes.Keys != {} then (hashes, true)
    else Compare(env, hashes, dir, RuleFiles(dir))
  }

  class ConfigLoader {
    const env: Env
    const reloadInterval: real
    var rules: seq<Rule>
    var rulesByInputTopic: Index
    var fileHashes: map<Path, Hash>
    var lastReload: real

    /** The rules are sorted and the index agrees with them. */
    ghost predicate Valid()
      reads this`rules, this`rulesByInputTopic
    {
      Ordered(RuleLe, rules) && Indexes(rulesByInputTopic, rules)
    }

    /** Nothing has happened since `dir` was loaded. */
    ghost predicate Loaded(dir: Dir)
      reads this`rules, this`rulesByInputTopic, this`fileHashes
    {
      Valid() && rules == Load(env, dir) && HashesOf(env, dir, LoadOrder(dir), fileHashes)
    }

    constructor (env: Env, reloadInterval: real, now: real, dir: Dir)
      requires WellFormed(dir)
      ensures this.env == env && this.reloadInterval == reloadInterval && lastReload == now && Loaded(dir)
    {
      this.env, this.reloadInterval, this.lastReload := env, reloadInterval, now;
      rules, rulesByInputTopic, fileHashes := [], map[], map[];
      new;
      Reload(dir);
    }

    method RebuildTopicIndex()
      modifies this`rulesByInputTopic
      ensures Indexes(rulesByInputTopic, rules)
    {
      rulesByInputTopic := map[];
      for i := 0 to |rules|
        invariant Indexes(rulesByInputTopic, rules[..i])
      {
        ghost var before := rulesByInputTopic;
        var rule := rules[i];
        if rule.destination !in rulesByInputTopic {
          rulesByInputTopic := rulesByInputTopic[rule.destination := []];
        }
        rulesByInputTopic := rulesByInputTopic[rule.destination := rulesByInputTopic[rule.destination] + [rule]];
        assert rules[..i + 1] == rules[..i] + [rule];
        forall t
          ensures IndexedRules(rulesByInputTopic, t) == Filter(ListensOn(t), rules[..i + 1])
        {
          FilterOneMore(ListensOn(t), rules[..i], rule);
          hide Filter;
        }
      }
      assert rules[..|rules|] == rules;
    }

    /** `reload`: the state is that of a fresh load. */
    method Reload(dir: Dir)
      requires WellFormed(dir)
      modifies this`rules, this`rulesByInputTopic, this`fileHashes
      ensures Loaded(dir) && InOrder(rules)
    {
      var listed := Sort(PathLe, Filter(IsYaml, dir.found)) + Sort(PathLe, Filter(IsYml, dir.found));
      var yamlFiles := SkipSpecial(listed);
      SkipAfterSort(dir);
      var newRules, newFileHashes := LoadFiles(env, dir, yamlFiles);
      hide Filter, Sort, RuleFiles;
      RulePreorder();
      SortOrdered(RuleLe, newRules);
      rules := SortRules(newRules);
      fileHashes := newFileHashes;
      RebuildTopicIndex();
      OrderedInOrder(rules);
    }

    /** `_check_files_changed` */
    method CheckFilesChanged(dir: Dir) returns (changed: bool)
      requires WellFormed(dir)
      modifies this`fileHashes
      ensures (fileHashes, changed) == Check(env, old(fileHashes), dir)
    {
      hide Filter, Ours, IsYaml, IsYml, Elements;
      var yamlFiles := SkipSpecial(Filter(IsYaml, dir.found) + Filter(IsYml, dir.found));
      SkipAfterSort(dir);
      var currentFiles, trackedFiles := Elements(yamlFiles), fileHashes.Keys;
      var removedFiles := trackedFiles - currentFiles;
      if removedFiles != {} {
        fileHashes := fileHashes - removedFiles;
        return true;
      }
      if currentFiles - trackedFiles != {} {
        return true;
      }
      for i := 0 to |yamlFiles|
        invariant fileHashes == old(fileHashes)
        invariant Compare(env, fileHashes, dir, yamlFiles) == Compare(env, fileHashes, dir, yamlFiles[i..])
      {
        var p := yamlFiles[i];
        assert yamlFiles[i..][0] == p && yamlFiles[i..][1..] == yamlFiles[i + 1..];
        if dir.content[p].None? {
          return true;   // OSError
        }
        var currentHash := env.hash(dir.content[p].value);
        if p !in fileHashes || currentHash != fileHashes[p] {
          fileHashes := fileHashes[p := currentHash];
          return true;
        }
      }
      return false;
    }

    /** `check_and_reload` at time `now`: at most once per interval. */
    method CheckAndReload(now: real, dir: Dir, ghost last: Dir) returns (reloaded: bool)
      requires WellFormed(dir) && WellFormed(last) && Loaded(last)
      requires forall a, b :: env.hash(a) == env.hash(b) ==> a == b
      modifies this
      ensures now - old(lastReload) < reloadInterval ==> !reloaded && unchanged(this)
      ensures now - old(lastReload) >= reloadInterval ==>
        lastReload == now && Loaded(dir) && (reloaded <==> !SameFiles(env, last, dir))
    {
      if now - lastReload < reloadInterval {
        return false;
      }
      hide Loaded, SameFiles, WellFormed;
      reloaded := ReloadIfChanged(dir, last);
      lastReload := now;
    }

    method ReloadIfChanged(dir: Dir, ghost last: Dir) returns (reloaded: bool)
      requires WellFormed(dir) && WellFormed(last) && Loaded(last)
      requires forall a, b :: env.hash(a) == env.hash(b) ==> a == b
      modifies this`rules, this`rulesByInputTopic, this`fileHashes
      ensures Loaded(dir) && (reloaded <==> !SameFiles(env, last, dir))
    {
      NoChangeMeansSameFiles(env, last, fileHashes, dir);
      reloaded := CheckFilesChanged(dir);
      if reloaded {
        Reload(dir);
      } else {
        SameFilesSameLoad(env, last, dir, fileHashes);
      }
    }

    /** Any number of polls, each of the directory as it is by then. */
    method Poll(polls: seq<(real, Dir)>, ghost first: Dir)
      requires WellFormed(first) && Loaded(first) && forall i | 0 <= i < |polls| :: WellFormed(polls[i].1)
      requires forall a, b :: env.hash(a) == env.hash(b) ==> a == b
      modifies this
      ensures var (at, dir) := Seen(reloadInterval, old(lastReload), first, polls); lastReload == at && Loaded(dir)
    {
      ghost var seen := (lastReload, first);
      for i := 0 to |polls|
        invariant seen == Seen(reloadInterval, old(lastReload), first, polls[..i])
        invariant WellFormed(seen.1) && lastReload == seen.0 && Loaded(seen.1)
      {
        hide Loaded;
        assert polls[..i + 1][..i] == polls[..i];
        var (now, dir) := polls[i];
        var _ := CheckAndReload(now, dir, seen.1);
        seen := if now - seen.0 < reloadInterval then seen else (now, dir);
      }
      assert polls[..|polls|] == polls;
    }

    method GetRulesForTopic(inputTopic: string) returns (r: seq<Rule>)
      requires Valid()
      ensures r == Filter(ListensOn(inputTopic), rules) && InOrder(r)
    {
      var found := if inputTopic in rulesByInputTopic then rulesByInputTopic[inputTopic] else [];
      assert found == IndexedRules(rulesByInputTopic, inputTopic);
      FilterOrdered(RuleLe, ListensOn(inputTopic), rules);
      SortSorted(RuleLe, found);
      r := SortRules(found);
      OrderedInOrder(found);
    }

    method GetAllRules() returns (r: seq<Rule>)
      requires Valid()
      ensures r == rules && InOrder(r)
    {
      SortSorted(RuleLe, rules);
      r := SortRules(rules);
      OrderedInOrder(rules);
    }
  }

  /** Skip the directories that other loaders handle. */
  method SkipSpecial(listed: seq<Path>) returns (yamlFiles: seq<Path>)
    ensures yamlFiles == Filter(Ours, listed)
  {
    yamlFiles := [];
    for i := 0 to |listed|
      invariant yamlFiles == Filter(Ours, listed[..i])
    {
      assert listed[..i + 1] == listed[..i] + [listed[i]];
      FilterOneMore(Ours, listed[..i], listed[i]);
      hide Filter;
      if exists d | d in SPECIAL_DIRS :: d in listed[i] {
        continue;
      }
      yamlFiles := yamlFiles + [listed[i]];
    }
    assert listed[..|listed|] == listed;
  }

  /** The loop of `reload`: a file that fails to load has no rules and no hash. */
  method LoadFiles(env: Env, dir: Dir, files: seq<Path>) returns (newRules: seq<Rule>, newFileHashes: map<Path, Hash>)
    ensures newRules == RulesOf(env, dir, files) && HashesOf(env, dir, files, newFileHashes)
  {
    newRules, newFileHashes := [], map[];
    for i := 0 to |files|
      invariant newRules == RulesOf(env, dir, files[..i])
      invariant HashesOf(env, dir, files[..i], newFileHashes)
    {
      var p := files[i];
      assert files[..i + 1] == files[..i] + [p];
      OneMoreFile(env, dir, files[..i], p, newFileHashes);
      var loaded := Parsed(env, dir, p);
      if loaded.Some? {
        newRules := newRules + loaded.value;
        newFileHashes := newFileHashes[p := env.hash(dir.content[p].value)];
      }
    }
    assert files[..|files|] == files;
  }

  lemma OneMoreFile(env: Env, dir: Dir, files: seq<Path>, p: Path, hashes: map<Path, Hash>)
    requires HashesOf(env, dir, files, hashes)
    ensures var loaded := Parsed(env, dir, p);
      && RulesOf(env, dir, files + [p]) == RulesOf(env, dir, files) + (if loaded.Some? then loaded.value else [])
      && HashesOf(env, dir, files + [p], if loaded.Some? then hashes[p := env.hash(dir.content[p].value)] else hashes)
  {
    RulesOfAppend(env, dir, files, [p]);
    assert [p][1..] == [];
    assert forall q :: q in files + [p] <==> q in files || q == p;
  }

  // ----- hot reload is never stale -----------------------------------------

  /** The rule files of `dir` are those of `last` that could be loaded, with the same content. */
  ghost predicate SameFiles(env: Env, last: Dir, dir: Dir) {
    && (forall p :: p in RuleFiles(dir) <==> p in RuleFiles(last) && Parsed(env, last, p).Some?)
    && (forall p | p in RuleFiles(dir) :: p in dir.content && dir.content[p] == last.content[p])
  }

  lemma {:induction false} CompareFinds(env: Env, hashes: map<Path, Hash>, dir: Dir, files: seq<Path>)
    requires forall p | p in files :: p in dir.content
    ensures Compare(env, hashes, dir, files).1 <==>
      exists p | p in files :: dir.content[p].None? || p !in hashes || hashes[p] != env.hash(dir.content[p].value)
    ensures !Compare(env, hashes, dir, files).1 ==> Compare(env, hashes, dir, files).0 == hashes
  {
    if files == [] {
    } else {
      CompareFinds(env, hashes, dir, files[1..]);
      assert forall p | p in files :: p == files[0] || p in files[1..];
    }
  }

  /** A check reports no change exactly when every file has the hash that is remembered, and no others are. */
  lemma CheckFinds(env: Env, hashes: map<Path, Hash>, dir: Dir)
    requires WellFormed(dir)
    ensures !Check(env, hashes, dir).1 <==>
      && (forall p :: p in RuleFiles(dir) <==> p in hashes)
      && (forall p | p in RuleFiles(dir) :: dir.content[p].Some? && hashes[p] == env.hash(dir.content[p].value))
    ensures !Check(env, hashes, dir).1 ==> Check(env, hashes, dir).0 == hashes
  {
    CompareFinds(env, hashes, dir, RuleFiles(dir));
    var current := Elements(RuleFiles(dir));
    assert hashes.Keys == current <==> hashes.Keys - current == {} && current - hashes.Keys == {};
    assert hashes.Keys == current <==> forall p :: p in RuleFiles(dir) <==> p in hashes;
  }

  /** After loading `last`, a check reports no change exactly when the files are the same. */
  lemma NoChangeMeansSameFiles(env: Env, last: Dir, hashes: map<Path, Hash>, dir: Dir)
    requires WellFormed(last) && WellFormed(dir) && HashesOf(env, last, LoadOrder(last), hashes)
    requires forall a, b :: env.hash(a) == env.hash(b) ==> a == b
    ensures !Check(env, hashes, dir).1 <==> SameFiles(env, last, dir)
    ensures !Check(env, hashes, dir).1 ==> Check(env, hashes, dir).0 == hashes
  {
    CheckFinds(env, hashes, dir);
    forall p
      ensures p in hashes <==> p in RuleFiles(last) && Parsed(env, last, p).Some?
    {
      RuleFilesAre(last, p);
    }
    if forall p :: p in RuleFiles(dir) <==> p in hashes {
      forall p | p in RuleFiles(dir)
        ensures dir.content[p].Some? && hashes[p] == env.hash(dir.content[p].value) <==>
          dir.content[p] == last.content[p]
      {
        assert hashes[p] == env.hash(last.content[p].value);
      }
    }
  }

  /** Whether a file of `dir` can be loaded. */
  function Loads(env: Env, dir: Dir): Path -> bool {
    p => Parsed(env, dir, p).Some?
  }

  lemma {:induction false} FailedFilesHaveNoRules(env: Env, dir: Dir, files: seq<Path>)
    ensures RulesOf(env, dir, files) == RulesOf(env, dir, Filter(Loads(env, dir), files))
  {
    if files == [] {
    } else {
      FailedFilesHaveNoRules(env, dir, files[1..]);
      var f := Filter(Loads(env, dir), files[1..]);
      assert ([files[0]] + f)[1..] == f;
    }
  }

  lemma {:induction false} SameContentSameRules(env: Env, a: Dir, b: Dir, files: seq<Path>)
    requires forall p | p in files :: p in a.content && p in b.content && a.content[p] == b.content[p]
    ensures RulesOf(env, a, files) == RulesOf(env, b, files)
  {
    if files == [] {
    } else {
      SameContentSameRules(env, a, b, files[1..]);
    }
  }

  /** The same files are sorted the same way, whatever order the walk finds them in. */
  lemma SameFilesSameOrder(kind: Path -> bool, keep: Path -> bool, s: seq<Path>, t: seq<Path>)
    requires NoDuplicates(s) && NoDuplicates(t)
    requires forall p :: (p in s && kind(p) && keep(p)) <==> (p in t && kind(p))
    ensures Filter(keep, Sort(PathLe, Filter(kind, s))) == Sort(PathLe, Filter(kind, t))
  {
    PathOrder();
    FilterSort(PathLe, keep, Filter(kind, s));
    var u, v := Filter(keep, Filter(kind, s)), Filter(kind, t);
    FilterNoDuplicates(kind, s);
    FilterNoDuplicates(keep, Filter(kind, s));
    FilterNoDuplicates(kind, t);
    SameElements(u, v);
    SortOrdered(PathLe, u);
    SortOrdered(PathLe, v);
    OrderedUnique(PathLe, Sort(PathLe, u), Sort(PathLe, v));
  }

  lemma SameLoadOrder(env: Env, last: Dir, dir: Dir)
    requires WellFormed(last) && WellFormed(dir) && SameFiles(env, last, dir)
    ensures Filter(Loads(env, last), LoadOrder(last)) == LoadOrder(dir)
  {
    var keep := Loads(env, last);
    forall p
      ensures p in RuleFiles(dir) <==> p in dir.found && Ours(p) && (IsYaml(p) || IsYml(p))
      ensures p in RuleFiles(last) <==> p in last.found && Ours(p) && (IsYaml(p) || IsYml(p))
    {
      RuleFilesAre(dir, p);
      RuleFilesAre(last, p);
    }
    SameFilesSameOrder(OurYaml, keep, last.found, dir.found);
    SameFilesSameOrder(OurYml, keep, last.found, dir.found);
    FilterConcat(keep, Sort(PathLe, Filter(OurYaml, last.found)), Sort(PathLe, Filter(OurYml, last.found)));
  }

  /** If the files are the same, loading again changes nothing. */
  lemma SameFilesSameLoad(env: Env, last: Dir, dir: Dir, hashes: map<Path, Hash>)
    requires WellFormed(last) && WellFormed(dir) && SameFiles(env, last, dir)
      && HashesOf(env, last, LoadOrder(last), hashes)
    ensures Load(env, last) == Load(env, dir) && HashesOf(env, dir, LoadOrder(dir), hashes)
  {
    SameLoadOrder(env, last, dir);
    forall p | p in LoadOrder(dir)
      ensures p in RuleFiles(dir)
    {
      RuleFilesAre(dir, p);
    }
    FailedFilesHaveNoRules(env, last, LoadOrder(last));
    SameContentSameRules(env, last, dir, LoadOrder(dir));
  }

  /** When the last poll that was due came, and what it saw. */
  function Seen(interval: real, start: real, first: Dir, polls: seq<(real, Dir)>): (real, Dir) {
    if polls == [] then (start, first)
    else
      var (now, dir) := polls[|polls| - 1];
      var (at, seen) := Seen(interval, start, first, polls[..|polls| - 1]);
      if now - at < interval then (at, seen) else (now, dir)
  }

  /** What is in memory is less than one interval old at every poll, whatever the others were. */
  lemma {:induction false} MemoryIsRecent(interval: real, start: real, first: Dir, polls: seq<(real, Dir)>)
    requires interval > 0.0 && polls != []
    ensures var (at, seen) := Seen(interval, start, first, polls);
      && polls[|polls| - 1].0 < at + interval
      && (seen == first || exists i | 0 <= i < |polls| :: polls[i] == (at, seen))
  {
    if |polls| > 1 {
      var most := polls[..|polls| - 1];
      MemoryIsRecent(interval, start, first, most);
      assert forall i | 0 <= i < |most| :: most[i] == polls[i];
    } else {
      assert polls[..0] == [];
    }
  }

  // ----- checks without a reload -------------------------------------------

  /** The remembered hash of a readable file is not its hash. */
  predicate Outdated(env: Env, hashes: map<Path, Hash>, dir: Dir, p: Path) {
    p in hashes && p in dir.content && dir.content[p].Some? && hashes[p] != env.hash(dir.content[p].value)
  }

  /** A comparison that reports a change has met an unreadable or unknown file, or remembered one new hash. */
  lemma {:induction false} CompareRemembers(env: Env, hashes: map<Path, Hash>, dir: Dir, files: seq<Path>)
    requires forall p | p in files :: p in dir.content && p in hashes
    ensures var (after, changed) := Compare(env, hashes, dir, files);
      changed ==>
        || (after == hashes && exists p | p in files :: dir.content[p].None?)
        || (exists p | p in files ::
              Outdated(env, hashes, dir, p) && after == hashes[p := env.hash(dir.content[p].value)])
  {
    if files == [] {
    } else if dir.content[files[0]].None? || Outdated(env, hashes, dir, files[0]) {
      assert files[0] in files;
    } else {
      CompareRemembers(env, hashes, dir, files[1..]);
      assert forall p | p in files[1..] :: p in files;
    }
  }

  lemma SecondComparison(env: Env, hashes: map<Path, Hash>, dir: Dir)
    requires WellFormed(dir) && hashes.Keys == Elements(RuleFiles(dir))
    ensures !Check(env, Check(env, hashes, dir).0, dir).1 <==>
      && (forall p | p in RuleFiles(dir) :: dir.content[p].Some?)
      && (forall p, q | p in RuleFiles(dir) && q in RuleFiles(dir) ::
            Outdated(env, hashes, dir, p) && Outdated(env, hashes, dir, q) ==> p == q)
  {
    var files := RuleFiles(dir);
    var (after, changed) := Compare(env, hashes, dir, files);
    assert hashes.Keys - Elements(files) == {} && Elements(files) - hashes.Keys == {};
    assert Check(env, hashes, dir) == (after, changed);
    forall p | p in files ensures p in hashes { assert p in Elements(files); }
    CheckFinds(env, hashes, dir);
    CompareRemembers(env, hashes, dir, files);
    CheckFinds(env, after, dir);
    if changed && after != hashes {
      var p :| p in files && Outdated(env, hashes, dir, p) && after == hashes[p := env.hash(dir.content[p].value)];
      OneRemembered(env, hashes, dir, p);
    }
  }

  /** A second comparison finds what is still outdated once one new hash has been remembered. */
  lemma OneRemembered(env: Env, hashes: map<Path, Hash>, dir: Dir, p: Path)
    requires WellFormed(dir) && hashes.Keys == Elements(RuleFiles(dir))
    requires p in RuleFiles(dir) && Outdated(env, hashes, dir, p)
    ensures var after := hashes[p := env.hash(dir.content[p].value)];
      !Check(env, after, dir).1 <==>
        && (forall q | q in RuleFiles(dir) :: dir.content[q].Some?)
        && (forall q | q in RuleFiles(dir) && Outdated(env, hashes, dir, q) :: q == p)
  {
    var after := hashes[p := env.hash(dir.content[p].value)];
    CheckFinds(env, after, dir);
    forall q | q in RuleFiles(dir)
      ensures q in hashes
      ensures q != p && dir.content[q].Some? ==>
        (Outdated(env, hashes, dir, q) <==> after[q] != env.hash(dir.content[q].value))
    {
      assert q in Elements(RuleFiles(dir));
    }
  }

  /** Removed files are forgotten, and no hash is compared. */
  lemma SecondAfterRemoval(env: Env, hashes: map<Path, Hash>, dir: Dir)
    requires WellFormed(dir) && hashes.Keys - Elements(RuleFiles(dir)) != {}
    ensures !Check(env, Check(env, hashes, dir).0, dir).1 <==>
      (forall p | p in RuleFiles(dir) :: p in hashes && dir.content[p].Some? && !Outdated(env, hashes, dir, p))
  {
    var current := Elements(RuleFiles(dir));
    var after := hashes - (hashes.Keys - current);
    assert Check(env, hashes, dir).0 == after;
    hide Check;
    CheckFinds(env, after, dir);
    assert forall p :: p in after <==> p in hashes && p in current;
  }

  /** A new file is reported again, and nothing is remembered. */
  lemma SecondAfterNew(env: Env, hashes: map<Path, Hash>, dir: Dir)
    requires WellFormed(dir)
    requires hashes.Keys - Elements(RuleFiles(dir)) == {} && Elements(RuleFiles(dir)) - hashes.Keys != {}
    ensures Check(env, Check(env, hashes, dir).0, dir).1 && exists p :: p in RuleFiles(dir) && p !in hashes
  {
    var p :| p in Elements(RuleFiles(dir)) - hashes.Keys;
    assert p in RuleFiles(dir);
  }

  /**
   Called again without a reload in between, `_check_files_changed` is silent exactly if there
   is no new file, every file is readable, and at most one hash was outdated: the first call
   remembers the first new hash it meets.  If it found removed files it compared no hashes.
   */
  lemma SecondCheckSilentExactly(env: Env, hashes: map<Path, Hash>, dir: Dir)
    requires WellFormed(dir)
    ensures !Check(env, Check(env, hashes, dir).0, dir).1 <==>
      && (forall p | p in RuleFiles(dir) :: p in hashes && dir.content[p].Some?)
      && (forall p, q | p in RuleFiles(dir) && q in RuleFiles(dir) ::
            Outdated(env, hashes, dir, p) && Outdated(env, hashes, dir, q) ==>
              p == q && hashes.Keys <= Elements(RuleFiles(dir)))
  {
    hide Check, Outdated;
    var current := Elements(RuleFiles(dir));
    if hashes.Keys - current != {} {
      assert !(hashes.Keys <= current);
      SecondAfterRemoval(env, hashes, dir);
    } else if current - hashes.Keys != {} {
      SecondAfterNew(env, hashes, dir);
    } else {
      assert hashes.Keys == current;
      SecondComparison(env, hashes, dir);
      forall p | p in RuleFiles(dir)
        ensures p in hashes
      {
        assert p in current;
      }
    }
  }
}
