/**
 The registry of active HTTP stubs: a dictionary by stub id in insertion order, and an
 index by test.  Requests are answered by the first stub that matches, which records
 the call.  With fresh ids both indexes tell the same story, and cleaning up a test
 leaves no trace of it.
 */
module StubCache {
  import opened Util
  import opened Conditions
  import PathPattern

  type StubId = string
  type TestId = string
  type Params = map<string, string>

  datatype HttpStubCall = HttpStubCall(timestamp: real, request: Request, pathParams: Params)

  class HttpStub {
    const stubId: StubId
    const serverName: string
    const pathPattern: string
    const verb: string
    const matchConditions: seq<Condition>
    const expectedTimes: int
    var calls: seq<HttpStubCall>
    var event: bool

    /** A pattern that does not compile raises, and there is no stub. */
    constructor (stubId: StubId, serverName: string, pathPattern: string, verb: string,
                 matchConditions: seq<Condition>, expectedTimes: int)
      requires PathPattern.Compile(pathPattern).Some?
      ensures this.stubId == stubId && this.serverName == serverName && this.pathPattern == pathPattern
      ensures this.verb == verb && this.matchConditions == matchConditions && this.expectedTimes == expectedTimes
      ensures calls == [] && !event
    {
      this.stubId, this.serverName, this.pathPattern := stubId, serverName, pathPattern;
      this.verb, this.matchConditions, this.expectedTimes := verb, matchConditions, expectedTimes;
      calls, event := [], false;
    }

    /** `record_call`, run by one thread at a time (module StubSignal has many). */
    method RecordCall(call: HttpStubCall)
      modifies this
      ensures calls == old(calls) + [call]
      ensures event == (old(event) || |calls| >= expectedTimes)
    {
      calls := calls + [call];
      var callCount := |calls|;
      if callCount >= expectedTimes {
        event := true;
      }
    }
  }

  // ----- dictionaries ------------------------------------------------------

  datatype Registry = Registry(stubs: seq<HttpStub>, byTest: map<TestId, seq<StubId>>)

  /** `stubs[stub.stub_id] = stub`: a known id keeps its position. */
  function Put(stubs: seq<HttpStub>, stub: HttpStub): seq<HttpStub> {
    if stubs == [] then [stub]
    else if stubs[0].stubId == stub.stubId then [stub] + stubs[1..]
    else [stubs[0]] + Put(stubs[1..], stub)
  }

  /** `stubs.pop(id, None)` */
  function Drop(stubs: seq<HttpStub>, id: StubId): seq<HttpStub> {
    if stubs == [] then []
    else if stubs[0].stubId == id then stubs[1..]
    else [stubs[0]] + Drop(stubs[1..], id)
  }

  function DropAll(stubs: seq<HttpStub>, ids: seq<StubId>): seq<HttpStub> {
    if ids == [] then stubs else Drop(DropAll(stubs, ids[..|ids| - 1]), ids[|ids| - 1])
  }

  /** `stubs.get(id)` */
  function Get(stubs: seq<HttpStub>, id: StubId): Option<HttpStub> {
    if stubs == [] then None else if stubs[0].stubId == id then Some(stubs[0]) else Get(stubs[1..], id)
  }

  /** Stub `i` is the first one with this id. */
  predicate HasIdAt(stubs: seq<HttpStub>, id: StubId, i: nat) {
    i < |stubs| && stubs[i].stubId == id && forall j | 0 <= j < i :: stubs[j].stubId != id
  }

  /** What the three operations of the dictionary do at the position of an id: a known id keeps its position. */
  lemma {:induction false} DictionaryAt(stubs: seq<HttpStub>, stub: HttpStub, i: nat)
    requires HasIdAt(stubs, stub.stubId, i)
    ensures Put(stubs, stub) == stubs[i := stub]
    ensures Drop(stubs, stub.stubId) == stubs[..i] + stubs[i + 1..]
    ensures Get(stubs, stub.stubId) == Some(stubs[i])
  {
    if i == 0 {
    } else {
      var rest := stubs[1..];
      assert forall j | 0 <= j < i - 1 :: rest[j].stubId == stubs[j + 1].stubId;
      DictionaryAt(rest, stub, i - 1);
      assert [stubs[0]] + (rest[..i - 1] + rest[i..]) == stubs[..i] + stubs[i + 1..];
    }
  }

  /** And what they do without it. */
  lemma {:induction false} DictionaryWithout(stubs: seq<HttpStub>, stub: HttpStub)
    requires forall j | 0 <= j < |stubs| :: stubs[j].stubId != stub.stubId
    ensures Put(stubs, stub) == stubs + [stub]
    ensures Drop(stubs, stub.stubId) == stubs
    ensures Get(stubs, stub.stubId).None?
  {
    if stubs == [] {
    } else {
      DictionaryWithout(stubs[1..], stub);
    }
  }

  function IdsOf(r: Registry, test: TestId): seq<StubId> {
    if test in r.byTest then r.byTest[test] else []
  }

  function Registered(r: Registry, test: TestId, stub: HttpStub): Registry {
    Registry(Put(r.stubs, stub), r.byTest[test := IdsOf(r, test) + [stub.stubId]])
  }

  function CleanedUp(r: Registry, test: TestId): Registry {
    Registry(DropAll(r.stubs, IdsOf(r, test)), r.byTest - {test})
  }

  /** The stubs with these ids that are still registered, in the order of the ids. */
  function Lookup(stubs: seq<HttpStub>, ids: seq<StubId>): seq<HttpStub> {
    if ids == [] then []
    else
      var s := Get(stubs, ids[|ids| - 1]);
      Lookup(stubs, ids[..|ids| - 1]) + if s.Some? then [s.value] else []
  }

  // ----- matching ----------------------------------------------------------

  type Matchers = (Condition, Request, Params) -> Verdict

  /** The path parameters under which a stub answers a request, if it does. */
  function Answers(matchers: Matchers, stub: HttpStub, req: Request): Option<Params> {
    var params := PathPattern.Extract(stub.pathPattern, req.path);
    if stub.serverName == req.server
      && (stub.verb == "*" || Upper(stub.verb) == Upper(req.verb))
      && params.Some?
      && AllMatch(c => matchers(c, req, params.value), stub.matchConditions)
    then params else None
  }

  /** What it takes for a stub to answer: server, verb, path and conditions. */
  lemma AnswersExactly(matchers: Matchers, stub: HttpStub, req: Request)
    ensures var params := PathPattern.Extract(stub.pathPattern, req.path);
      && (Answers(matchers, stub, req).Some? <==>
            && stub.serverName == req.server && (stub.verb == "*" || SameButCase(stub.verb, req.verb))
            && params.Some?
            && forall c | c in stub.matchConditions :: matchers(c, req, params.value) == Matched)
      && (Answers(matchers, stub, req).Some? ==> Answers(matchers, stub, req) == params)
  {
    UpperEqual(stub.verb, req.verb);
  }

  function FirstMatch(matchers: Matchers, stubs: seq<HttpStub>, req: Request): Option<HttpStub> {
    if stubs == [] then None
    else if Answers(matchers, stubs[0], req).Some? then Some(stubs[0])
    else FirstMatch(matchers, stubs[1..], req)
  }

  /** Stub `i` answers and no earlier one does. */
  predicate IsFirst(matchers: Matchers, stubs: seq<HttpStub>, req: Request, i: nat) {
    && i < |stubs| && Answers(matchers, stubs[i], req).Some?
    && forall j | 0 <= j < i :: Answers(matchers, stubs[j], req).None?
  }

  /** Stubs registered earlier take priority. */
  lemma {:induction false} FirstMatchIsFirst(matchers: Matchers, stubs: seq<HttpStub>, req: Request)
    ensures FirstMatch(matchers, stubs, req).None? ==> forall s | s in stubs :: Answers(matchers, s, req).None?
    ensures FirstMatch(matchers, stubs, req).Some? ==>
      exists i: nat :: IsFirst(matchers, stubs, req, i) && stubs[i] == FirstMatch(matchers, stubs, req).value
  {
    if stubs == [] {
    } else {
      if Answers(matchers, stubs[0], req).Some? {
        assert IsFirst(matchers, stubs, req, 0);
      } else {
        FirstMatchIsFirst(matchers, stubs[1..], req);
        var r := FirstMatch(matchers, stubs[1..], req);
        if r.Some? {
          var i: nat :| IsFirst(matchers, stubs[1..], req, i) && stubs[1..][i] == r.value;
          forall j | 0 <= j < i + 1
            ensures Answers(matchers, stubs[j], req).None?
          {
            if j > 0 { assert stubs[j] == stubs[1..][j - 1]; }
          }
          assert IsFirst(matchers, stubs, req, i + 1);
        }
      }
    }
  }

  class HttpStubCache {
    var stubs: seq<HttpStub>
    var byTest: map<TestId, seq<StubId>>

    constructor ()
      ensures Contents() == Registry([], map[])
    {
      stubs, byTest := [], map[];
    }

    function Contents(): Registry
      reads this
    {
      Registry(stubs, byTest)
    }

    method Register(testId: TestId, stub: HttpStub)
      modifies this
      ensures Contents() == Registered(old(Contents()), testId, stub)
    {
      stubs := Put(stubs, stub);
      if testId !in byTest {
        byTest := byTest[testId := []];
      }
      byTest := byTest[testId := byTest[testId] + [stub.stubId]];
    }

    /** The first stub that matches records exactly one call, and no other stub records any. */
    method Match(matchers: Matchers, req: Request, now: real) returns (r: Option<HttpStub>)
      modifies stubs
      ensures r == FirstMatch(matchers, stubs, req)
      ensures r.Some? ==> r.value in stubs && Answers(matchers, r.value, req).Some?
      ensures r.Some? ==>
        && r.value.calls == old(r.value.calls) + [HttpStubCall(now, req, Answers(matchers, r.value, req).value)]
        && r.value.event == (old(r.value.event) || |r.value.calls| >= r.value.expectedTimes)
      ensures forall s | s in stubs && r != Some(s) :: s.calls == old(s.calls) && s.event == old(s.event)
    {
      var candidates := stubs;
      for i := 0 to |candidates|
        invariant FirstMatch(matchers, candidates, req) == FirstMatch(matchers, candidates[i..], req)
        invariant forall s | s in stubs :: s.calls == old(s.calls) && s.event == old(s.event)
      {
        var stub := candidates[i];
        assert candidates[i..][0] == stub && candidates[i..][1..] == candidates[i + 1..];
        if stub.serverName != req.server {
          continue;
        }
        if !(stub.verb == "*" || Upper(stub.verb) == Upper(req.verb)) {
          continue;
        }
        var pathParams := PathPattern.Extract(stub.pathPattern, req.path);
        if pathParams.None? {
          continue;
        }
        var judge := c => matchers(c, req, pathParams.value);
        var allMatched := Evaluate(judge, stub.matchConditions);
        assert allMatched <==> Answers(matchers, stub, req).Some?;
        if !allMatched {
          continue;
        }
        stub.RecordCall(HttpStubCall(now, req, pathParams.value));
        return Some(stub);
      }
      return None;
    }

    method CleanupTest(testId: TestId)
      modifies this
      ensures Contents() == CleanedUp(old(Contents()), testId)
    {
      var stubIds := if testId in byTest then byTest[testId] else [];
      byTest := byTest - {testId};
      for i := 0 to |stubIds|
        invariant byTest == old(byTest) - {testId}
        invariant stubs == DropAll(old(stubs), stubIds[..i])
      {
        assert stubIds[..i + 1][..i] == stubIds[..i];
        stubs := Drop(stubs, stubIds[i]);
      }
      assert stubIds[..|stubIds|] == stubIds;
    }

    method GetStubsForTest(testId: TestId) returns (found: seq<HttpStub>)
      ensures found == Lookup(stubs, IdsOf(Contents(), testId))
    {
      var ids := if testId in byTest then byTest[testId] else [];
      found := [];
      for i := 0 to |ids|
        invariant found == Lookup(stubs, ids[..i])
      {
        assert ids[..i + 1][..i] == ids[..i];
        var s := Get(stubs, ids[i]);
        if s.Some? {
          found := found + [s.value];
        }
      }
      assert ids[..|ids|] == ids;
    }
  }

  // ----- histories ---------------------------------------------------------

  datatype Op = Register(test: TestId, stub: HttpStub) | Match(req: Request) | Cleanup(test: TestId)

  function Run(ops: seq<Op>): Registry {
    if ops == [] then Registry([], map[])
    else
      var r := Run(ops[..|ops| - 1]);
      match ops[|ops| - 1]
      case Register(t, s) => Registered(r, t, s)
      case Match(_) => r
      case Cleanup(t) => CleanedUp(r, t)
  }

  /** What should be registered: each test's stubs since its last cleanup, oldest first. */
  type Log = seq<(TestId, HttpStub)>

  function Without(log: Log, t: TestId): Log {
    if log == [] then []
    else if log[0].0 == t then Without(log[1..], t)
    else [log[0]] + Without(log[1..], t)
  }

  function StubsOf(log: Log, t: TestId): seq<HttpStub> {
    if log == [] then []
    else if log[0].0 == t then [log[0].1] + StubsOf(log[1..], t)
    else StubsOf(log[1..], t)
  }

  function Live(ops: seq<Op>): Log {
    if ops == [] then []
    else
      var l := Live(ops[..|ops| - 1]);
      match ops[|ops| - 1]
      case Register(t, s) => l + [(t, s)]
      case Match(_) => l
      case Cleanup(t) => Without(l, t)
  }

  function Stubs(log: Log): seq<HttpStub> {
    if log == [] then [] else [log[0].1] + Stubs(log[1..])
  }

  function Ids(stubs: seq<HttpStub>): seq<StubId> {
    if stubs == [] then [] else [stubs[0].stubId] + Ids(stubs[1..])
  }

  /** No id is live twice. */
  predicate Unique(log: Log) {
    forall i, j | 0 <= i < j < |log| :: log[i].1.stubId != log[j].1.stubId
  }

  predicate Uses(log: Log, id: StubId) {
    exists i | 0 <= i < |log| :: log[i].1.stubId == id
  }

  /** Every registration uses an id that no live stub has. */
  predicate FreshIds(ops: seq<Op>) {
    ops != [] ==>
      && FreshIds(ops[..|ops| - 1])
      && (ops[|ops| - 1].Register? ==> !Uses(Live(ops[..|ops| - 1]), ops[|ops| - 1].stub.stubId))
  }

  /** Both indexes describe the log: the stubs in order, and each test's ids in order. */
  ghost predicate Describes(r: Registry, log: Log) {
    && r.stubs == Stubs(log)
    && (forall t :: t in r.byTest <==> StubsOf(log, t) != [])
    && (forall t | t in r.byTest :: r.byTest[t] == Ids(StubsOf(log, t)))
  }

  lemma {:induction false} StubsAppend(log: Log, t: TestId, s: HttpStub)
    ensures Stubs(log + [(t, s)]) == Stubs(log) + [s]
    ensures forall u :: StubsOf(log + [(t, s)], u) == if u == t then StubsOf(log, u) + [s] else StubsOf(log, u)
  {
    if log == [] {
    } else {
      StubsAppend(log[1..], t, s);
      assert (log + [(t, s)])[1..] == log[1..] + [(t, s)];
    }
  }

  lemma {:induction false} IdsAppend(stubs: seq<HttpStub>, s: HttpStub)
    ensures Ids(stubs + [s]) == Ids(stubs) + [s.stubId]
  {
    if stubs == [] {
    } else {
      IdsAppend(stubs[1..], s);
      assert (stubs + [s])[1..] == stubs[1..] + [s];
    }
  }

  lemma {:induction false} PutFresh(log: Log, s: HttpStub)
    ensures !Uses(log, s.stubId) ==> Put(Stubs(log), s) == Stubs(log) + [s]
    ensures Uses(log, s.stubId) ==> |Put(Stubs(log), s)| == |Stubs(log)|
    ensures |Stubs(log)| == |log|
  {
    if log == [] {
    } else {
      PutFresh(log[1..], s);
      assert Stubs(log)[1..] == Stubs(log[1..]);
      assert Uses(log, s.stubId) <==> log[0].1.stubId == s.stubId || Uses(log[1..], s.stubId) by {
        UsesStep(log, s.stubId);
      }
    }
  }

  lemma UsesStep(log: Log, id: StubId)
    requires log != []
    ensures Uses(log, id) <==> log[0].1.stubId == id || Uses(log[1..], id)
  {
    if Uses(log[1..], id) {
      var i :| 0 <= i < |log[1..]| && log[1..][i].1.stubId == id;
      assert log[i + 1].1.stubId == id;
    }
    if Uses(log, id) && log[0].1.stubId != id {
      var i :| 0 <= i < |log| && log[i].1.stubId == id;
      assert log[1..][i - 1].1.stubId == id;
    }
  }

  // ----- cleaning up -------------------------------------------------------

  /** The stubs whose id is not among these. */
  function Except(stubs: seq<HttpStub>, ids: seq<StubId>): seq<HttpStub> {
    if stubs == [] then []
    else if stubs[0].stubId in ids then Except(stubs[1..], ids)
    else [stubs[0]] + Except(stubs[1..], ids)
  }

  predicate UniqueIds(stubs: seq<HttpStub>) {
    forall i, j | 0 <= i < j < |stubs| :: stubs[i].stubId != stubs[j].stubId
  }

  lemma {:induction false} ExceptSubset(stubs: seq<HttpStub>, ids: seq<StubId>)
    requires UniqueIds(stubs)
    ensures UniqueIds(Except(stubs, ids))
    ensures forall s | s in Except(stubs, ids) :: s in stubs
  {
    if stubs == [] {
    } else {
      ExceptSubset(stubs[1..], ids);
      var rest := Except(stubs[1..], ids);
      forall s | s in rest
        ensures s.stubId != stubs[0].stubId
      {
        var i :| 0 <= i < |stubs[1..]| && stubs[1..][i] == s;
        assert stubs[i + 1] == s;
      }
    }
  }

  lemma {:induction false} ExceptNone(stubs: seq<HttpStub>)
    ensures Except(stubs, []) == stubs
  {
    if stubs == [] {
    } else {
      ExceptNone(stubs[1..]);
    }
  }

  /** Dropping one more id from what is left. */
  lemma {:induction false} DropOneMore(stubs: seq<HttpStub>, ids: seq<StubId>, id: StubId)
    requires UniqueIds(stubs)
    ensures Drop(Except(stubs, ids), id) == Except(stubs, ids + [id])
  {
    if stubs == [] {
    } else {
      DropOneMore(stubs[1..], ids, id);
      var rest := Except(stubs[1..], ids);
      if stubs[0].stubId !in ids {
        assert ([stubs[0]] + rest)[1..] == rest;
        if stubs[0].stubId == id {
          ExceptSubset(stubs[1..], ids);
          forall s | s in rest
            ensures s.stubId != id
          {
            var i :| 0 <= i < |stubs[1..]| && stubs[1..][i] == s;
            assert stubs[i + 1] == s;
          }
          DropAbsent(rest, id);
        }
      }
    }
  }

  lemma {:induction false} DropAbsent(stubs: seq<HttpStub>, id: StubId)
    requires forall s | s in stubs :: s.stubId != id
    ensures Drop(stubs, id) == stubs
  {
    if stubs == [] {
    } else {
      DropAbsent(stubs[1..], id);
    }
  }

  lemma {:induction false} DropAllIsExcept(stubs: seq<HttpStub>, ids: seq<StubId>)
    requires UniqueIds(stubs)
    ensures DropAll(stubs, ids) == Except(stubs, ids)
  {
    if ids == [] {
      ExceptNone(stubs);
    } else {
      var most := ids[..|ids| - 1];
      DropAllIsExcept(stubs, most);
      DropOneMore(stubs, most, ids[|ids| - 1]);
      assert most + [ids[|ids| - 1]] == ids;
    }
  }

  /** If `ids` are exactly the ids of test `t`, leaving them out leaves the other tests. */
  lemma {:induction false} ExceptIsWithout(log: Log, t: TestId, ids: seq<StubId>)
    requires forall i | 0 <= i < |log| :: log[i].1.stubId in ids <==> log[i].0 == t
    ensures Except(Stubs(log), ids) == Stubs(Without(log, t))
  {
    if log == [] {
    } else {
      forall i | 0 <= i < |log[1..]|
        ensures log[1..][i].1.stubId in ids <==> log[1..][i].0 == t
      {
        assert log[1..][i] == log[i + 1];
      }
      ExceptIsWithout(log[1..], t, ids);
      assert Stubs(log)[1..] == Stubs(log[1..]);
      if log[0].0 != t {
        assert Without(log, t)[1..] == Without(log[1..], t);
      }
    }
  }

  lemma {:induction false} IdsOfTest(log: Log, t: TestId, id: StubId)
    ensures id in Ids(StubsOf(log, t)) <==> exists i | 0 <= i < |log| :: log[i].1.stubId == id && log[i].0 == t
  {
    if log == [] {
    } else {
      IdsOfTest(log[1..], t, id);
      if log[0].0 == t {
        assert StubsOf(log, t)[1..] == StubsOf(log[1..], t);
      }
      if exists i | 0 <= i < |log[1..]| :: log[1..][i].1.stubId == id && log[1..][i].0 == t {
        var i :| 0 <= i < |log[1..]| && log[1..][i].1.stubId == id && log[1..][i].0 == t;
        assert log[i + 1].1.stubId == id && log[i + 1].0 == t;
      }
      if exists i | 0 < i < |log| :: log[i].1.stubId == id && log[i].0 == t {
        var i :| 0 < i < |log| && log[i].1.stubId == id && log[i].0 == t;
        assert log[1..][i - 1].1.stubId == id && log[1..][i - 1].0 == t;
      }
    }
  }

  lemma {:induction false} WithoutSplits(log: Log, t: TestId)
    ensures StubsOf(Without(log, t), t) == []
    ensures forall u | u != t :: StubsOf(Without(log, t), u) == StubsOf(log, u)
    ensures forall x | x in Without(log, t) :: x in log
  {
    if log == [] {
    } else {
      WithoutSplits(log[1..], t);
      if log[0].0 != t {
        assert Without(log, t)[1..] == Without(log[1..], t);
      }
    }
  }

  lemma {:induction false} UniqueStubs(log: Log)
    requires Unique(log)
    ensures |Stubs(log)| == |log| && forall i | 0 <= i < |log| :: Stubs(log)[i] == log[i].1
    ensures UniqueIds(Stubs(log))
  {
    if log == [] {
    } else {
      UniqueStubs(log[1..]);
    }
  }

  lemma {:induction false} WithoutUnique(log: Log, t: TestId)
    requires Unique(log)
    ensures Unique(Without(log, t))
  {
    if log == [] {
    } else {
      WithoutUnique(log[1..], t);
      WithoutSplits(log[1..], t);
      var rest := Without(log[1..], t);
      forall i | 0 <= i < |rest|
        ensures rest[i].1.stubId != log[0].1.stubId
      {
        assert rest[i] in log[1..];
        var j :| 0 <= j < |log[1..]| && log[1..][j] == rest[i];
        assert log[j + 1] == rest[i];
      }
    }
  }

  lemma CleanupDescribes(r: Registry, log: Log, t: TestId)
    requires Unique(log) && Describes(r, log)
    ensures Describes(CleanedUp(r, t), Without(log, t))
  {
    var ids := IdsOf(r, t);
    assert ids == Ids(StubsOf(log, t));
    UniqueStubs(log);
    DropAllIsExcept(r.stubs, ids);
    forall i | 0 <= i < |log|
      ensures log[i].1.stubId in ids <==> log[i].0 == t
    {
      IdsOfTest(log, t, log[i].1.stubId);
    }
    ExceptIsWithout(log, t, ids);
    WithoutSplits(log, t);
  }

  lemma RegisterDescribes(r: Registry, log: Log, t: TestId, s: HttpStub)
    requires Describes(r, log) && !Uses(log, s.stubId)
    ensures Describes(Registered(r, t, s), log + [(t, s)])
  {
    PutFresh(log, s);
    StubsAppend(log, t, s);
    IdsAppend(StubsOf(log, t), s);
  }

  lemma {:induction false} LiveUnique(ops: seq<Op>)
    requires FreshIds(ops)
    ensures Unique(Live(ops))
  {
    if ops == [] {
    } else {
      var before := ops[..|ops| - 1];
      LiveUnique(before);
      match ops[|ops| - 1]
      case Cleanup(t) => WithoutUnique(Live(before), t);
      case _ =>
    }
  }

  /** While ids are fresh, the two indexes describe exactly the live stubs. */
  lemma {:induction false} IndexesAgree(ops: seq<Op>)
    requires FreshIds(ops)
    ensures Describes(Run(ops), Live(ops))
  {
    if ops == [] {
    } else {
      var before := ops[..|ops| - 1];
      IndexesAgree(before);
      LiveUnique(before);
      match ops[|ops| - 1]
      case Register(t, s) => RegisterDescribes(Run(before), Live(before), t, s);
      case Match(_) =>
      case Cleanup(t) => CleanupDescribes(Run(before), Live(before), t);
    }
  }

  /** The registry follows the live stubs all along a history exactly when the ids are fresh. */
  lemma {:induction false} AgreesExactlyWhenFresh(ops: seq<Op>)
    ensures (forall n | 0 <= n <= |ops| :: Describes(Run(ops[..n]), Live(ops[..n]))) <==> FreshIds(ops)
  {
    if ops == [] {
      assert ops[..0] == ops;
      assert Describes(Run(ops), Live(ops));
    } else {
      var before := ops[..|ops| - 1];
      AgreesExactlyWhenFresh(before);
      assert forall n | 0 <= n < |ops| :: before[..n] == ops[..n];
      assert ops[..|ops|] == ops && ops[..|ops| - 1] == before;
      if FreshIds(before) {
        IndexesAgree(before);
        if FreshIds(ops) {
          IndexesAgree(ops);
        } else {
          var s := ops[|ops| - 1].stub;
          PutFresh(Live(before), s);
          StubsAppend(Live(before), ops[|ops| - 1].test, s);
          assert |Run(ops).stubs| < |Stubs(Live(ops))|;
        }
      } else {
        assert exists n | 0 <= n <= |before| :: !Describes(Run(before[..n]), Live(before[..n]));
      }
    }
  }

  // ----- the stubs of a test ------------------------------------------------

  /** The stubs found for a test are the ones it registered since its last cleanup, in order. */
  lemma StubsForTestAreItsOwn(ops: seq<Op>, t: TestId)
    requires FreshIds(ops)
    ensures Lookup(Run(ops).stubs, IdsOf(Run(ops), t)) == StubsOf(Live(ops), t)
  {
    IndexesAgree(ops);
    LiveUnique(ops);
    UniqueStubs(Live(ops));
    StubsOfAreStubs(Live(ops), t);
    LookupFindsEach(Run(ops).stubs, StubsOf(Live(ops), t));
  }

  lemma {:induction false} StubsOfAreStubs(log: Log, t: TestId)
    ensures forall s | s in StubsOf(log, t) :: s in Stubs(log)
  {
    if log == [] {
    } else {
      StubsOfAreStubs(log[1..], t);
    }
  }

  lemma {:induction false} GetUnique(stubs: seq<HttpStub>, s: HttpStub)
    requires UniqueIds(stubs) && s in stubs
    ensures Get(stubs, s.stubId) == Some(s)
  {
    if stubs[0] != s {
      var i :| 0 < i < |stubs| && stubs[i] == s;
      assert stubs[1..][i - 1] == s;
      GetUnique(stubs[1..], s);
    }
  }

  lemma {:induction false} LookupFindsEach(stubs: seq<HttpStub>, some: seq<HttpStub>)
    requires UniqueIds(stubs) && forall s | s in some :: s in stubs
    ensures Lookup(stubs, Ids(some)) == some
  {
    if some == [] {
    } else {
      var most, s := some[..|some| - 1], some[|some| - 1];
      assert some == most + [s];
      LookupFindsEach(stubs, most);
      IdsAppend(most, s);
      assert Ids(some)[..|Ids(some)| - 1] == Ids(most);
      GetUnique(stubs, s);
    }
  }
}
