/**
 Cleaning up a test erases it: the registry becomes what it would be had the test never
 registered anything - exactly if no test registers an id that is listed for another test.
 */
module StubErasure {
  import opened Conditions
  import opened StubCache

  /** The same history without test `t`. */
  function Erase(ops: seq<Op>, t: TestId): seq<Op> {
    if ops == [] then []
    else
      var op := ops[|ops| - 1];
      var before := Erase(ops[..|ops| - 1], t);
      if (op.Register? || op.Cleanup?) && op.test == t then before else before + [op]
  }

  /** The id is listed for another test. */
  ghost predicate Taken(r: Registry, test: TestId, id: StubId) {
    exists u :: u != test && id in IdsOf(r, u)
  }

  /** No registration takes an id that is listed for another test at that moment. */
  ghost predicate NoTheft(ops: seq<Op>) {
    ops != [] ==>
      var most, op := ops[..|ops| - 1], ops[|ops| - 1];
      NoTheft(most) && (op.Register? ==> !Taken(Run(most), op.test, op.stub.stubId))
  }

  // ----- both indexes list the same ids ------------------------------------

  predicate HasId(stubs: seq<HttpStub>, id: StubId) {
    exists i | 0 <= i < |stubs| :: stubs[i].stubId == id
  }

  ghost predicate Listed(r: Registry, id: StubId) {
    exists u :: id in IdsOf(r, u)
  }

  /** Ids are unique, the same ones in both indexes, and each listed for one test only. */
  ghost predicate Inv(r: Registry) {
    && UniqueIds(r.stubs)
    && (forall id :: HasId(r.stubs, id) <==> Listed(r, id))
    && (forall u, id | id in IdsOf(r, u) :: !Taken(r, u, id))
  }

  lemma HasIdStep(stubs: seq<HttpStub>, id: StubId)
    requires stubs != []
    ensures HasId(stubs, id) <==> stubs[0].stubId == id || HasId(stubs[1..], id)
  {
    if HasId(stubs[1..], id) {
      var i :| 0 <= i < |stubs[1..]| && stubs[1..][i].stubId == id;
      assert stubs[i + 1].stubId == id;
    }
    if HasId(stubs, id) && stubs[0].stubId != id {
      var i :| 0 <= i < |stubs| && stubs[i].stubId == id;
      assert stubs[1..][i - 1].stubId == id;
    }
  }

  lemma {:induction false} PutIds(stubs: seq<HttpStub>, s: HttpStub)
    requires UniqueIds(stubs)
    ensures UniqueIds(Put(stubs, s))
    ensures forall id :: HasId(Put(stubs, s), id) <==> HasId(stubs, id) || id == s.stubId
  {
    var r := Put(stubs, s);
    if stubs == [] {
      assert r[0].stubId == s.stubId;
    } else {
      PutIds(stubs[1..], s);
      forall id
        ensures HasId(r, id) <==> HasId(stubs, id) || id == s.stubId
      {
        HasIdStep(stubs, id);
        HasIdStep(r, id);
      }
      if stubs[0].stubId != s.stubId {
        forall i | 0 <= i < |r[1..]|
          ensures r[1..][i].stubId != r[0].stubId
        {
          assert !HasId(stubs[1..], stubs[0].stubId);
          assert HasId(Put(stubs[1..], s), r[1..][i].stubId);
        }
      }
    }
  }

  lemma {:induction false} ExceptIds(stubs: seq<HttpStub>, ids: seq<StubId>)
    ensures forall id :: HasId(Except(stubs, ids), id) <==> HasId(stubs, id) && id !in ids
  {
    if stubs == [] {
    } else {
      ExceptIds(stubs[1..], ids);
      var r := Except(stubs, ids);
      forall id
        ensures HasId(r, id) <==> HasId(stubs, id) && id !in ids
      {
        HasIdStep(stubs, id);
        if r != [] { HasIdStep(r, id); }
      }
    }
  }

  lemma RegisterInv(r: Registry, t: TestId, s: HttpStub)
    requires Inv(r) && !Taken(r, t, s.stubId)
    ensures Inv(Registered(r, t, s))
  {
    var r' := Registered(r, t, s);
    PutIds(r.stubs, s);
    forall u, id
      ensures id in IdsOf(r', u) <==> id in IdsOf(r, u) || (u == t && id == s.stubId)
    {
    }
    forall id
      ensures HasId(r'.stubs, id) <==> Listed(r', id)
    {
      if id == s.stubId { assert id in IdsOf(r', t); }
      if Listed(r, id) {
        var u :| id in IdsOf(r, u);
        assert id in IdsOf(r', u);
      }
    }
    forall u, id | id in IdsOf(r', u)
      ensures !Taken(r', u, id)
    {
      assert id in IdsOf(r, u) ==> !Taken(r, u, id);
      forall w | w != u
        ensures id !in IdsOf(r', w)
      {
        assert id in IdsOf(r, w) ==> !Taken(r, w, id);
      }
    }
  }

  lemma CleanupInv(r: Registry, t: TestId)
    requires Inv(r)
    ensures Inv(CleanedUp(r, t)) && CleanedUp(r, t).stubs == Except(r.stubs, IdsOf(r, t))
  {
    var r', ids := CleanedUp(r, t), IdsOf(r, t);
    DropAllIsExcept(r.stubs, ids);
    ExceptSubset(r.stubs, ids);
    ExceptIds(r.stubs, ids);
    assert r'.stubs == Except(r.stubs, ids);
    forall id
      ensures Listed(r', id) <==> Listed(r, id) && id !in ids
    {
      if Listed(r', id) {
        var u :| id in IdsOf(r', u);
        assert u != t && id in IdsOf(r, u) && !Taken(r, u, id);
      }
      if Listed(r, id) && id !in ids {
        var u :| id in IdsOf(r, u);
        assert id in IdsOf(r', u);
      }
    }
    forall u, id | id in IdsOf(r', u)
      ensures !Taken(r', u, id)
    {
      assert id in IdsOf(r, u) && !Taken(r, u, id);
      forall w | w != u
        ensures id !in IdsOf(r', w)
      {
        assert id !in IdsOf(r, w);
      }
    }
  }

  lemma {:induction false} RunInv(ops: seq<Op>)
    requires NoTheft(ops)
    ensures Inv(Run(ops))
  {
    if ops == [] {
    } else {
      var most := ops[..|ops| - 1];
      RunInv(most);
      match ops[|ops| - 1]
      case Register(t, s) => RegisterInv(Run(most), t, s);
      case Match(_) =>
      case Cleanup(t) => CleanupInv(Run(most), t);
    }
  }

  // ----- the registry with and without a test ------------------------------

  /** `r'` is `r` without the stubs and the entry of test `t`. */
  predicate IsErased(r: Registry, r': Registry, t: TestId) {
    r'.stubs == Except(r.stubs, IdsOf(r, t)) && r'.byTest == r.byTest - {t}
  }

  lemma {:induction false} ExceptSame(stubs: seq<HttpStub>, a: seq<StubId>, b: seq<StubId>)
    requires forall id :: id in a <==> id in b
    ensures Except(stubs, a) == Except(stubs, b)
  {
    if stubs == [] {
    } else {
      ExceptSame(stubs[1..], a, b);
    }
  }

  /** One more stub of the test itself is left out like its others. */
  lemma {:induction false} ExceptPutOwn(stubs: seq<HttpStub>, s: HttpStub, ids: seq<StubId>)
    requires HasId(stubs, s.stubId) ==> s.stubId in ids
    ensures Except(Put(stubs, s), ids + [s.stubId]) == Except(stubs, ids)
  {
    var more := ids + [s.stubId];
    if stubs == [] {
      assert [s][1..] == [];
    } else {
      HasIdStep(stubs, s.stubId);
      if stubs[0].stubId == s.stubId {
        assert ([s] + stubs[1..])[1..] == stubs[1..];
        ExceptSame(stubs[1..], more, ids);
      } else {
        ExceptPutOwn(stubs[1..], s, ids);
        var rest := Put(stubs[1..], s);
        assert ([stubs[0]] + rest)[1..] == rest;
      }
    }
  }

  /** A stub of another test takes the same place with and without the test. */
  lemma {:induction false} ExceptPutOther(stubs: seq<HttpStub>, s: HttpStub, ids: seq<StubId>)
    requires s.stubId !in ids
    ensures Except(Put(stubs, s), ids) == Put(Except(stubs, ids), s)
  {
    if stubs == [] {
      assert [s][1..] == [];
    } else {
      var rest := Put(stubs[1..], s);
      var f := Except(stubs[1..], ids);
      assert ([s] + stubs[1..])[1..] == stubs[1..] && ([stubs[0]] + rest)[1..] == rest && ([stubs[0]] + f)[1..] == f;
      ExceptPutOther(stubs[1..], s, ids);
    }
  }

  lemma {:induction false} ExceptTwice(stubs: seq<HttpStub>, a: seq<StubId>, b: seq<StubId>)
    ensures Except(Except(stubs, a), b) == Except(stubs, a + b)
  {
    if stubs == [] {
    } else {
      ExceptTwice(stubs[1..], a, b);
      var f := Except(stubs[1..], a);
      assert ([stubs[0]] + f)[1..] == f;
    }
  }

  lemma ErasedRegister(r: Registry, r': Registry, t: TestId, u: TestId, s: HttpStub)
    requires Inv(r) && IsErased(r, r', t) && !Taken(r, u, s.stubId)
    ensures u == t ==> IsErased(Registered(r, u, s), r', t)
    ensures u != t ==> IsErased(Registered(r, u, s), Registered(r', u, s), t)
  {
    if u == t {
      if HasId(r.stubs, s.stubId) {
        var w :| s.stubId in IdsOf(r, w);
        assert w == t;
      }
      ExceptPutOwn(r.stubs, s, IdsOf(r, t));
    } else {
      ExceptPutOther(r.stubs, s, IdsOf(r, t));
    }
  }

  lemma ErasedCleanup(r: Registry, r': Registry, t: TestId, u: TestId)
    requires Inv(r) && IsErased(r, r', t)
    ensures u == t ==> IsErased(CleanedUp(r, u), r', t)
    ensures u != t ==> IsErased(CleanedUp(r, u), CleanedUp(r', u), t)
  {
    CleanupInv(r, u);
    var a, b := IdsOf(r, t), IdsOf(r, u);
    if u == t {
      ExceptNone(r'.stubs);
    } else {
      ExceptSubset(r.stubs, a);
      DropAllIsExcept(r'.stubs, b);
      ExceptTwice(r.stubs, a, b);
      ExceptTwice(r.stubs, b, a);
      ExceptSame(r.stubs, a + b, b + a);
    }
  }

  /** All along a history without theft, the registry of the erased history is the erased registry. */
  lemma {:induction false} EraseRelates(ops: seq<Op>, t: TestId)
    requires NoTheft(ops)
    ensures IsErased(Run(ops), Run(Erase(ops, t)), t)
  {
    if ops == [] {
    } else {
      var most, op := ops[..|ops| - 1], ops[|ops| - 1];
      EraseRelates(most, t);
      RunInv(most);
      var erased := Erase(most, t);
      assert (erased + [op])[..|erased|] == erased;
      match op
      case Register(u, s) => ErasedRegister(Run(most), Run(erased), t, u, s);
      case Match(_) =>
      case Cleanup(u) => ErasedCleanup(Run(most), Run(erased), t, u);
    }
  }

  // ----- exactly when cleaning up erases ------------------------------------

  /** After the first `n` operations, cleaning up test `t` erases it. */
  predicate ErasedAt(ops: seq<Op>, n: nat, t: TestId)
    requires n <= |ops|
  {
    Run(ops[..n] + [Cleanup(t)]) == Run(Erase(ops[..n], t))
  }

  lemma RunCleanup(ops: seq<Op>, t: TestId)
    ensures Run(ops + [Cleanup(t)]) == CleanedUp(Run(ops), t)
  {
    assert (ops + [Cleanup(t)])[..|ops|] == ops;
  }

  lemma CleanupErasesNow(ops: seq<Op>, t: TestId)
    requires NoTheft(ops)
    ensures Run(ops + [Cleanup(t)]) == Run(Erase(ops, t))
  {
    RunCleanup(ops, t);
    RunInv(ops);
    CleanupInv(Run(ops), t);
    EraseRelates(ops, t);
  }

  /** Cleaning up after a theft removes the stub of the other test, too. */
  lemma TheftIsNotErased(ops: seq<Op>)
    requires ops != [] && NoTheft(ops[..|ops| - 1]) && !NoTheft(ops)
    ensures Run(ops + [Cleanup(ops[|ops| - 1].test)]) != Run(Erase(ops, ops[|ops| - 1].test))
  {
    var most, op := ops[..|ops| - 1], ops[|ops| - 1];
    var r, t, s := Run(most), op.test, op.stub;
    var ids := IdsOf(r, t);
    RunInv(most);
    EraseRelates(most, t);
    RunCleanup(ops, t);
    PutIds(r.stubs, s);
    DropAllIsExcept(Put(r.stubs, s), ids + [s.stubId]);
    ExceptIds(Put(r.stubs, s), ids + [s.stubId]);
    assert !HasId(Run(ops + [Cleanup(t)]).stubs, s.stubId);
    var u :| u != t && s.stubId in IdsOf(r, u);
    assert Listed(r, s.stubId) && s.stubId !in ids;
    ExceptIds(r.stubs, ids);
    assert HasId(Run(Erase(ops, t)).stubs, s.stubId);
  }

  /**
   Cleaning up any test at any moment of a history leaves what there would be without that
   test, exactly if no registration takes an id that is listed for another test.
   */
  lemma {:induction false} ErasesExactly(ops: seq<Op>)
    ensures (forall n: nat, t: TestId | n <= |ops| :: ErasedAt(ops, n, t)) <==> NoTheft(ops)
  {
    assert ops[..|ops|] == ops;
    if ops == [] {
      forall t
        ensures ErasedAt(ops, 0, t)
      {
        CleanupErasesNow(ops, t);
      }
    } else {
      var most := ops[..|ops| - 1];
      ErasesExactly(most);
      forall n: nat, t: TestId | n <= |most|
        ensures ErasedAt(most, n, t) <==> ErasedAt(ops, n, t)
      {
        assert most[..n] == ops[..n];
      }
      if NoTheft(ops) {
        forall t
          ensures ErasedAt(ops, |ops|, t)
        {
          CleanupErasesNow(ops, t);
        }
      } else if NoTheft(most) {
        TheftIsNotErased(ops);
        assert !ErasedAt(ops, |ops|, ops[|ops| - 1].test);
      }
    }
  }

  /** Ids that no live stub has are not listed for another test. */
  lemma {:induction false} FreshIsNoTheft(ops: seq<Op>)
    requires FreshIds(ops)
    ensures NoTheft(ops)
  {
    if ops == [] {
    } else {
      var most, op := ops[..|ops| - 1], ops[|ops| - 1];
      FreshIsNoTheft(most);
      IndexesAgree(most);
      if op.Register? {
        forall u
          ensures op.stub.stubId !in IdsOf(Run(most), u)
        {
          IdsOfTest(Live(most), u, op.stub.stubId);
        }
      }
    }
  }

  // ----- whatever happens afterwards ----------------------------------------

  lemma {:induction false} RunOn(a: seq<Op>, b: seq<Op>, after: seq<Op>)
    requires Run(a) == Run(b)
    ensures Run(a + after) == Run(b + after)
  {
    if after == [] {
      assert a + after == a && b + after == b;
    } else {
      var most := after[..|after| - 1];
      RunOn(a, b, most);
      assert (a + after)[..|a + after| - 1] == a + most;
      assert (b + after)[..|b + after| - 1] == b + most;
    }
  }

  /** From the cleanup on, the registry and every match are those of the history without the test. */
  lemma CleanupErases(ops: seq<Op>, t: TestId, after: seq<Op>, matchers: Matchers, req: Request)
    requires NoTheft(ops)
    ensures Run(ops + [Cleanup(t)] + after) == Run(Erase(ops, t) + after)
    ensures FirstMatch(matchers, Run(ops + [Cleanup(t)] + after).stubs, req)
         == FirstMatch(matchers, Run(Erase(ops, t) + after).stubs, req)
  {
    CleanupErasesNow(ops, t);
    RunOn(ops + [Cleanup(t)], Erase(ops, t), after);
  }
}
