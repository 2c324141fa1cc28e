/**
 What the ownership invariant means for runs: handles are disconnected once and by
 their creator, invalidations stay with their own handle, and evicted handles stay out.
 */
module MqCache {
  import opened Util
  import opened MqProtocol
  import opened MqLocks
  import opened MqHandles

  // ----- the handle an invalidation works on -------------------------------

  predicate Invalidates(pc: Pc) {
    pc.Mqdisc? || pc.EvictWait? || pc.Evict?
  }

  /** Past the guard, the handle taken from the provider is the caller's stale handle. */
  predicate TakenIsStale(th: Thread) {
    Invalidates(th.pc) && th.snap.Some? ==> th.taken == th.snap
  }

  /** Whoever invalidates a handle it owned works for the provider that published it. */
  ghost predicate InvalidationInv(s: State) {
    && (forall t | t in s.threads :: TakenIsStale(s.threads[t]))
    && (forall t, h | Invalidating(s, t, h) :: h in s.creator && s.creator[h] == s.threads[t].p)
  }

  /** Only an invalidation brings a thread into the middle of an invalidation. */
  predicate TakenShape(th: Thread, v: Sight, e: Effect) {
    && (TakenIsStale(th) ==> TakenIsStale(e.th))
    && (Invalidates(e.th.pc) ==>
          || (Invalidates(th.pc) && e.th.taken == th.taken && e.th.wasShared == th.wasShared)
          || (th.pc.Guard? && e.th.taken == v.me.qm && e.th.wasShared == v.me.shared))
    && (e.cache.Put? ==> th.pc.Publish? && th.cand == Some(e.cache.h) && e.me.qm == th.cand && !e.me.shared)
    && (Invalidates(th.pc) && !th.pc.Evict? && !th.wasShared ==>
          Invalidates(e.th.pc) && e.th.taken == th.taken && !e.th.wasShared)
    && (e.me != v.me ==>
          || th.pc.Adopt? || th.pc.Publish? || th.pc.Disconnect?
          || (th.pc.Guard? && e.th.pc.Mqdisc? && e.th.taken == v.me.qm && e.th.wasShared == v.me.shared))
  }

  lemma LookupTaken(th: Thread, v: Sight, c: Choice)
    requires LookupAct(th, v, c).Some?
    ensures TakenShape(th, v, LookupAct(th, v, c).value)
  {
  }

  lemma TransferTaken(th: Thread, v: Sight, c: Choice)
    requires TransferAct(th, v, c).Some?
    ensures TakenShape(th, v, TransferAct(th, v, c).value)
  {
    match th.pc
    case AliveWait =>
    case Alive =>
    case DictWait =>
    case Dict =>
    case Snapshot =>
    case OpWait =>
    case Open =>
    case Transfer =>
    case Close =>
  }

  lemma InvalidateTaken(th: Thread, v: Sight, c: Choice)
    requires InvalidateAct(th, v, c).Some?
    ensures TakenShape(th, v, InvalidateAct(th, v, c).value)
  {
  }

  lemma ActTaken(th: Thread, v: Sight, c: Choice)
    requires Act(th, v, c).Some?
    ensures TakenShape(th, v, Act(th, v, c).value)
  {
    match th.pc
    case ReconnectWait | CheckWait | Check | LookupWait | Lookup => LookupTaken(th, v, c);
    case AliveWait | Alive | DictWait | Dict | Snapshot | OpWait | Open | Transfer | Close => TransferTaken(th, v, c);
    case GuardWait | Guard | Mqdisc | EvictWait | Evict => InvalidateTaken(th, v, c);
    case _ =>
  }

  /** Published handles keep their creator; only unpublished ones are ever published. */
  lemma StepCreator(s: State, t: ThreadId, c: Choice)
    requires Typed(s) && OwnInv(s) && Step(s, t, c).Some?
    ensures var s' := Step(s, t, c).value;
      && (forall h | h in s.creator :: h in s'.creator && s'.creator[h] == s.creator[h])
      && (forall k | k in s'.cache :: (k in s.cache && s'.cache[k] == s.cache[k]) || s'.cache[k] !in s.creator)
  {
    if s.threads[t].pc != Idle {
      ActTaken(s.threads[t], View(s, s.threads[t].p), c);
      ActStays(s.threads[t], View(s, s.threads[t].p), c);
    }
  }

  lemma StepInvalidationInv(s: State, t: ThreadId, c: Choice)
    requires Typed(s) && OwnInv(s) && InvalidationInv(s) && Step(s, t, c).Some?
    ensures InvalidationInv(Step(s, t, c).value)
  {
    var s' := Step(s, t, c).value;
    StepCreator(s, t, c);
    if s.threads[t].pc != Idle {
      ActTaken(s.threads[t], View(s, s.threads[t].p), c);
      ActStays(s.threads[t], View(s, s.threads[t].p), c);
    }
    forall u, h | Invalidating(s', u, h)
      ensures h in s'.creator && s'.creator[h] == s'.threads[u].p
    {
      assert Invalidating(s, u, h) || (u == t && Owner(s, s.threads[t].p, h));
    }
  }

  lemma {:induction false} ReachableOwnership(s0: State, schedule: seq<(ThreadId, Choice)>)
    requires Typed(s0) && Initial(s0) && Exec(s0, schedule).Some?
    ensures var s := Exec(s0, schedule).value; LockInv(s) && OwnInv(s) && InvalidationInv(s)
  {
    if schedule == [] {
    } else {
      var last := |schedule| - 1;
      ExecStep(s0, schedule);
      ReachableOwnership(s0, schedule[..last]);
      var s := Exec(s0, schedule[..last]).value;
      StepLockInv(s, schedule[last].0, schedule[last].1);
      StepOwnInv(s, schedule[last].0, schedule[last].1);
      StepInvalidationInv(s, schedule[last].0, schedule[last].1);
    }
  }

  /** In every run each handle is disconnected at most once, and only by the provider that published it. */
  lemma DisconnectedOnceByCreator(s0: State, schedule: seq<(ThreadId, Choice)>, i: nat, j: nat)
    requires Typed(s0) && Initial(s0) && Exec(s0, schedule).Some?
    requires i < |Exec(s0, schedule).value.log| && j < |Exec(s0, schedule).value.log|
    ensures var s := Exec(s0, schedule).value;
      && s.log[i].0 in s.creator && s.log[i].1 == s.creator[s.log[i].0]
      && (s.log[i].0 == s.log[j].0 ==> i == j)
  {
    ReachableOwnership(s0, schedule);
  }

  /**
   Every published handle is in exactly one of three situations: owned by the provider
   that published it, condemned by exactly one invalidation, or disconnected.
   */
  lemma EveryHandleAccountedFor(s0: State, schedule: seq<(ThreadId, Choice)>, h: Handle)
    requires Typed(s0) && Initial(s0) && Exec(s0, schedule).Some? && h in Exec(s0, schedule).value.creator
    ensures var s := Exec(s0, schedule).value;
      var owned, condemned, gone := Owner(s, s.creator[h], h), exists t :: Condemned(s, t, h), Logged(s, h);
      && (owned || condemned || gone)
      && !(owned && condemned) && !(owned && gone) && !(condemned && gone)
      && (forall p :: Owner(s, p, h) ==> p == s.creator[h])
      && (forall t, u :: Condemned(s, t, h) && Condemned(s, u, h) ==> t == u)
  {
    ReachableOwnership(s0, schedule);
  }

  /** All that a step of an invalidation for the stale handle `h` may do. */
  predicate Targets(v: Sight, e: Effect, h: Handle) {
    && (e.me != v.me ==> v.me.qm == Some(h))
    && (e.disc.Some? ==> e.disc == Some(h))
    && !e.cache.Put? && (e.cache.Remove? ==> v.cached == Some(h))
  }

  lemma ActTargets(th: Thread, v: Sight, c: Choice, h: Handle)
    requires InvalidateAct(th, v, c).Some? && th.snap == Some(h) && TakenIsStale(th)
    requires th.pc.Guard? || Invalidates(th.pc)
    ensures Targets(v, InvalidateAct(th, v, c).value, h)
  {
  }

  lemma OneInvalidationStep(s: State, t: ThreadId, c: Choice, h: Handle)
    requires Typed(s) && Step(s, t, c).Some? && s.threads[t].snap == Some(h) && TakenIsStale(s.threads[t])
    requires s.threads[t].pc.Guard? || Invalidates(s.threads[t].pc)
    ensures var s' := Step(s, t, c).value;
      && s'.providers.Keys == s.providers.Keys
      && (forall p | p in s.providers && s'.providers[p] != s.providers[p] ::
            p == s.threads[t].p && s.providers[p].qm == Some(h))
      && (s'.log == s.log || s'.log == s.log + [(h, s.threads[t].p)])
      && (forall k | k in s.cache && s.cache[k] != h :: k in s'.cache && s'.cache[k] == s.cache[k])
      && s'.cache.Keys <= s.cache.Keys
  {
    hide InvalidateAct, TakenIsStale;
    ActTargets(s.threads[t], View(s, s.threads[t].p), c, h);
    ActStays(s.threads[t], View(s, s.threads[t].p), c);
  }

  /**
   A step of an invalidation for the stale handle `h` never clears, disconnects or
   evicts any other handle.
   */
  lemma InvalidationTouchesOnlyItsHandle(s0: State, schedule: seq<(ThreadId, Choice)>, t: ThreadId, c: Choice,
      h: Handle)
    requires Typed(s0) && Initial(s0) && Exec(s0, schedule).Some?
    requires var s := Exec(s0, schedule).value;
      && Step(s, t, c).Some? && s.threads[t].snap == Some(h)
      && (s.threads[t].pc.Guard? || Invalidates(s.threads[t].pc))
    ensures var s := Exec(s0, schedule).value; var s' := Step(s, t, c).value;
      && s'.providers.Keys == s.providers.Keys
      && (forall p | p in s.providers && s'.providers[p] != s.providers[p] ::
            p == s.threads[t].p && s.providers[p].qm == Some(h))
      && (s'.log == s.log || s'.log == s.log + [(h, s.threads[t].p)])
      && (forall k | k in s.cache && s.cache[k] != h :: k in s'.cache && s'.cache[k] == s.cache[k])
      && s'.cache.Keys <= s.cache.Keys
  {
    ReachableOwnership(s0, schedule);
    var s := Exec(s0, schedule).value;
    assert TakenIsStale(s.threads[t]);
    OneInvalidationStep(s, t, c, h);
  }

  // ----- evicted handles stay out ------------------------------------------

  predicate OutOfCache(s: State, h: Handle) {
    h in s.creator && forall k | k in s.cache :: s.cache[k] != h
  }

  /** When the owner's invalidation of `h` finishes, the cache does not hold `h`. */
  lemma EvictionRemoves(s: State, t: ThreadId, c: Choice, h: Handle)
    requires Typed(s) && OwnInv(s) && InvalidationInv(s) && Step(s, t, c).Some?
    requires s.threads[t].pc.Evict? && Invalidating(s, t, h)
    ensures OutOfCache(Step(s, t, c).value, h)
  {
    var s' := Step(s, t, c).value;
    StepCreator(s, t, c);
    var k0 := s.providers[s.threads[t].p].key;
    EvictAct(s.threads[t], View(s, s.threads[t].p), c);
    assert forall k | k in s.cache :: s.cache[k] == h ==> k == k0;
  }

  lemma EvictAct(th: Thread, v: Sight, c: Choice)
    requires th.pc.Evict? && Act(th, v, c).Some?
    ensures var e := Act(th, v, c).value;
      e.me == v.me && e.th.p == th.p && e.cache == if v.cached == th.taken then Remove else Keep
  {
  }

  lemma {:induction false} StaysOut(s: State, schedule: seq<(ThreadId, Choice)>, h: Handle)
    requires Typed(s) && LockInv(s) && OwnInv(s) && OutOfCache(s, h) && Exec(s, schedule).Some?
    ensures var s' := Exec(s, schedule).value; LockInv(s') && OwnInv(s') && OutOfCache(s', h)
  {
    if schedule == [] {
    } else {
      var last := |schedule| - 1;
      ExecStep(s, schedule);
      StaysOut(s, schedule[..last], h);
      var m := Exec(s, schedule[..last]).value;
      StepLockInv(m, schedule[last].0, schedule[last].1);
      StepOwnInv(m, schedule[last].0, schedule[last].1);
      StepCreator(m, schedule[last].0, schedule[last].1);
    }
  }

  /**
   Once the invalidation of a handle by its owner has finished, the handle is out of
   the cache and never comes back, whatever any thread does afterwards.
   */
  lemma EvictedNeverReturns(s0: State, before: seq<(ThreadId, Choice)>, t: ThreadId, c: Choice, h: Handle,
      after: seq<(ThreadId, Choice)>)
    requires Typed(s0) && Initial(s0) && Exec(s0, before).Some?
    requires var s := Exec(s0, before).value;
      && Step(s, t, c).Some? && s.threads[t].pc.Evict? && Invalidating(s, t, h)
      && Typed(Step(s, t, c).value) && Exec(Step(s, t, c).value, after).Some?
    ensures var s := Exec(Step(Exec(s0, before).value, t, c).value, after).value;
      forall k | k in s.cache :: s.cache[k] != h
  {
    ReachableOwnership(s0, before);
    var s := Exec(s0, before).value;
    EvictionRemoves(s, t, c, h);
    StepLockInv(s, t, c);
    StepOwnInv(s, t, c);
    StaysOut(Step(s, t, c).value, after, h);
  }
}
