/**
 Publication assignment by assignment.  `connect` writes `qm`, `_connected` and
 `_shared_connection` one after the other and not under the provider's lock, and a fresh
 handle goes into the cache by reading `qm` once more.  Here each assignment is a step of
 its own; all other steps are those of module MqProtocol.
 */
module MqTorn {
  import opened Util
  import opened MqProtocol
  import opened MqSteps
  import opened MqLocks
  import opened MqHandles

  /** A state, and how many assignments of its publication each thread has made already. */
  datatype Torn = Torn(s: State, done: map<ThreadId, nat>)

  function Done(x: Torn, t: ThreadId): nat {
    if t in x.done then x.done[t] else 0
  }

  /** One field of the thread's provider is written. */
  function Write(x: Torn, t: ThreadId, me: Provider): (r: Torn)
    requires Typed(x.s) && t in x.s.threads && x.s.threads[t].pc != Idle
    ensures Typed(r.s)
  {
    Torn(x.s.(providers := x.s.providers[x.s.threads[t].p := me]), x.done[t := Done(x, t) + 1])
  }

  /** The last write, after which `connect` returns. */
  function Leave(x: Torn, t: ThreadId, me: Provider, cache: map<Key, Handle>): (r: Torn)
    requires Typed(x.s) && t in x.s.threads && x.s.threads[t].pc != Idle
    ensures Typed(r.s)
  {
    var th := x.s.threads[t];
    Torn(x.s.(threads := x.s.threads[t := AfterConnect(th, true)], providers := x.s.providers[th.p := me],
              cache := cache, locks := x.s.locks - {ReconnectLock(th.p)}),
         x.done - {t})
  }

  /** The next assignment with which a provider comes to share the cached handle. */
  function ShareNext(x: Torn, t: ThreadId): (r: Torn)
    requires Typed(x.s) && t in x.s.threads && x.s.threads[t].pc.Adopt?
    ensures Typed(r.s)
  {
    var th := x.s.threads[t];
    var me := x.s.providers[th.p];
    match Done(x, t)
    case 0 => Write(x, t, me.(qm := th.cand))
    case 1 => Write(x, t, me.(connected := true))
    case _ => Leave(x, t, me.(shared := true), x.s.cache)
  }

  /** The cache entry for the key becomes what `qm` is by now. */
  function CacheOwn(s: State, p: ProviderId): map<Key, Handle>
    requires p in s.providers
  {
    var me := s.providers[p];
    if me.qm.Some? then s.cache[me.key := me.qm.value] else s.cache - {me.key}
  }

  /** The next assignment with which a provider publishes a fresh handle. */
  function PublishNext(x: Torn, t: ThreadId): (r: Option<Torn>)
    requires Typed(x.s) && t in x.s.threads && x.s.threads[t].pc.Publish? && x.s.threads[t].cand.Some?
    ensures r.Some? ==> Typed(r.value.s)
  {
    var th := x.s.threads[t];
    var me := x.s.providers[th.p];
    match Done(x, t)
    case 0 =>
      var w := Write(x, t, me.(qm := th.cand));
      Some(w.(s := w.s.(creator := x.s.creator[th.cand.value := th.p])))
    case 1 => Some(Write(x, t, me.(connected := true)))
    case 2 => Some(Write(x, t, me.(shared := false)))
    case _ => if CacheLock in x.s.locks then None else Some(Leave(x, t, me, CacheOwn(x.s, th.p)))
  }

  /** One assignment of a thread that is publishing, or an ordinary step. */
  function TornStep(x: Torn, t: ThreadId, c: Choice): (r: Option<Torn>)
    requires Typed(x.s)
    ensures r.Some? ==> Typed(r.value.s)
  {
    if t in x.s.threads && x.s.threads[t].pc.Adopt? then
      if c == Go then Some(ShareNext(x, t)) else None
    else if t in x.s.threads && x.s.threads[t].pc.Publish? then
      if c == Go && x.s.threads[t].cand.Some? then PublishNext(x, t) else None
    else
      StepTyped(x.s, t, c);
      var s' := Step(x.s, t, c);
      if s'.None? then None else Some(Torn(s'.value, x.done))
  }

  // ----- what the assignments do -------------------------------------------

  /** Thread `t` has made one more assignment, to a field of its provider. */
  ghost predicate Writes(x: Torn, x': Torn, t: ThreadId) {
    && Typed(x.s) && Typed(x'.s) && t in x.s.threads && Publishing(x.s.threads[t].pc)
    && x'.done == x.done[t := Done(x, t) + 1] && x'.s.threads == x.s.threads
    && SameButOne(x.s, x'.s, x.s.threads[t].p)
    && x'.s.cache == x.s.cache && x'.s.locks == x.s.locks
  }

  /** Thread `t` has made its last assignment and left `connect`. */
  ghost predicate Leaves(x: Torn, x': Torn, t: ThreadId) {
    && Typed(x.s) && Typed(x'.s) && t in x.s.threads && Publishing(x.s.threads[t].pc)
    && x'.done == x.done - {t} && x'.s.threads == x.s.threads[t := AfterConnect(x.s.threads[t], true)]
    && SameButOne(x.s, x'.s, x.s.threads[t].p)
    && x'.s.creator == x.s.creator && x'.s.locks == x.s.locks - {ReconnectLock(x.s.threads[t].p)}
  }

  ghost predicate SameButOne(s: State, s': State, p: ProviderId) {
    && p in s.providers && p in s'.providers && s'.providers == s.providers[p := s'.providers[p]]
    && s'.providers[p].key == s.providers[p].key && s'.log == s.log && s'.nextHandle == s.nextHandle
  }

  /** The provider's fields after the next write, and the creators. */
  lemma ShareWrites(x: Torn, t: ThreadId)
    requires Typed(x.s) && t in x.s.threads && x.s.threads[t].pc.Adopt? && Done(x, t) < 2
    ensures var x' := ShareNext(x, t); var th := x.s.threads[t]; var me := x.s.providers[th.p];
      && Writes(x, x', t) && x'.s.creator == x.s.creator
      && x'.s.providers[th.p] == if Done(x, t) == 0 then me.(qm := th.cand) else me.(connected := true)
  {
  }

  lemma ShareLeaves(x: Torn, t: ThreadId)
    requires Typed(x.s) && t in x.s.threads && x.s.threads[t].pc.Adopt? && Done(x, t) >= 2
    ensures var x' := ShareNext(x, t); var p := x.s.threads[t].p;
      && Leaves(x, x', t) && x'.s.cache == x.s.cache
      && x'.s.providers[p] == x.s.providers[p].(shared := true)
  {
  }

  lemma PublishWrites(x: Torn, t: ThreadId)
    requires Typed(x.s) && t in x.s.threads && x.s.threads[t].pc.Publish? && x.s.threads[t].cand.Some?
    requires Done(x, t) < 3
    ensures PublishNext(x, t).Some?
    ensures var x' := PublishNext(x, t).value; var th := x.s.threads[t]; var me := x.s.providers[th.p];
      && Writes(x, x', t)
      && x'.s.creator == (if Done(x, t) == 0 then x.s.creator[th.cand.value := th.p] else x.s.creator)
      && x'.s.providers[th.p] ==
           if Done(x, t) == 0 then me.(qm := th.cand)
           else if Done(x, t) == 1 then me.(connected := true)
           else me.(shared := false)
  {
  }

  lemma PublishLeaves(x: Torn, t: ThreadId)
    requires Typed(x.s) && t in x.s.threads && x.s.threads[t].pc.Publish? && x.s.threads[t].cand.Some?
    requires Done(x, t) >= 3 && PublishNext(x, t).Some?
    ensures var x' := PublishNext(x, t).value;
      && Leaves(x, x', t) && x'.s.providers == x.s.providers && x'.s.cache == CacheOwn(x.s, x.s.threads[t].p)
  {
    var p := x.s.threads[t].p;
    assert x.s.providers[p := x.s.providers[p]] == x.s.providers;
  }

  // ----- who may disconnect what -------------------------------------------

  /** Thread `t` has written `qm` to share a handle, and not yet `_shared_connection`. */
  predicate Sharing(x: Torn, t: ThreadId, p: ProviderId) {
    t in x.s.threads && x.s.threads[t].pc.Adopt? && x.s.threads[t].p == p && Done(x, t) > 0
  }

  /** Thread `t` has written `qm` to publish a fresh handle, and not yet the cache. */
  predicate Announcing(x: Torn, t: ThreadId, p: ProviderId) {
    t in x.s.threads && x.s.threads[t].pc.Publish? && x.s.threads[t].p == p && Done(x, t) > 0
  }

  ghost predicate HalfShared(x: Torn, p: ProviderId) {
    exists t :: Sharing(x, t, p)
  }

  ghost predicate HalfPublished(x: Torn, p: ProviderId) {
    exists t :: Announcing(x, t, p)
  }

  /** The provider's fields say that it owns `h`, and it is not just sharing it. */
  ghost predicate Own(x: Torn, p: ProviderId, h: Handle) {
    Owner(x.s, p, h) && !HalfShared(x, p)
  }

  /** The provider owns `h` or is about to. */
  ghost predicate Mine(x: Torn, p: ProviderId, h: Handle) {
    && p in x.s.providers && x.s.providers[p].qm == Some(h)
    && !HalfShared(x, p) && (!x.s.providers[p].shared || HalfPublished(x, p))
  }

  /**
   Thread `t` is about to take `qm` away from its provider, by disconnect() or past the
   guard of an invalidation, in the middle of a connect() that has already written `qm` of
   a shared handle: the fields still say that the provider owns it.
   */
  ghost predicate Exposed(x: Torn, t: ThreadId)
    requires Typed(x.s)
  {
    && t in x.s.threads && (x.s.threads[t].pc.Disconnect? || (x.s.threads[t].pc.Guard? && !Skips(x.s, t)))
    && var me := x.s.providers[x.s.threads[t].p];
    me.qm.Some? && !me.shared && HalfShared(x, x.s.threads[t].p)
  }

  /**
   Every disconnect so far, and every one that an invalidation past its guard is going to
   make, is the only one of its handle and in the name of the handle's creator.
   */
  ghost predicate Sound(s: State) {
    && LogInv(s)
    && (forall t, h | Condemned(s, t, h) :: h in s.creator && s.creator[h] == s.threads[t].p && !Logged(s, h))
    && (forall t, u, h | Condemned(s, t, h) && Condemned(s, u, h) :: t == u)
  }

  // ----- the invariant -----------------------------------------------------

  ghost predicate Claims(x: Torn) {
    && Sound(x.s)
    && (forall p, h | Mine(x, p, h) :: h in x.s.creator && x.s.creator[h] == p && !Logged(x.s, h))
    && (forall t, h | Condemned(x.s, t, h) :: !Mine(x, x.s.threads[t].p, h))
  }

  /** What the connecting threads have written. */
  ghost predicate Progress(x: Torn)
    requires Typed(x.s)
  {
    && (forall t | Done(x, t) > 0 ::
          && t in x.s.threads && Publishing(x.s.threads[t].pc)
          && Done(x, t) <= (if x.s.threads[t].pc.Adopt? then 2 else 3)
          && var qm := x.s.providers[x.s.threads[t].p].qm; qm.None? || qm == x.s.threads[t].cand)
    && (forall t | Done(x, t) == 3 && t in x.s.threads :: !x.s.providers[x.s.threads[t].p].shared)
  }

  /** What they have not written is not there. */
  ghost predicate Vacant(x: Torn)
    requires Typed(x.s)
  {
    && (forall t | t in x.s.threads && AfterCheck(x.s.threads[t].pc) && Done(x, t) == 0 ::
          x.s.providers[x.s.threads[t].p].qm.None?)
    && (forall p | p in x.s.providers && x.s.providers[p].qm.Some? && !x.s.providers[p].connected ::
          HalfWritten(x, p))
  }

  ghost predicate Places(x: Torn)
    requires Typed(x.s)
  {
    Progress(x) && Vacant(x)
  }

  /** A thread has written `qm` of the provider, and nothing more. */
  ghost predicate HalfWritten(x: Torn, p: ProviderId) {
    exists t :: (Sharing(x, t, p) || Announcing(x, t, p)) && Done(x, t) == 1
  }

  /** Fresh handles are fresh until their first publication, and each has one thread. */
  ghost predicate Fresh(x: Torn) {
    && (forall t | t in x.s.threads && Publishing(x.s.threads[t].pc) :: x.s.threads[t].cand.Some?)
    && (forall t | t in x.s.threads && x.s.threads[t].pc.Publish? ::
          && x.s.threads[t].cand.value < x.s.nextHandle
          && if Done(x, t) == 0 then x.s.threads[t].cand.value !in x.s.creator
             else x.s.threads[t].cand.value in x.s.creator)
    && (forall t, u | t in x.s.threads && u in x.s.threads ::
          x.s.threads[t].pc.Publish? && x.s.threads[u].pc.Publish? && x.s.threads[t].cand == x.s.threads[u].cand ==>
            t == u)
    && (forall h | h in x.s.creator :: h < x.s.nextHandle)
  }

  /** Nothing to be said against sharing `h`: it is its creator's, or known to be gone. */
  ghost predicate Accounted(x: Torn, h: Handle) {
    h in x.s.creator && (Own(x, x.s.creator[h], h) || Logged(x.s, h) || exists t :: Condemned(x.s, t, h))
  }

  ghost predicate Books(x: Torn) {
    && (forall k | k in x.s.cache :: Accounted(x, x.s.cache[k]))
    && (forall t | t in x.s.threads && x.s.threads[t].pc.Adopt? && x.s.threads[t].cand.Some? ::
          Accounted(x, x.s.threads[t].cand.value))
  }

  ghost predicate TornInv(x: Torn)
    requires Typed(x.s)
  {
    LockInv(x.s) && Places(x) && Fresh(x) && Claims(x) && Books(x)
  }

  // ----- locks -------------------------------------------------------------

  lemma WritesLocks(x: Torn, x': Torn, t: ThreadId)
    requires LockInv(x.s) && Writes(x, x', t)
    ensures LockInv(x'.s)
  {
    hide Holds;
    assert forall u, n :: Owns(x'.s, u, n) <==> Owns(x.s, u, n);
  }

  /** A publishing thread holds one lock, and none once it has left `connect`. */
  lemma PublishingHolds(th: Thread, n: LockName)
    requires Publishing(th.pc)
    ensures Holds(th, n) <==> n == ReconnectLock(th.p)
    ensures !Holds(AfterConnect(th, true), n)
  {
  }

  lemma LeavesLocks(x: Torn, x': Torn, t: ThreadId)
    requires LockInv(x.s) && Leaves(x, x', t)
    ensures LockInv(x'.s)
  {
    var th := x.s.threads[t];
    forall n
      ensures Holds(th, n) <==> n == ReconnectLock(th.p)
      ensures !Holds(AfterConnect(th, true), n)
    {
      PublishingHolds(th, n);
    }
    hide Holds, AfterConnect;
    assert Owns(x.s, t, ReconnectLock(th.p)) <==> Holds(th, ReconnectLock(th.p));
    forall u, n | u in x'.s.threads
      ensures Owns(x'.s, u, n) <==> Holds(x'.s.threads[u], n)
    {
      assert Owns(x.s, u, n) <==> Holds(x.s.threads[u], n);
    }
  }

  lemma TornLocks(x: Torn, t: ThreadId, c: Choice)
    requires Typed(x.s) && LockInv(x.s) && TornStep(x, t, c).Some?
    ensures LockInv(TornStep(x, t, c).value.s)
  {
    var x' := TornStep(x, t, c).value;
    hide LockInv, ShareNext, PublishNext, Writes, Leaves;
    if x.s.threads[t].pc.Adopt? {
      if Done(x, t) < 2 {
        ShareWrites(x, t);
        WritesLocks(x, x', t);
      } else {
        ShareLeaves(x, t);
        LeavesLocks(x, x', t);
      }
    } else if x.s.threads[t].pc.Publish? {
      if Done(x, t) < 3 {
        PublishWrites(x, t);
        WritesLocks(x, x', t);
      } else {
        PublishLeaves(x, t);
        LeavesLocks(x, x', t);
      }
    } else {
      StepLockInv(x.s, t, c);
    }
  }
}
