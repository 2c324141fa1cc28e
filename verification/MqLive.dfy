/**
 Dead handles in the cache.  A cached handle is its creator's, or its creator is still
 invalidating it - until some disconnect() is called on the owner of a cached handle.
 That is the one and only way a dead handle gets into the cache.
 */
module MqLive {
  import opened MqProtocol
  import opened MqSteps
  import opened MqHandles
  import opened MqCache

  /** A published handle that its creator still owns, or has not finished invalidating. */
  ghost predicate Alive(s: State, h: Handle)
    requires h in s.creator
  {
    || Owner(s, s.creator[h], h)
    || exists t :: Invalidating(s, t, h) && s.threads[t].p == s.creator[h]
  }

  ghost predicate LiveCache(s: State)
    requires Typed(s)
  {
    forall k | k in s.cache :: s.cache[k] in s.creator && Alive(s, s.cache[k])
  }

  /** Thread `t` is about to disconnect() a provider that owns the handle cached under its key. */
  predicate QuitsCached(s: State, t: ThreadId)
    requires Typed(s)
  {
    && t in s.threads && s.threads[t].pc.Disconnect?
    && var me := s.providers[s.threads[t].p];
    me.qm.Some? && !me.shared && me.key in s.cache && s.cache[me.key] == me.qm.value
  }

  // ----- past MQDISC, the handle has been disconnected ----------------------

  ghost predicate DisposedInv(s: State) {
    forall t, h | Invalidating(s, t, h) && !s.threads[t].pc.Mqdisc? :: Logged(s, h)
  }

  /** A thread comes to the eviction only by disconnecting what it has taken. */
  predicate DisposeShape(th: Thread, e: Effect) {
    (e.th.pc.EvictWait? || e.th.pc.Evict?) ==>
      && e.th.taken == th.taken && e.th.wasShared == th.wasShared
      && (th.pc.EvictWait? || th.pc.Evict? || (th.pc.Mqdisc? && e.disc == th.taken))
  }

  lemma LookupDisposes(th: Thread, v: Sight, c: Choice)
    requires LookupAct(th, v, c).Some?
    ensures DisposeShape(th, LookupAct(th, v, c).value)
  {
  }

  lemma TransferDisposes(th: Thread, v: Sight, c: Choice)
    requires TransferAct(th, v, c).Some?
    ensures DisposeShape(th, TransferAct(th, v, c).value)
  {
  }

  lemma InvalidateDisposes(th: Thread, v: Sight, c: Choice)
    requires InvalidateAct(th, v, c).Some?
    ensures DisposeShape(th, InvalidateAct(th, v, c).value)
  {
  }

  lemma ActDisposes(th: Thread, v: Sight, c: Choice)
    requires Act(th, v, c).Some?
    ensures DisposeShape(th, Act(th, v, c).value)
  {
    match th.pc
    case ReconnectWait | CheckWait | Check | LookupWait | Lookup => LookupDisposes(th, v, c);
    case AliveWait | Alive | DictWait | Dict | Snapshot | OpWait | Open | Transfer | Close =>
      TransferDisposes(th, v, c);
    case GuardWait | Guard | Mqdisc | EvictWait | Evict => InvalidateDisposes(th, v, c);
    case _ =>
  }

  /** The log only grows. */
  lemma StepLog(s: State, t: ThreadId, c: Choice)
    requires Typed(s) && Step(s, t, c).Some?
    ensures var e := EffectOf(s, t, c).value; var s' := Step(s, t, c).value;
      && (forall h :: Logged(s, h) ==> Logged(s', h))
      && (e.disc.Some? ==> Logged(s', e.disc.value))
  {
    var e := EffectOf(s, t, c).value;
    var s' := Step(s, t, c).value;
    forall h | Logged(s, h)
      ensures Logged(s', h)
    {
      var i :| 0 <= i < |s.log| && s.log[i].0 == h;
      assert s'.log[i].0 == h;
    }
    if e.disc.Some? {
      assert s'.log[|s.log|].0 == e.disc.value;
    }
  }

  lemma StepDisposedInv(s: State, t: ThreadId, c: Choice)
    requires Typed(s) && DisposedInv(s) && Step(s, t, c).Some?
    ensures DisposedInv(Step(s, t, c).value)
  {
    var s' := Step(s, t, c).value;
    StepLog(s, t, c);
    if s.threads[t].pc != Idle {
      ActDisposes(s.threads[t], View(s, s.threads[t].p), c);
    }
    forall u, h | Invalidating(s', u, h) && !s'.threads[u].pc.Mqdisc?
      ensures Logged(s', h)
    {
      assert u != t ==> Invalidating(s, u, h);
      assert u == t && !s.threads[t].pc.Mqdisc? ==> Invalidating(s, u, h);
    }
  }

  lemma {:induction false} ReachableDisposed(s0: State, schedule: seq<(ThreadId, Choice)>)
    requires Typed(s0) && Initial(s0) && Exec(s0, schedule).Some?
    ensures DisposedInv(Exec(s0, schedule).value)
  {
    if schedule == [] {
    } else {
      var last := |schedule| - 1;
      ExecStep(s0, schedule);
      ReachableDisposed(s0, schedule[..last]);
      StepDisposedInv(Exec(s0, schedule[..last]).value, schedule[last].0, schedule[last].1);
    }
  }

  // ----- steps that keep cached handles alive ------------------------------

  /** An owned handle stays with its owner, or its invalidation starts - unless disconnect() is called on the owner. */
  lemma OwnedStaysAlive(s: State, t: ThreadId, c: Choice, h: Handle)
    requires Typed(s) && OwnInv(s) && Step(s, t, c).Some?
    requires h in s.creator && Owner(s, s.creator[h], h)
    requires !(s.threads[t].pc.Disconnect? && s.threads[t].p == s.creator[h])
    ensures var s' := Step(s, t, c).value; h in s'.creator && Alive(s', h)
  {
    var s' := Step(s, t, c).value;
    StepCreator(s, t, c);
    if s.threads[t].pc != Idle {
      ActTaken(s.threads[t], View(s, s.threads[t].p), c);
      ActStays(s.threads[t], View(s, s.threads[t].p), c);
    }
    if !Owner(s', s.creator[h], h) {
      assert s.threads[t].p == s.creator[h] && !AfterCheck(s.threads[t].pc);
      assert Invalidating(s', t, h);
    }
  }

  /** An invalidation under way goes on, until its last step takes the handle out of the cache. */
  lemma InvalidatedStaysAlive(s: State, t: ThreadId, c: Choice, u: ThreadId, h: Handle)
    requires Typed(s) && OwnInv(s) && InvalidationInv(s) && Step(s, t, c).Some? && Invalidating(s, u, h)
    ensures var s' := Step(s, t, c).value; h in s'.creator && (Alive(s', h) || OutOfCache(s', h))
  {
    var s' := Step(s, t, c).value;
    StepCreator(s, t, c);
    if u == t {
      ActTaken(s.threads[t], View(s, s.threads[t].p), c);
      ActStays(s.threads[t], View(s, s.threads[t].p), c);
      if s.threads[t].pc.Evict? {
        EvictionRemoves(s, t, c, h);
      } else {
        assert Invalidating(s', t, h);
      }
    } else {
      assert Invalidating(s', u, h);
    }
  }

  /** Disconnecting the creator of a cached handle that owns it is what QuitsCached says. */
  lemma OwnerOfCached(s: State, t: ThreadId, k: Key)
    requires Typed(s) && OwnInv(s) && t in s.threads && s.threads[t].pc.Disconnect? && k in s.cache
    requires s.cache[k] in s.creator && s.threads[t].p == s.creator[s.cache[k]] && Owner(s, s.threads[t].p, s.cache[k])
    ensures QuitsCached(s, t)
  {
    assert OfKey(s, s.cache[k], k);
  }

  lemma StepLiveCache(s: State, t: ThreadId, c: Choice)
    requires Typed(s) && OwnInv(s) && InvalidationInv(s) && LiveCache(s) && Step(s, t, c).Some? && !QuitsCached(s, t)
    ensures var s' := Step(s, t, c).value; Typed(s') && LiveCache(s')
  {
    var s' := Step(s, t, c).value;
    StepTyped(s, t, c);
    StepCreator(s, t, c);
    forall k | k in s'.cache
      ensures s'.cache[k] in s'.creator && Alive(s', s'.cache[k])
    {
      var h := s'.cache[k];
      if k in s.cache && s.cache[k] == h {
        if Owner(s, s.creator[h], h) {
          if s.threads[t].pc.Disconnect? && s.threads[t].p == s.creator[h] { OwnerOfCached(s, t, k); }
          OwnedStaysAlive(s, t, c, h);
        } else {
          var u :| Invalidating(s, u, h) && s.threads[u].p == s.creator[h];
          InvalidatedStaysAlive(s, t, c, u, h);
        }
      } else {
        ActTaken(s.threads[t], View(s, s.threads[t].p), c);
        ActStays(s.threads[t], View(s, s.threads[t].p), c);
      }
    }
  }

  // ----- the step that does not --------------------------------------------

  /** Nobody is invalidating a handle that has an owner. */
  lemma OwnedIsNotInvalidated(s: State, h: Handle)
    requires Typed(s) && OwnInv(s) && DisposedInv(s) && h in s.creator && Owner(s, s.creator[h], h)
    ensures forall u :: Invalidating(s, u, h) ==> s.threads[u].p != s.creator[h]
  {
    forall u | Invalidating(s, u, h)
      ensures s.threads[u].p != s.creator[h]
    {
      assert s.threads[u].pc.Mqdisc? ==> Condemned(s, u, h);
    }
  }

  lemma QuittingKills(s: State, t: ThreadId, c: Choice)
    requires Typed(s) && OwnInv(s) && DisposedInv(s) && Step(s, t, c).Some? && QuitsCached(s, t)
    ensures var s' := Step(s, t, c).value; Typed(s') && !LiveCache(s')
  {
    var s' := Step(s, t, c).value;
    var p := s.threads[t].p;
    var h := s.providers[p].qm.value;
    StepTyped(s, t, c);
    DisconnectIsOrdinary(s, t, c);
    assert Owner(s, p, h) && s.creator[h] == p;
    OwnedIsNotInvalidated(s, h);
    forall u
      ensures Invalidating(s', u, h) ==> s'.threads[u].p != p
    {
      assert Invalidating(s', u, h) ==> Invalidating(s, u, h);
    }
    assert s'.cache[s.providers[p].key] == h && !Alive(s', h);
  }

  /** A step brings a dead handle into the cache exactly if it is disconnect() on the owner of a cached handle. */
  lemma StepKeepsLiveCacheExactly(s0: State, schedule: seq<(ThreadId, Choice)>, t: ThreadId, c: Choice)
    requires Typed(s0) && Initial(s0) && Exec(s0, schedule).Some?
    requires var s := Exec(s0, schedule).value; LiveCache(s) && Step(s, t, c).Some?
    ensures var s := Exec(s0, schedule).value;
      && Typed(Step(s, t, c).value)
      && (LiveCache(Step(s, t, c).value) <==> !QuitsCached(s, t))
  {
    var s := Exec(s0, schedule).value;
    ReachableOwnership(s0, schedule);
    ReachableDisposed(s0, schedule);
    if QuitsCached(s, t) {
      QuittingKills(s, t, c);
    } else {
      StepLiveCache(s, t, c);
    }
  }

  // ----- whole runs --------------------------------------------------------

  ghost predicate LiveAt(s0: State, schedule: seq<(ThreadId, Choice)>, n: nat)
    requires Typed(s0) && n <= |schedule|
  {
    var s := Exec(s0, schedule[..n]); s.Some? && LiveCache(s.value)
  }

  /** Step number `n` of the run is disconnect() on the owner of a cached handle. */
  predicate QuitsCachedAt(s0: State, schedule: seq<(ThreadId, Choice)>, n: nat)
    requires Typed(s0) && n < |schedule|
  {
    var s := Exec(s0, schedule[..n]); s.Some? && QuitsCached(s.value, schedule[n].0)
  }

  ghost predicate LiveThroughout(s0: State, schedule: seq<(ThreadId, Choice)>)
    requires Typed(s0)
  {
    forall n: nat | n <= |schedule| :: LiveAt(s0, schedule, n)
  }

  predicate NeverQuitsCached(s0: State, schedule: seq<(ThreadId, Choice)>)
    requires Typed(s0)
  {
    forall n: nat | n < |schedule| :: !QuitsCachedAt(s0, schedule, n)
  }

  lemma ThroughoutSplits(s0: State, schedule: seq<(ThreadId, Choice)>)
    requires Typed(s0) && schedule != []
    ensures var most := schedule[..|schedule| - 1];
      && (LiveThroughout(s0, schedule) <==> LiveThroughout(s0, most) && LiveAt(s0, schedule, |schedule|))
      && (NeverQuitsCached(s0, schedule) <==> NeverQuitsCached(s0, most) && !QuitsCachedAt(s0, schedule, |most|))
      && (LiveThroughout(s0, most) ==> LiveAt(s0, most, |most|))
  {
    hide LiveCache, QuitsCached, Exec;
    var most := schedule[..|schedule| - 1];
    forall n: nat | n < |schedule|
      ensures LiveAt(s0, schedule, n) <==> LiveAt(s0, most, n)
      ensures n < |most| ==> (QuitsCachedAt(s0, schedule, n) <==> QuitsCachedAt(s0, most, n))
    {
      assert most[..n] == schedule[..n];
    }
  }

  /** What `LiveAt` and `QuitsCachedAt` say of the last step of a run. */
  lemma LastStepAt(s0: State, schedule: seq<(ThreadId, Choice)>)
    requires Typed(s0) && schedule != [] && Exec(s0, schedule).Some?
    ensures var last := |schedule| - 1; var s := Exec(s0, schedule[..last]);
      && s.Some? && Step(s.value, schedule[last].0, schedule[last].1) == Exec(s0, schedule)
      && (LiveAt(s0, schedule[..last], last) <==> LiveCache(s.value))
      && (QuitsCachedAt(s0, schedule, last) <==> QuitsCached(s.value, schedule[last].0))
      && (LiveAt(s0, schedule, |schedule|) <==> LiveCache(Exec(s0, schedule).value))
  {
    hide LiveCache, QuitsCached, Step;
    ExecStep(s0, schedule);
    var most := schedule[..|schedule| - 1];
    assert schedule[..|schedule|] == schedule && most[..|most|] == most;
  }

  /**
   All along a run, cached handles are still owned by their creators or being invalidated by
   them, exactly if disconnect() is never called on the owner of a cached handle.
   */
  lemma {:induction false} CacheStaysLiveExactly(s0: State, schedule: seq<(ThreadId, Choice)>)
    requires Typed(s0) && Initial(s0) && Exec(s0, schedule).Some?
    ensures LiveThroughout(s0, schedule) <==> NeverQuitsCached(s0, schedule)
  {
    if schedule == [] {
      assert schedule[..0] == schedule;
    } else {
      hide LiveThroughout, NeverQuitsCached, LiveAt, QuitsCachedAt, LiveCache, QuitsCached, Step;
      var last := |schedule| - 1;
      ThroughoutSplits(s0, schedule);
      LastStepAt(s0, schedule);
      CacheStaysLiveExactly(s0, schedule[..last]);
      if LiveThroughout(s0, schedule[..last]) {
        StepKeepsLiveCacheExactly(s0, schedule[..last], schedule[last].0, schedule[last].1);
      }
    }
  }

  // ----- runs without disconnect() -----------------------------------------

  predicate NobodyQuits(s: State) {
    forall t | t in s.threads :: !s.threads[t].pc.DisconnectWait? && !s.threads[t].pc.Disconnect?
  }

  predicate NoDisconnectCalls(schedule: seq<(ThreadId, Choice)>) {
    forall i | 0 <= i < |schedule| :: !(schedule[i].1.Begin? && schedule[i].1.call == Disconnecting)
  }

  lemma StepNobodyQuits(s: State, t: ThreadId, c: Choice)
    requires Typed(s) && NobodyQuits(s) && Step(s, t, c).Some? && !(c.Begin? && c.call == Disconnecting)
    ensures NobodyQuits(Step(s, t, c).value)
  {
    if s.threads[t].pc != Idle {
      ActNeverQuits(s.threads[t], View(s, s.threads[t].p), c);
    }
  }

  lemma ActNeverQuits(th: Thread, v: Sight, c: Choice)
    requires Act(th, v, c).Some? && !th.pc.DisconnectWait? && !th.pc.Disconnect?
    ensures var pc := Act(th, v, c).value.th.pc; !pc.DisconnectWait? && !pc.Disconnect?
  {
    match th.pc
    case ReconnectWait | CheckWait | Check | LookupWait | Lookup =>
    case Adopt | Dial | Publish =>
    case AliveWait | Alive | DictWait | Dict | Snapshot | OpWait | Open | Transfer | Close =>
    case GuardWait | Guard | Mqdisc | EvictWait | Evict =>
    case _ =>
  }

  /** In particular in every run without disconnect(). */
  lemma {:induction false} CachedHandleIsAlive(s0: State, schedule: seq<(ThreadId, Choice)>)
    requires Typed(s0) && Initial(s0) && Exec(s0, schedule).Some? && NoDisconnectCalls(schedule)
    ensures var s := Exec(s0, schedule).value; NobodyQuits(s) && LiveCache(s)
  {
    if schedule == [] {
    } else {
      var last := |schedule| - 1;
      ExecStep(s0, schedule);
      CachedHandleIsAlive(s0, schedule[..last]);
      StepNobodyQuits(Exec(s0, schedule[..last]).value, schedule[last].0, schedule[last].1);
      StepKeepsLiveCacheExactly(s0, schedule[..last], schedule[last].0, schedule[last].1);
    }
  }
}
