/**
 Ownership of queue manager handles: each published handle is owned by the
 provider that published it, or condemned by that provider's invalidation, or
 disconnected once - and the cache never resurrects a handle that was evicted.
 */
module MqHandles {
  import opened Util
  import opened MqProtocol
  import opened MqLocks
  import opened MqSteps

  /** Provider `p` uses handle `h` as its own: disconnecting is its business. */
  predicate Owner(s: State, p: ProviderId, h: Handle) {
    p in s.providers && s.providers[p].qm == Some(h) && !s.providers[p].shared
  }

  predicate Logged(s: State, h: Handle) {
    exists i | 0 <= i < |s.log| :: s.log[i].0 == h
  }

  /** An invalidation has taken `h` away from its owner and is about to disconnect it. */
  predicate Condemned(s: State, t: ThreadId, h: Handle) {
    t in s.threads && Holding(s.threads[t], h)
  }

  /** An invalidation of `h` by its owner is past the guard and not yet past the eviction. */
  predicate Invalidating(s: State, t: ThreadId, h: Handle) {
    && t in s.threads && (s.threads[t].pc.Mqdisc? || s.threads[t].pc.EvictWait? || s.threads[t].pc.Evict?)
    && s.threads[t].taken == Some(h) && !s.threads[t].wasShared
  }

  /** `h` was published by a provider of key `k`. */
  predicate OfKey(s: State, h: Handle, k: Key)
    requires Typed(s)
  {
    h in s.creator && s.providers[s.creator[h]].key == k
  }

  /** Providers, the cache and threads that are about to share have handles of their own key. */
  ghost predicate KeyInv(s: State)
    requires Typed(s)
  {
    && (forall p | p in s.providers && s.providers[p].qm.Some? :: OfKey(s, s.providers[p].qm.value, s.providers[p].key))
    && (forall k | k in s.cache :: OfKey(s, s.cache[k], k))
    && (forall t | t in s.threads && s.threads[t].pc.Adopt? ::
          s.threads[t].cand.Some? && OfKey(s, s.threads[t].cand.value, s.providers[s.threads[t].p].key))
  }

  /** A thread that is past the check of `connect` works for an unconnected provider; new handles are new. */
  ghost predicate PlaceInv(s: State)
    requires Typed(s)
  {
    && (forall p | p in s.providers :: s.providers[p].connected <==> s.providers[p].qm.Some?)
    && (forall t | t in s.threads && AfterCheck(s.threads[t].pc) :: s.providers[s.threads[t].p].qm.None?)
    && (forall t | t in s.threads && s.threads[t].pc.Publish? ::
          s.threads[t].cand.Some? && s.threads[t].cand.value !in s.creator && s.threads[t].cand.value < s.nextHandle)
    && (forall t, u | t in s.threads && u in s.threads && s.threads[t].pc.Publish? && s.threads[u].pc.Publish? ::
          s.threads[t].cand == s.threads[u].cand ==> t == u)
    && (forall h | h in s.creator :: h < s.nextHandle)
  }

  /** Who owns a handle, or is about to disconnect it, does so for its creator and has not done it yet. */
  ghost predicate ClaimInv(s: State)
    requires Typed(s)
  {
    && (forall p, h | Owner(s, p, h) :: h in s.creator && s.creator[h] == p && !Logged(s, h))
    && (forall t, h | Condemned(s, t, h) ::
          h in s.creator && s.creator[h] == s.threads[t].p && !Logged(s, h) && !Owner(s, s.threads[t].p, h))
    && (forall t, u, h | Condemned(s, t, h) && Condemned(s, u, h) :: t == u)
  }

  /** The log disconnects a handle in the name of its creator only, and only once. */
  ghost predicate LogInv(s: State) {
    && (forall i | 0 <= i < |s.log| :: s.log[i].0 in s.creator && s.creator[s.log[i].0] == s.log[i].1)
    && (forall i, j | 0 <= i < j < |s.log| :: s.log[i].0 != s.log[j].0)
  }

  /** No published handle is ever lost track of. */
  ghost predicate NoLeak(s: State) {
    forall h | h in s.creator :: Owner(s, s.creator[h], h) || Logged(s, h) || exists t :: Condemned(s, t, h)
  }

  ghost predicate OwnInv(s: State)
    requires Typed(s)
  {
    KeyInv(s) && PlaceInv(s) && ClaimInv(s) && LogInv(s) && NoLeak(s)
  }

  /** Two threads that are connecting the same provider are one thread. */
  lemma OneConnects(s: State, t: ThreadId, u: ThreadId)
    requires LockInv(s) && t in s.threads && u in s.threads
    requires AfterCheck(s.threads[t].pc) && AfterCheck(s.threads[u].pc) && s.threads[t].p == s.threads[u].p
    ensures t == u
  {
    assert Owns(s, t, ReconnectLock(s.threads[t].p)) <==> Holds(s.threads[t], ReconnectLock(s.threads[t].p));
    assert Owns(s, u, ReconnectLock(s.threads[t].p)) <==> Holds(s.threads[u], ReconnectLock(s.threads[t].p));
  }

  /** A thread leaves `connect` with `qm` set: nobody else was connecting the provider. */
  lemma OthersStillFindNothing(s: State, s': State, t: ThreadId)
    requires LockInv(s) && Moved(s, s', t) && PlaceInv(s) && AfterCheck(s.threads[t].pc)
    requires s.threads[t].p in s'.providers
    requires s'.providers == s.providers[s.threads[t].p := s'.providers[s.threads[t].p]]
    requires !AfterCheck(s'.threads[t].pc)
    ensures forall u | u in s'.threads && AfterCheck(s'.threads[u].pc) :: s'.providers[s'.threads[u].p].qm.None?
  {
    forall u | u in s'.threads && AfterCheck(s'.threads[u].pc)
      ensures s'.providers[s'.threads[u].p].qm.None?
    {
      if s.threads[u].p == s.threads[t].p {
        OneConnects(s, t, u);
      }
    }
  }

  lemma LoggedOneMore(s: State, s': State, h: Handle, p: ProviderId)
    requires s'.log == s.log + [(h, p)]
    ensures forall g :: Logged(s', g) <==> Logged(s, g) || g == h
  {
    assert s'.log[|s.log|].0 == h;
    forall g | Logged(s, g)
      ensures Logged(s', g)
    {
      var i :| 0 <= i < |s.log| && s.log[i].0 == g;
      assert s'.log[i].0 == g;
    }
  }

  /** Keys of providers never change. */
  lemma SameKeys(s: State, s': State)
    requires Typed(s) && Typed(s') && s'.creator == s.creator
    requires forall p | p in s.providers :: p in s'.providers && s'.providers[p].key == s.providers[p].key
    ensures forall h, k :: OfKey(s', h, k) == OfKey(s, h, k)
  {
  }

  lemma StrollsFacts(s: State, s': State, t: ThreadId)
    requires Typed(s) && Strolls(s, s', t)
    ensures forall p, g :: Owner(s', p, g) == Owner(s, p, g)
    ensures forall u, g :: Condemned(s', u, g) == Condemned(s, u, g)
    ensures forall g :: Logged(s', g) == Logged(s, g)
  {
  }

  lemma StrollsKeys(s: State, s': State, t: ThreadId)
    requires Typed(s) && KeyInv(s) && Strolls(s, s', t)
    ensures KeyInv(s')
  {
    SameKeys(s, s');
    hide OfKey;
  }

  lemma StrollsPlaces(s: State, s': State, t: ThreadId)
    requires Typed(s) && PlaceInv(s) && Strolls(s, s', t)
    ensures PlaceInv(s')
  {
  }

  lemma StrollsClaims(s: State, s': State, t: ThreadId)
    requires Typed(s) && ClaimInv(s) && LogInv(s) && Strolls(s, s', t)
    ensures ClaimInv(s') && LogInv(s')
  {
    StrollsFacts(s, s', t);
    hide Owner, Condemned, Logged;
  }

  lemma StrollsNoLeak(s: State, s': State, t: ThreadId)
    requires Typed(s) && NoLeak(s) && Strolls(s, s', t)
    ensures NoLeak(s')
  {
    StrollsFacts(s, s', t);
    hide Owner, Condemned, Logged;
  }

  lemma StrollsOwnInv(s: State, s': State, t: ThreadId)
    requires Typed(s) && OwnInv(s) && Strolls(s, s', t)
    ensures Typed(s') && OwnInv(s')
  {
    hide KeyInv, PlaceInv, ClaimInv, LogInv, NoLeak;
    StrollsKeys(s, s', t);
    StrollsPlaces(s, s', t);
    StrollsClaims(s, s', t);
    StrollsNoLeak(s, s', t);
  }

  lemma DialsFacts(s: State, s': State, t: ThreadId)
    requires Typed(s) && Dials(s, s', t)
    ensures forall p, g :: Owner(s', p, g) == Owner(s, p, g)
    ensures forall u, g :: Condemned(s', u, g) == Condemned(s, u, g)
    ensures forall g :: Logged(s', g) == Logged(s, g)
  {
  }

  lemma DialsKeys(s: State, s': State, t: ThreadId)
    requires Typed(s) && KeyInv(s) && Dials(s, s', t)
    ensures KeyInv(s')
  {
    SameKeys(s, s');
    hide OfKey;
  }

  lemma DialsPlaces(s: State, s': State, t: ThreadId)
    requires Typed(s) && PlaceInv(s) && Dials(s, s', t)
    ensures PlaceInv(s')
  {
  }

  lemma DialsClaims(s: State, s': State, t: ThreadId)
    requires Typed(s) && ClaimInv(s) && LogInv(s) && Dials(s, s', t)
    ensures ClaimInv(s') && LogInv(s')
  {
    DialsFacts(s, s', t);
    hide Owner, Condemned, Logged;
  }

  lemma DialsNoLeak(s: State, s': State, t: ThreadId)
    requires Typed(s) && NoLeak(s) && Dials(s, s', t)
    ensures NoLeak(s')
  {
    DialsFacts(s, s', t);
    hide Owner, Condemned, Logged;
  }

  lemma DialsOwnInv(s: State, s': State, t: ThreadId)
    requires Typed(s) && OwnInv(s) && Dials(s, s', t)
    ensures Typed(s') && OwnInv(s')
  {
    hide KeyInv, PlaceInv, ClaimInv, LogInv, NoLeak;
    DialsKeys(s, s', t);
    DialsPlaces(s, s', t);
    DialsClaims(s, s', t);
    DialsNoLeak(s, s', t);
  }

  lemma AdoptsFacts(s: State, s': State, t: ThreadId)
    requires Typed(s) && PlaceInv(s) && Adopts(s, s', t)
    ensures forall p, g :: Owner(s', p, g) == Owner(s, p, g)
    ensures forall u, g :: Condemned(s', u, g) == Condemned(s, u, g)
    ensures forall g :: Logged(s', g) == Logged(s, g)
  {
  }

  lemma AdoptsKeys(s: State, s': State, t: ThreadId)
    requires Typed(s) && KeyInv(s) && Adopts(s, s', t)
    ensures KeyInv(s')
  {
    SameKeys(s, s');
    hide OfKey;
  }

  lemma AdoptsPlaces(s: State, s': State, t: ThreadId)
    requires Typed(s) && LockInv(s) && KeyInv(s) && PlaceInv(s) && Adopts(s, s', t)
    ensures PlaceInv(s')
  {
    OthersStillFindNothing(s, s', t);
    hide LockInv;
  }

  lemma AdoptsClaims(s: State, s': State, t: ThreadId)
    requires Typed(s) && ClaimInv(s) && LogInv(s) && PlaceInv(s) && Adopts(s, s', t)
    ensures ClaimInv(s') && LogInv(s')
  {
    AdoptsFacts(s, s', t);
    hide Owner, Condemned, Logged;
  }

  lemma AdoptsNoLeak(s: State, s': State, t: ThreadId)
    requires Typed(s) && NoLeak(s) && PlaceInv(s) && Adopts(s, s', t)
    ensures NoLeak(s')
  {
    AdoptsFacts(s, s', t);
    hide Owner, Condemned, Logged;
  }

  lemma AdoptsOwnInv(s: State, s': State, t: ThreadId)
    requires Typed(s) && LockInv(s) && OwnInv(s) && Adopts(s, s', t)
    ensures Typed(s') && OwnInv(s')
  {
    hide KeyInv, PlaceInv, ClaimInv, LogInv, NoLeak, LockInv;
    AdoptsKeys(s, s', t);
    AdoptsPlaces(s, s', t);
    AdoptsClaims(s, s', t);
    AdoptsNoLeak(s, s', t);
  }

  lemma PublishesFacts(s: State, s': State, t: ThreadId, h: Handle)
    requires Typed(s) && PlaceInv(s) && Publishes(s, s', t, h)
    ensures forall p, g :: Owner(s', p, g) == (Owner(s, p, g) || (p == s.threads[t].p && g == h))
    ensures forall u, g :: Condemned(s', u, g) == Condemned(s, u, g)
    ensures forall g :: Logged(s', g) == Logged(s, g)
  {
  }

  lemma PublishesKeys(s: State, s': State, t: ThreadId, h: Handle)
    requires Typed(s) && KeyInv(s) && PlaceInv(s) && Publishes(s, s', t, h)
    ensures KeyInv(s')
  {
    assert forall g, k :: OfKey(s', g, k) == if g == h then k == s.providers[s.threads[t].p].key else OfKey(s, g, k);
    hide OfKey;
  }

  lemma PublishesPlaces(s: State, s': State, t: ThreadId, h: Handle)
    requires Typed(s) && LockInv(s) && PlaceInv(s) && Publishes(s, s', t, h)
    ensures PlaceInv(s')
  {
    OthersStillFindNothing(s, s', t);
    hide LockInv;
  }

  lemma PublishesClaims(s: State, s': State, t: ThreadId, h: Handle)
    requires Typed(s) && ClaimInv(s) && LogInv(s) && PlaceInv(s) && Publishes(s, s', t, h)
    ensures ClaimInv(s') && LogInv(s')
  {
    PublishesFacts(s, s', t, h);
    hide Owner, Condemned, Logged;
  }

  lemma PublishesNoLeak(s: State, s': State, t: ThreadId, h: Handle)
    requires Typed(s) && NoLeak(s) && PlaceInv(s) && Publishes(s, s', t, h)
    ensures NoLeak(s')
  {
    PublishesFacts(s, s', t, h);
    hide Owner, Condemned, Logged;
  }

  lemma PublishesOwnInv(s: State, s': State, t: ThreadId, h: Handle)
    requires Typed(s) && LockInv(s) && OwnInv(s) && Publishes(s, s', t, h)
    ensures Typed(s') && OwnInv(s')
  {
    hide KeyInv, PlaceInv, ClaimInv, LogInv, NoLeak, LockInv;
    PublishesKeys(s, s', t, h);
    PublishesPlaces(s, s', t, h);
    PublishesClaims(s, s', t, h);
    PublishesNoLeak(s, s', t, h);
  }

  lemma GivesUpFacts(s: State, s': State, t: ThreadId)
    requires Typed(s) && GivesUp(s, s', t)
    ensures forall p, g :: Owner(s', p, g) == (Owner(s, p, g) && p != s.threads[t].p)
    ensures forall u, g ::
      Condemned(s', u, g) == (Condemned(s, u, g) || (u == t && Owner(s, s.threads[t].p, g)))
    ensures forall g :: Logged(s', g) == Logged(s, g)
  {
  }

  lemma GivesUpKeys(s: State, s': State, t: ThreadId)
    requires Typed(s) && KeyInv(s) && GivesUp(s, s', t)
    ensures KeyInv(s')
  {
    SameKeys(s, s');
    hide OfKey;
  }

  lemma GivesUpPlaces(s: State, s': State, t: ThreadId)
    requires Typed(s) && PlaceInv(s) && GivesUp(s, s', t)
    ensures PlaceInv(s')
  {
  }

  lemma GivesUpClaims(s: State, s': State, t: ThreadId)
    requires Typed(s) && ClaimInv(s) && LogInv(s) && GivesUp(s, s', t)
    ensures ClaimInv(s') && LogInv(s')
  {
    GivesUpFacts(s, s', t);
    hide Owner, Condemned, Logged;
  }

  lemma GivesUpNoLeak(s: State, s': State, t: ThreadId)
    requires Typed(s) && NoLeak(s) && GivesUp(s, s', t)
    ensures NoLeak(s')
  {
    GivesUpFacts(s, s', t);
    hide Owner, Condemned, Logged;
    forall h | h in s'.creator && Owner(s, s.threads[t].p, h)
      ensures Condemned(s', t, h)
    {
    }
  }

  lemma GivesUpOwnInv(s: State, s': State, t: ThreadId)
    requires Typed(s) && OwnInv(s) && GivesUp(s, s', t)
    ensures Typed(s') && OwnInv(s')
  {
    hide KeyInv, PlaceInv, ClaimInv, LogInv, NoLeak;
    GivesUpKeys(s, s', t);
    GivesUpPlaces(s, s', t);
    GivesUpClaims(s, s', t);
    GivesUpNoLeak(s, s', t);
  }

  lemma DisposesFacts(s: State, s': State, t: ThreadId, h: Handle)
    requires Typed(s) && Disposes(s, s', t, h)
    ensures forall p, g :: Owner(s', p, g) == Owner(s, p, g)
    ensures forall u, g :: Condemned(s', u, g) == (Condemned(s, u, g) && u != t)
    ensures Condemned(s, t, h) && forall g :: Logged(s', g) == (Logged(s, g) || g == h)
  {
    LoggedOneMore(s, s', h, s.threads[t].p);
  }

  lemma DisposesKeys(s: State, s': State, t: ThreadId, h: Handle)
    requires Typed(s) && KeyInv(s) && Disposes(s, s', t, h)
    ensures KeyInv(s')
  {
    SameKeys(s, s');
    hide OfKey;
  }

  lemma DisposesPlaces(s: State, s': State, t: ThreadId, h: Handle)
    requires Typed(s) && PlaceInv(s) && Disposes(s, s', t, h)
    ensures PlaceInv(s')
  {
  }

  lemma DisposesClaims(s: State, s': State, t: ThreadId, h: Handle)
    requires Typed(s) && ClaimInv(s) && LogInv(s) && Disposes(s, s', t, h)
    ensures ClaimInv(s') && LogInv(s')
  {
    DisposesFacts(s, s', t, h);
    hide Owner, Condemned, Logged;
  }

  lemma DisposesNoLeak(s: State, s': State, t: ThreadId, h: Handle)
    requires Typed(s) && NoLeak(s) && Disposes(s, s', t, h)
    ensures NoLeak(s')
  {
    DisposesFacts(s, s', t, h);
    hide Owner, Condemned, Logged;
  }

  lemma DisposesOwnInv(s: State, s': State, t: ThreadId, h: Handle)
    requires Typed(s) && OwnInv(s) && Disposes(s, s', t, h)
    ensures Typed(s') && OwnInv(s')
  {
    hide KeyInv, PlaceInv, ClaimInv, LogInv, NoLeak;
    DisposesKeys(s, s', t, h);
    DisposesPlaces(s, s', t, h);
    DisposesClaims(s, s', t, h);
    DisposesNoLeak(s, s', t, h);
  }

  lemma EvictsFacts(s: State, s': State, t: ThreadId)
    requires Typed(s) && Evicts(s, s', t)
    ensures forall p, g :: Owner(s', p, g) == Owner(s, p, g)
    ensures forall u, g :: Condemned(s', u, g) == Condemned(s, u, g)
    ensures forall g :: Logged(s', g) == Logged(s, g)
  {
  }

  lemma EvictsKeys(s: State, s': State, t: ThreadId)
    requires Typed(s) && KeyInv(s) && Evicts(s, s', t)
    ensures KeyInv(s')
  {
    SameKeys(s, s');
    hide OfKey;
  }

  lemma EvictsPlaces(s: State, s': State, t: ThreadId)
    requires Typed(s) && PlaceInv(s) && Evicts(s, s', t)
    ensures PlaceInv(s')
  {
  }

  lemma EvictsClaims(s: State, s': State, t: ThreadId)
    requires Typed(s) && ClaimInv(s) && LogInv(s) && Evicts(s, s', t)
    ensures ClaimInv(s') && LogInv(s')
  {
    EvictsFacts(s, s', t);
    hide Owner, Condemned, Logged;
  }

  lemma EvictsNoLeak(s: State, s': State, t: ThreadId)
    requires Typed(s) && NoLeak(s) && Evicts(s, s', t)
    ensures NoLeak(s')
  {
    EvictsFacts(s, s', t);
    hide Owner, Condemned, Logged;
  }

  lemma EvictsOwnInv(s: State, s': State, t: ThreadId)
    requires Typed(s) && OwnInv(s) && Evicts(s, s', t)
    ensures Typed(s') && OwnInv(s')
  {
    hide KeyInv, PlaceInv, ClaimInv, LogInv, NoLeak;
    EvictsKeys(s, s', t);
    EvictsPlaces(s, s', t);
    EvictsClaims(s, s', t);
    EvictsNoLeak(s, s', t);
  }

  lemma QuitsFacts(s: State, s': State, t: ThreadId)
    requires Typed(s) && Quits(s, s', t)
    ensures forall p, g :: Owner(s', p, g) == (Owner(s, p, g) && p != s.threads[t].p)
    ensures forall u, g :: Condemned(s', u, g) == Condemned(s, u, g)
    ensures forall g :: Logged(s', g) == (Logged(s, g) || Owner(s, s.threads[t].p, g))
  {
    var me := s.threads[t].p;
    if !s.providers[me].shared {
      LoggedOneMore(s, s', s.providers[me].qm.value, me);
    }
  }

  lemma QuitsKeys(s: State, s': State, t: ThreadId)
    requires Typed(s) && KeyInv(s) && Quits(s, s', t)
    ensures KeyInv(s')
  {
    SameKeys(s, s');
    hide OfKey;
  }

  lemma QuitsPlaces(s: State, s': State, t: ThreadId)
    requires Typed(s) && PlaceInv(s) && Quits(s, s', t)
    ensures PlaceInv(s')
  {
  }

  lemma QuitsClaims(s: State, s': State, t: ThreadId)
    requires Typed(s) && ClaimInv(s) && LogInv(s) && Quits(s, s', t)
    ensures ClaimInv(s') && LogInv(s')
  {
    QuitsFacts(s, s', t);
    var me := s.threads[t].p;
    assert s.providers[me].shared || Owner(s, me, s.providers[me].qm.value);
    hide Owner, Condemned, Logged;
  }

  lemma QuitsNoLeak(s: State, s': State, t: ThreadId)
    requires Typed(s) && NoLeak(s) && Quits(s, s', t)
    ensures NoLeak(s')
  {
    QuitsFacts(s, s', t);
    hide Owner, Condemned, Logged;
  }

  lemma QuitsOwnInv(s: State, s': State, t: ThreadId)
    requires Typed(s) && OwnInv(s) && Quits(s, s', t)
    ensures Typed(s') && OwnInv(s')
  {
    hide KeyInv, PlaceInv, ClaimInv, LogInv, NoLeak;
    QuitsKeys(s, s', t);
    QuitsPlaces(s, s', t);
    QuitsClaims(s, s', t);
    QuitsNoLeak(s, s', t);
  }

  // ----- every step --------------------------------------------------------

  lemma OrdinaryOwnInv(s: State, s': State, t: ThreadId)
    requires Typed(s) && OwnInv(s) && Ordinary(s, s', t)
    ensures Typed(s') && OwnInv(s')
  {
    hide OwnInv;
    if Strolls(s, s', t) {
      StrollsOwnInv(s, s', t);
    } else if Dials(s, s', t) {
      DialsOwnInv(s, s', t);
    } else if GivesUp(s, s', t) {
      GivesUpOwnInv(s, s', t);
    } else if Evicts(s, s', t) {
      EvictsOwnInv(s, s', t);
    } else if Quits(s, s', t) {
      QuitsOwnInv(s, s', t);
    } else {
      DisposesOwnInv(s, s', t, s.threads[t].taken.value);
    }
  }

  lemma StepOwnInv(s: State, t: ThreadId, c: Choice)
    requires Typed(s) && LockInv(s) && OwnInv(s) && Step(s, t, c).Some?
    ensures var s' := Step(s, t, c).value; Typed(s') && OwnInv(s')
  {
    var s' := Step(s, t, c).value;
    var th := s.threads[t];
    hide Step, OwnInv;
    if th.pc.Adopt? {
      AdoptAdopts(s, t, c);
      AdoptsOwnInv(s, s', t);
    } else if th.pc.Publish? {
      PublishPublishes(s, t, c);
      PublishesOwnInv(s, s', t, th.cand.value);
    } else {
      StepIsOrdinary(s, t, c);
      OrdinaryOwnInv(s, s', t);
    }
  }
}
