/**
 What `put_message` and `get_message` come to when nobody disturbs them, under every
 sequence of answers of the driver: above all the recovery from a lost connection.
 */
module MqRecovery {
  import opened Util
  import opened MqProtocol
  import opened MqAlone
  import opened MqWitness

  // ----- up to the queue ---------------------------------------------------

  /** The key of provider `p` has its operation lock in the dictionary. */
  function WithOpLock(s: State, p: ProviderId): State
    requires p in s.providers
  {
    var k := s.providers[p].key;
    if k in s.opLocks then s else s.(opLocks := s.opLocks[k := s.nextLock], nextLock := s.nextLock + 1)
  }

  /** The operation lock the thread will use. */
  function OpLockOf(s: State, p: ProviderId): LockId
    requires p in s.providers
  {
    var k := s.providers[p].key;
    if k in s.opLocks then s.opLocks[k] else s.nextLock
  }

  /** The effect of looking the operation lock up, and of entering it if it is not there. */
  function DictEffect(th: Thread, v: Sight): Effect {
    Effect(th.(pc := Snapshot, lk := if v.opLock.Some? then v.opLock.value else v.nextLock), v.me,
           NoLock, DictMutex, NoLock, Keep, v.opLock.None?, false, None)
  }

  lemma DictEffectIs(th: Thread, v: Sight)
    requires th.pc.Dict?
    ensures Act(th, v, Go) == Some(DictEffect(th, v))
  {
  }

  lemma DictEffectDoes(s: State, t: ThreadId, th: Thread)
    requires th.p in s.providers
    ensures var e := DictEffect(th, View(s, th.p));
      && Rest(s, t, e) == WithOpLock(s, th.p)
      && Relock(map[DictMutex := t], t, e) == map[]
  {
    assert s.providers[th.p := s.providers[th.p]] == s.providers;
  }

  lemma IsAlive(r: Solo) returns (r': Solo)
    requires Reached(r) && r.th.pc.AliveWait? && r.locks == map[]
    ensures GoesOn(r, r', r.s, r.th.(pc := if IsConnected(r.s, r.th.p) then DictWait else Idle), map[], [])
  {
    hide Exec, Answers, Alone, Relock;
    r' := TakesLock(r, ProviderLock(r.th.p), r.th.(pc := Alive));
    r' := DropsLock(r', ProviderLock(r.th.p), r.th.(pc := if IsConnected(r.s, r.th.p) then DictWait else Idle));
    assert map[ProviderLock(r.th.p) := r.t] - {ProviderLock(r.th.p)} == map[];
    assert r.answers + [] + [] == r.answers + [];
  }

  lemma FindsOpLock(r: Solo) returns (r': Solo)
    requires Reached(r) && r.th.pc.DictWait? && r.locks == map[]
    ensures GoesOn(r, r', WithOpLock(r.s, r.th.p), r.th.(pc := Snapshot, lk := OpLockOf(r.s, r.th.p)), map[], [])
  {
    r' := TakesLock(r, DictMutex, r.th.(pc := Dict));
    hide Act, Exec, Answers, Alone, Rest, Relock;
    DictEffectIs(r'.th, View(r.s, r.th.p));
    DictEffectDoes(r.s, r.t, r'.th);
    assert r.locks[DictMutex := r.t] == map[DictMutex := r.t];
    r' := Acts(r', Go, DictEffect(r'.th, View(r.s, r.th.p)));
    assert r.answers + [] + [] == r.answers + [];
  }

  /** The thread that is about to open its queue with the provider's handle of the moment. */
  function Opening(s: State, th: Thread): Thread
    requires th.p in s.providers
  {
    th.(pc := Open, snap := s.providers[th.p].qm, needReconnect := false)
  }

  lemma GetsOpLock(r: Solo) returns (r': Solo)
    requires Reached(r) && r.th.pc.Snapshot? && r.locks == map[]
    ensures GoesOn(r, r', r.s, Opening(r.s, r.th), map[OpLock(r.th.lk) := r.t], [])
  {
    hide Exec, Answers, Alone, Relock;
    r' := JustMoves(r, Go, Opening(r.s, r.th).(pc := OpWait));
    r' := TakesLock(r', OpLock(r.th.lk), Opening(r.s, r.th));
    assert r.locks[OpLock(r.th.lk) := r.t] == map[OpLock(r.th.lk) := r.t];
    assert r.answers + [] + [] == r.answers + [];
  }

  /** put_message or get_message on a connected provider gets to opening its queue. */
  lemma ReachesOpen(s: State, t: ThreadId, call: Call, p: ProviderId) returns (r: Solo)
    requires Typed(s) && t in s.threads && s.threads[t].pc.Idle? && p in s.providers && s.locks == map[]
    requires (call == Putting || call == Getting) && IsConnected(s, p)
    ensures Reached(r) && r.start == s && r.t == t && r.call == call && r.p == p && r.answers == []
    ensures r.s == WithOpLock(s, p) && r.locks == map[OpLock(r.th.lk) := t]
    ensures r.th == Opening(s, NewCall(call, p).(lk := OpLockOf(s, p)))
  {
    hide Exec, Answers, Alone, Act;
    r := Begins(s, t, call, p);
    r := IsAlive(r);
    r := FindsOpLock(r);
    r := GetsOpLock(r);
  }

  // ----- opening the queue and transferring the message --------------------

  /** The driver's answers to an attempt that ends with `c`: at once, or after the queue has been opened. */
  function Attempt(wasOpen: bool, c: Choice): seq<Choice> {
    if wasOpen then [Good, c] else [c]
  }

  lemma OpensQueue(r: Solo, wasOpen: bool) returns (r': Solo)
    requires Reached(r) && r.th.pc.Open?
    ensures GoesOn(r, r', r.s, if wasOpen then r.th.(pc := Transfer, queueOpen := true) else r.th, r.locks,
      if wasOpen then [Good] else [])
  {
    if wasOpen {
      r' := JustMoves(r, Good, r.th.(pc := Transfer, queueOpen := true));
    } else {
      r' := r;
      assert r.answers + [] == r.answers;
    }
  }

  lemma Closes(r: Solo) returns (r': Solo)
    requires Reached(r) && r.th.pc.Close? && r.locks == map[OpLock(r.th.lk) := r.t]
    ensures GoesOn(r, r', r.s, r.th.(queueOpen := false, pc := if r.th.needReconnect then ReconnectWait else Idle),
      map[], [])
  {
    r' := DropsLock(r, OpLock(r.th.lk),
      r.th.(queueOpen := false, pc := if r.th.needReconnect then ReconnectWait else Idle));
    assert r.locks - {OpLock(r.th.lk)} == map[];
  }

  /** Does the call end with this attempt? */
  predicate Final(th: Thread, wasOpen: bool, c: Choice) {
    (wasOpen && c == Good) || c == Bad || (c == Lost && th.call == Putting && th.attempt == 1)
  }

  lemma FinalCloses(th: Thread, v: Sight, wasOpen: bool, c: Choice)
    requires th.pc == if wasOpen then Transfer else Open
    requires (th.call == Putting || th.call == Getting) && Final(th, wasOpen, c)
    ensures Act(th, v, c) == Some(Quiet(th.(pc := Close), v))
  {
  }

  /** An attempt that succeeds, fails for another reason, or is the second one, ends the call. */
  lemma AttemptEnds(r: Solo, wasOpen: bool, c: Choice) returns (r': Solo)
    requires Reached(r) && r.th.pc.Open? && !r.th.needReconnect && r.locks == map[OpLock(r.th.lk) := r.t]
    requires (r.th.call == Putting || r.th.call == Getting) && Final(r.th, wasOpen, c)
    ensures GoesOn(r, r', r.s, r.th.(pc := Idle, queueOpen := false), map[], Attempt(wasOpen, c))
  {
    hide Act, Exec, Answers, Alone, Relock;
    r' := OpensQueue(r, wasOpen);
    FinalCloses(r'.th, View(r.s, r.th.p), wasOpen, c);
    r' := JustMoves(r', c, r'.th.(pc := Close));
    r' := Closes(r');
    assert r.answers + (if wasOpen then [Good] else []) + [c] + [] == r.answers + Attempt(wasOpen, c);
  }

  lemma LossIsNoticed(th: Thread, v: Sight)
    requires th.pc == Open || th.pc == Transfer
    requires th.call == Getting || (th.call == Putting && th.attempt == 0)
    ensures Act(th, v, Lost) == Some(Quiet(th.(pc := GuardWait, needReconnect := true), v))
  {
  }

  /** A lost connection is to be invalidated, except in put_message's second attempt. */
  lemma AttemptLoses(r: Solo, wasOpen: bool) returns (r': Solo)
    requires Reached(r) && r.th.pc.Open? && (r.th.call == Getting || (r.th.call == Putting && r.th.attempt == 0))
    ensures GoesOn(r, r', r.s, r.th.(pc := GuardWait, needReconnect := true, queueOpen := wasOpen || r.th.queueOpen),
      r.locks, Attempt(wasOpen, Lost))
  {
    hide Act, Exec, Answers, Alone, Relock;
    r' := OpensQueue(r, wasOpen);
    LossIsNoticed(r'.th, View(r.s, r.th.p));
    r' := JustMoves(r', Lost, r'.th.(pc := GuardWait, needReconnect := true));
    assert r.answers + (if wasOpen then [Good] else []) + [Lost] == r.answers + Attempt(wasOpen, Lost);
  }

  // ----- invalidation ------------------------------------------------------

  /** Provider `p` has given its handle up. */
  function Cleared(s: State, p: ProviderId): State
    requires p in s.providers
  {
    s.(providers := s.providers[p := Provider(s.providers[p].key, None, false, false)])
  }

  function ClearEffect(th: Thread, me: Provider): Effect {
    Effect(th.(pc := Mqdisc, taken := me.qm, wasShared := me.shared), Provider(me.key, None, false, false),
           NoLock, ProviderLock(th.p), NoLock, Keep, false, false, None)
  }

  lemma ClearEffectIs(th: Thread, v: Sight)
    requires th.pc.Guard? && (th.snap.None? || th.snap == v.me.qm)
    ensures Act(th, v, Go) == Some(ClearEffect(th, v.me))
  {
  }

  lemma ClearEffectDoes(s: State, t: ThreadId, th: Thread, locks: map<LockName, ThreadId>)
    requires th.p in s.providers && ProviderLock(th.p) !in locks
    ensures var e := ClearEffect(th, s.providers[th.p]);
      && Rest(s, t, e) == Cleared(s, th.p)
      && Relock(locks[ProviderLock(th.p) := t], t, e) == locks
  {
  }

  /** The snapshot is still the provider's handle, or there is none: the provider gives up what it has. */
  lemma PassesGuard(r: Solo) returns (r': Solo)
    requires Reached(r) && r.th.pc.GuardWait? && (r.th.snap.None? || r.th.snap == r.s.providers[r.th.p].qm)
    requires ProviderLock(r.th.p) !in r.locks
    ensures var me := r.s.providers[r.th.p];
      GoesOn(r, r', Cleared(r.s, r.th.p), r.th.(pc := Mqdisc, taken := me.qm, wasShared := me.shared), r.locks, [])
  {
    r' := TakesLock(r, ProviderLock(r.th.p), r.th.(pc := Guard));
    hide Act, Exec, Answers, Alone, Rest, Relock, Cleared;
    ClearEffectIs(r'.th, View(r.s, r.th.p));
    ClearEffectDoes(r.s, r.t, r'.th, r.locks);
    r' := Acts(r', Go, ClearEffect(r'.th, r.s.providers[r.th.p]));
    assert r.answers + [] + [] == r.answers + [];
  }

  /** Another handle has taken the place of the snapshot: it is spared. */
  lemma NewHandleIsSpared(th: Thread, v: Sight)
    requires th.pc.Guard? && th.snap.Some? && th.snap != v.me.qm
    ensures Act(th, v, Go) == Some(Quiet(th.(pc := Close), v).(drop := ProviderLock(th.p)))
  {
  }

  lemma SparesNewHandle(r: Solo) returns (r': Solo)
    requires Reached(r) && r.th.pc.GuardWait? && r.th.snap.Some? && r.th.snap != r.s.providers[r.th.p].qm
    requires ProviderLock(r.th.p) !in r.locks
    ensures GoesOn(r, r', r.s, r.th.(pc := Close), r.locks, [])
  {
    r' := TakesLock(r, ProviderLock(r.th.p), r.th.(pc := Guard));
    hide Act, Exec, Answers, Alone, Relock;
    NewHandleIsSpared(r'.th, View(r.s, r.th.p));
    r' := DropsLock(r', ProviderLock(r.th.p), r.th.(pc := Close));
    assert r.locks[ProviderLock(r.th.p) := r.t] - {ProviderLock(r.th.p)} == r.locks;
    assert r.answers + [] + [] == r.answers + [];
  }

  /** The log with one more disconnect by provider `p`, if there was a handle to disconnect. */
  function Disconnected(s: State, p: ProviderId, h: Option<Handle>): State {
    if h.None? then s else s.(log := s.log + [(h.value, p)])
  }

  /** MQDISC on the handle given up. */
  lemma DisconnectsTaken(r: Solo) returns (r': Solo)
    requires Reached(r) && r.th.pc.Mqdisc? && !r.th.wasShared
    ensures GoesOn(r, r', Disconnected(r.s, r.th.p, r.th.taken), r.th.(pc := EvictWait), r.locks, [])
  {
    var e := Quiet(r.th.(pc := EvictWait), View(r.s, r.th.p)).(disc := r.th.taken);
    r' := Acts(r, Go, e);
    hide Act;
    assert Relock(r.locks, r.t, e) == r.locks;
    assert r.s.providers[r.th.p := r.s.providers[r.th.p]] == r.s.providers;
    assert Rest(r.s, r.t, e) == Disconnected(r.s, r.th.p, r.th.taken);
  }

  /** Handle `h` is not, or no longer, the one cached for provider `p`. */
  function Evicted(s: State, p: ProviderId, h: Option<Handle>): State
    requires p in s.providers
  {
    var k := s.providers[p].key;
    if k in s.cache && h == Some(s.cache[k]) then s.(cache := s.cache - {k}) else s
  }

  function EvictEffect(th: Thread, v: Sight): Effect {
    Effect(th.(pc := Close), v.me, NoLock, CacheLock, NoLock, if v.cached == th.taken then Remove else Keep,
           false, false, None)
  }

  lemma EvictEffectIs(th: Thread, v: Sight)
    requires th.pc.Evict?
    ensures Act(th, v, Go) == Some(EvictEffect(th, v))
  {
  }

  lemma EvictEffectDoes(s: State, t: ThreadId, th: Thread, locks: map<LockName, ThreadId>)
    requires th.p in s.providers && CacheLock !in locks
    ensures Rest(s, t, EvictEffect(th, View(s, th.p))) == Evicted(s, th.p, th.taken)
    ensures Relock(locks[CacheLock := t], t, EvictEffect(th, View(s, th.p))) == locks
  {
    var k, e := s.providers[th.p].key, EvictEffect(th, View(s, th.p));
    LocksBack(locks, t, e);
    hide Relock;
    assert s.providers[th.p := s.providers[th.p]] == s.providers;
    if k !in s.cache {
      assert s.cache - {k} == s.cache;
    }
    assert Rest(s, t, e).cache == Evicted(s, th.p, th.taken).cache;
  }

  lemma LocksBack(locks: map<LockName, ThreadId>, t: ThreadId, e: Effect)
    requires e.take == NoLock && e.drop == CacheLock && e.drop2 == NoLock && CacheLock !in locks
    ensures Relock(locks[CacheLock := t], t, e) == locks
  {
  }

  lemma EvictsTaken(r: Solo) returns (r': Solo)
    requires Reached(r) && r.th.pc.EvictWait? && CacheLock !in r.locks
    ensures GoesOn(r, r', Evicted(r.s, r.th.p, r.th.taken), r.th.(pc := Close), r.locks, [])
  {
    r' := TakesLock(r, CacheLock, r.th.(pc := Evict));
    hide Act, Exec, Answers, Alone, Rest, Relock, Evicted;
    EvictEffectIs(r'.th, View(r.s, r.th.p));
    EvictEffectDoes(r.s, r.t, r'.th, r.locks);
    r' := Acts(r', Go, EvictEffect(r'.th, View(r.s, r.th.p)));
    assert r.answers + [] + [] == r.answers + [];
  }

  /**
   What a lost connection leaves before the reconnect: the provider is without a handle; its
   own one is disconnected and no longer cached, a shared one is left to its owner.
   */
  function Invalidated(s: State, p: ProviderId): State
    requires p in s.providers
  {
    var me := s.providers[p];
    if me.shared then Cleared(s, p) else Evicted(Disconnected(Cleared(s, p), p, me.qm), p, me.qm)
  }

  lemma LeavesShared(r: Solo) returns (r': Solo)
    requires Reached(r) && r.th.pc.Mqdisc? && r.th.wasShared
    ensures GoesOn(r, r', r.s, r.th.(pc := Close), r.locks, [])
  {
    r' := JustMoves(r, Go, r.th.(pc := Close));
  }

  lemma DisposesOwned(r: Solo) returns (r': Solo)
    requires Reached(r) && r.th.pc.Mqdisc? && !r.th.wasShared && CacheLock !in r.locks
    ensures GoesOn(r, r', Evicted(Disconnected(r.s, r.th.p, r.th.taken), r.th.p, r.th.taken), r.th.(pc := Close),
      r.locks, [])
  {
    hide Act, Exec, Answers, Alone, Evicted;
    r' := DisconnectsTaken(r);
    r' := EvictsTaken(r');
    assert r.answers + [] + [] == r.answers + [];
  }

  /** An invalidation gives up the handle of the snapshot; one without a snapshot, whatever handle there is. */
  lemma Invalidates(r: Solo) returns (r': Solo)
    requires Reached(r) && r.th.pc.GuardWait? && (r.th.snap.None? || r.th.snap == r.s.providers[r.th.p].qm)
    requires r.locks == map[OpLock(r.th.lk) := r.t]
    ensures var me := r.s.providers[r.th.p];
      GoesOn(r, r', Invalidated(r.s, r.th.p), r.th.(pc := Close, taken := me.qm, wasShared := me.shared),
        r.locks, [])
  {
    hide Act, Exec, Answers, Alone, Evicted, Disconnected;
    r' := PassesGuard(r);
    if r.s.providers[r.th.p].shared {
      r' := LeavesShared(r');
    } else {
      r' := DisposesOwned(r');
    }
    assert r.answers + [] + [] == r.answers + [];
  }

  // ----- reconnecting ------------------------------------------------------

  /** What the driver is asked when provider `p` is to be connected again. */
  function Redials(s: State, p: ProviderId, n: nat): seq<Choice>
    requires p in s.providers
  {
    if s.providers[p].key in Invalidated(s, p).cache then [] else Fails(n) + [Good]
  }

  /** After a lost connection provider `p` shares the handle that is still cached, or owns a new one. */
  function Recovered(s: State, p: ProviderId): State
    requires p in s.providers
  {
    var k, left := s.providers[p].key, Invalidated(s, p);
    if k in left.cache then Adopted(left, p, left.cache[k]) else Published(left, p)
  }

  lemma InvalidatedHasNone(s: State, p: ProviderId)
    requires p in s.providers
    ensures p in Invalidated(s, p).providers && !IsConnected(Invalidated(s, p), p)
    ensures Invalidated(s, p).providers[p].key == s.providers[p].key
  {
    var c := Cleared(s, p);
    assert c.providers[p] == Provider(s.providers[p].key, None, false, false);
    hide Cleared;
    assert Invalidated(s, p).providers == c.providers;
  }

  lemma Reconnects(r: Solo, s: State, n: nat) returns (r': Solo)
    requires Reached(r) && r.th.pc.ReconnectWait? && r.locks == map[] && n < 5
    requires r.th.p in s.providers && r.s == Invalidated(s, r.th.p)
    ensures var th := r.th.(cand := r'.th.cand, dials := r'.th.dials);
      GoesOn(r, r', Recovered(s, r.th.p), Resumed(th), map[], Redials(s, r.th.p, n))
  {
    hide Adopted, Published, Act, Exec, Answers, Alone, Fails, Invalidated;
    InvalidatedHasNone(s, r.th.p);
    if s.providers[r.th.p].key in r.s.cache {
      r' := Shares(r);
    } else {
      r' := Dials(r, n);
    }
  }

  /** The call up to the reconnect: an attempt has lost the connection, and the handle is invalidated. */
  lemma LosesConnection(s: State, t: ThreadId, call: Call, p: ProviderId, wasOpen: bool) returns (r: Solo)
    requires Typed(s) && t in s.threads && s.threads[t].pc.Idle? && p in s.providers && s.locks == map[]
    requires (call == Putting || call == Getting) && IsConnected(s, p)
    ensures Reached(r) && r == Solo(s, t, call, p, r.schedule, Attempt(wasOpen, Lost),
                                    Invalidated(WithOpLock(s, p), p), r.th, map[])
    ensures r.th.pc.ReconnectWait? && r.th.call == call && r.th.p == p && r.th.attempt == 0
  {
    hide Act, Exec, Answers, Alone, Invalidated;
    r := ReachesOpen(s, t, call, p);
    r := AttemptLoses(r, wasOpen);
    r := Invalidates(r);
    r := Closes(r);
    assert [] + Attempt(wasOpen, Lost) + [] + [] == Attempt(wasOpen, Lost);
  }

  // ----- the calls as a whole ----------------------------------------------

  /** Without a connection the call ends at once. */
  lemma NotConnected(s: State, t: ThreadId, call: Call, p: ProviderId) returns (schedule: seq<(ThreadId, Choice)>)
    requires Typed(s) && t in s.threads && s.threads[t].pc.Idle? && p in s.providers && s.locks == map[]
    requires (call == Putting || call == Getting) && !IsConnected(s, p)
    ensures Ends(s, t, call, p, schedule, [], s)
  {
    var r := Begins(s, t, call, p);
    r := IsAlive(r);
    schedule := r.schedule;
    Ended(r);
  }

  /** A transfer that succeeds, and one that fails for another reason, ends the call and changes nothing. */
  lemma TransferEnds(s: State, t: ThreadId, call: Call, p: ProviderId, wasOpen: bool, c: Choice)
    returns (schedule: seq<(ThreadId, Choice)>)
    requires Typed(s) && t in s.threads && s.threads[t].pc.Idle? && p in s.providers && s.locks == map[]
    requires (call == Putting || call == Getting) && IsConnected(s, p) && ((wasOpen && c == Good) || c == Bad)
    ensures Ends(s, t, call, p, schedule, Attempt(wasOpen, c), WithOpLock(s, p))
  {
    hide Act, Exec, Answers, Alone, WithOpLock;
    var r := ReachesOpen(s, t, call, p);
    r := AttemptEnds(r, wasOpen, c);
    assert [] + Attempt(wasOpen, c) == Attempt(wasOpen, c);
    schedule := r.schedule;
    Ended(r);
  }

  /** get_message recovers from a lost connection and ends; the next call uses the connection. */
  lemma GetRecovers(s: State, t: ThreadId, p: ProviderId, wasOpen: bool, n: nat)
    returns (schedule: seq<(ThreadId, Choice)>)
    requires Typed(s) && t in s.threads && s.threads[t].pc.Idle? && p in s.providers && s.locks == map[]
    requires IsConnected(s, p) && n < 5
    ensures var w := WithOpLock(s, p);
      Ends(s, t, Getting, p, schedule, Attempt(wasOpen, Lost) + Redials(w, p, n), Recovered(w, p))
  {
    hide Act, Exec, Answers, Alone, Recovered, Redials;
    var r := LosesConnection(s, t, Getting, p, wasOpen);
    r := Reconnects(r, WithOpLock(s, p), n);
    schedule := r.schedule;
    Ended(r);
  }

  /** put_message recovers too, and the same thread opens the queue again, with the handle it has now. */
  lemma PutTriesAgain(s: State, t: ThreadId, p: ProviderId, wasOpen: bool, n: nat) returns (r: Solo)
    requires Typed(s) && t in s.threads && s.threads[t].pc.Idle? && p in s.providers && s.locks == map[]
    requires IsConnected(s, p) && n < 5
    ensures var w := WithOpLock(s, p); var s' := Recovered(w, p);
      && Reached(r) && r.start == s && r.t == t && r.call == Putting && r.p == p && r.th.p == p && r.s == s'
      && r.answers == Attempt(wasOpen, Lost) + Redials(w, p, n)
      && r.th.pc.Open? && r.th.attempt == 1 && r.th.call == Putting && !r.th.needReconnect
      && r.th.snap == s'.providers[p].qm && r.locks == map[OpLock(r.th.lk) := t]
  {
    hide Act, Exec, Answers, Alone, Redials;
    r := LosesConnection(s, t, Putting, p, wasOpen);
    r := Reconnects(r, WithOpLock(s, p), n);
    r := GetsOpLock(r);
    var a := Attempt(wasOpen, Lost) + Redials(WithOpLock(s, p), p, n);
    assert a + [] == a;
  }

  /** However its second attempt goes, even if it loses the connection again, put_message then ends. */
  lemma PutRecovers(s: State, t: ThreadId, p: ProviderId, wasOpen: bool, n: nat, again: bool, c: Choice)
    returns (schedule: seq<(ThreadId, Choice)>)
    requires Typed(s) && t in s.threads && s.threads[t].pc.Idle? && p in s.providers && s.locks == map[]
    requires IsConnected(s, p) && n < 5
    requires (again && c == Good) || c == Bad || c == Lost
    ensures var w := WithOpLock(s, p);
      Ends(s, t, Putting, p, schedule, Attempt(wasOpen, Lost) + Redials(w, p, n) + Attempt(again, c),
           Recovered(w, p))
  {
    hide Act, Exec, Answers, Alone, Recovered, Redials;
    var r := PutTriesAgain(s, t, p, wasOpen, n);
    r := AttemptEnds(r, again, c);
    schedule := r.schedule;
    Ended(r);
  }

  /** If the driver fails five times, the call ends, and the provider has no connection. */
  lemma RecoveryFails(s: State, t: ThreadId, call: Call, p: ProviderId, wasOpen: bool)
    returns (schedule: seq<(ThreadId, Choice)>)
    requires Typed(s) && t in s.threads && s.threads[t].pc.Idle? && p in s.providers && s.locks == map[]
    requires (call == Putting || call == Getting) && IsConnected(s, p)
    requires s.providers[p].key !in Invalidated(WithOpLock(s, p), p).cache
    ensures var w := WithOpLock(s, p);
      Ends(s, t, call, p, schedule, Attempt(wasOpen, Lost) + Fails(5), Invalidated(w, p))
  {
    hide Act, Exec, Answers, Alone, Invalidated, Attempt, Fails;
    InvalidatedHasNone(WithOpLock(s, p), p);
    var r := LosesConnection(s, t, call, p, wasOpen);
    r := DialsFiveTimes(r);
    schedule := r.schedule;
    Ended(r);
  }

  /**
   If another thread has replaced the handle in the meantime, nothing is given up: get_message
   ends, and put_message opens the queue again with the handle that is there.
   */
  lemma NewHandleSurvives(r: Solo) returns (r': Solo)
    requires Reached(r) && r.th.pc.GuardWait? && r.th.needReconnect && r.locks == map[OpLock(r.th.lk) := r.t]
    requires r.th.snap.Some? && r.th.snap != r.s.providers[r.th.p].qm && IsConnected(r.s, r.th.p)
    requires r.th.call == Putting || r.th.call == Getting
    ensures Reached(r') && r'.start == r.start && r'.t == r.t && r'.s == r.s && r'.answers == r.answers
    ensures r.th.call == Getting ==> r'.th.pc.Idle? && r'.locks == map[]
    ensures r.th.call == Putting ==> r'.th.pc.Open? && r'.th.attempt == 1 && r'.th.snap == r.s.providers[r.th.p].qm
    ensures r.th.call == Putting ==> r'.locks == map[OpLock(r'.th.lk) := r.t]
  {
    hide Act, Exec, Answers, Alone;
    r' := SparesNewHandle(r);
    r' := Closes(r');
    r' := StaysConnected(r');
    if r.th.call == Putting {
      r' := GetsOpLock(r');
    }
    assert r.answers + [] == r.answers;
  }

  /** Recovery from a lost connection of one's own that is cached: it is disconnected and replaced by a new one. */
  lemma OwnerRecovers(s: State, p: ProviderId, h: Handle, n: nat)
    requires p in s.providers && s.providers[p].qm == Some(h) && !s.providers[p].shared
    requires s.providers[p].key in s.cache && s.cache[s.providers[p].key] == h
    ensures Redials(s, p, n) == Fails(n) + [Good]
    ensures var k, next := s.providers[p].key, s.nextHandle; var s' := Recovered(s, p);
      && s'.providers == s.providers[p := Provider(k, Some(next), true, false)]
      && s'.cache == s.cache[k := next] && s'.log == s.log + [(h, p)] && s'.creator == s.creator[next := p]
      && s'.nextHandle == next + 1
  {
    assert (s.cache - {s.providers[p].key})[s.providers[p].key := s.nextHandle]
        == s.cache[s.providers[p].key := s.nextHandle];
  }

  /** Recovery from a lost connection that is shared: the cached handle is shared again, and nothing is disconnected. */
  lemma SharerRecovers(s: State, p: ProviderId, n: nat)
    requires p in s.providers && s.providers[p].shared && s.providers[p].key in s.cache
    ensures Redials(s, p, n) == []
    ensures var k := s.providers[p].key; var s' := Recovered(s, p);
      && s'.providers == s.providers[p := Provider(k, Some(s.cache[k]), true, true)]
      && s'.cache == s.cache && s'.log == s.log && s'.creator == s.creator && s'.nextHandle == s.nextHandle
  {
  }
}
