/**
 What `connect` and `disconnect` come to when nobody disturbs them, and a run that shows
 where the guarantees of module MqCache end: after disconnect() the cache still offers the
 dead handle.
 */
module MqWitness {
  import opened Util
  import opened MqProtocol
  import opened MqHandles
  import opened MqAlone

  /** is_connected() */
  predicate IsConnected(s: State, p: ProviderId)
    requires p in s.providers
  {
    s.providers[p].connected && s.providers[p].qm.Some?
  }

  /** Where a thread is after `connect`: out of its call, or in put_message's second attempt. */
  function Resumed(th: Thread): Thread {
    if th.call == Putting then th.(pc := Snapshot, attempt := 1) else th.(pc := Idle)
  }

  /** Provider `p` shares handle `h`. */
  function Adopted(s: State, p: ProviderId, h: Handle): State
    requires p in s.providers
  {
    s.(providers := s.providers[p := Provider(s.providers[p].key, Some(h), true, true)])
  }

  /** Provider `p` owns a handle that the driver has just made. */
  function Published(s: State, p: ProviderId): State
    requires p in s.providers
  {
    var k, h := s.providers[p].key, s.nextHandle;
    s.(providers := s.providers[p := Provider(k, Some(h), true, false)],
       cache := s.cache[k := h], creator := s.creator[h := p], nextHandle := h + 1)
  }

  /** The driver fails `n` times. */
  function Fails(n: nat): seq<Choice> {
    seq(n, _ => Bad)
  }

  // ----- connect, step by step ---------------------------------------------

  lemma EntersConnect(r: Solo) returns (r': Solo)
    requires Reached(r) && r.th.pc.ReconnectWait? && r.locks == map[]
    ensures GoesOn(r, r', r.s, r.th.(pc := Check),
      map[ReconnectLock(r.th.p) := r.t, ProviderLock(r.th.p) := r.t], [])
  {
    r' := TakesLock(r, ReconnectLock(r.th.p), r.th.(pc := CheckWait));
    assert r.locks[ReconnectLock(r.th.p) := r.t] == map[ReconnectLock(r.th.p) := r.t];
    r' := TakesLock(r', ProviderLock(r.th.p), r.th.(pc := Check));
    assert map[ReconnectLock(r.th.p) := r.t][ProviderLock(r.th.p) := r.t]
        == map[ReconnectLock(r.th.p) := r.t, ProviderLock(r.th.p) := r.t];
    assert r.answers + [] + [] == r.answers + [];
  }

  /** If there is a connection, nothing is to be done. */
  lemma StaysConnected(r: Solo) returns (r': Solo)
    requires Reached(r) && r.th.pc.ReconnectWait? && r.locks == map[] && IsConnected(r.s, r.th.p)
    ensures GoesOn(r, r', r.s, Resumed(r.th), map[], [])
  {
    r' := EntersConnect(r);
    var e := Act(r'.th, View(r.s, r.th.p), Go).value;
    var locks := r'.locks;
    r' := Moves(r', Go, e);
    assert Relock(locks, r.t, e) == map[];
    assert r.answers + [] + [] == r.answers + [];
  }

  lemma FindsNoConnection(r: Solo) returns (r': Solo)
    requires Reached(r) && r.th.pc.ReconnectWait? && r.locks == map[] && !IsConnected(r.s, r.th.p)
    ensures GoesOn(r, r', r.s, r.th.(pc := LookupWait), map[ReconnectLock(r.th.p) := r.t], [])
  {
    r' := EntersConnect(r);
    var locks := r'.locks;
    r' := DropsLock(r', ProviderLock(r.th.p), r.th.(pc := LookupWait));
    assert locks - {ProviderLock(r.th.p)} == map[ReconnectLock(r.th.p) := r.t];
    assert r.answers + [] + [] == r.answers + [];
  }

  lemma ReachesLookup(r: Solo) returns (r': Solo)
    requires Reached(r) && r.th.pc.ReconnectWait? && r.locks == map[] && !IsConnected(r.s, r.th.p)
    ensures GoesOn(r, r', r.s, r.th.(pc := Lookup), map[ReconnectLock(r.th.p) := r.t, CacheLock := r.t], [])
  {
    r' := FindsNoConnection(r);
    r' := TakesLock(r', CacheLock, r.th.(pc := Lookup));
    assert map[ReconnectLock(r.th.p) := r.t][CacheLock := r.t]
        == map[ReconnectLock(r.th.p) := r.t, CacheLock := r.t];
    assert r.answers + [] + [] == r.answers + [];
  }

  /** The thread goes on to share the cached handle, or to dial. */
  function LookedUp(th: Thread, cached: Option<Handle>): Thread {
    th.(pc := if cached.Some? then Adopt else Dial, cand := cached, dials := 0)
  }

  lemma LookupIs(th: Thread, v: Sight)
    requires th.pc.Lookup?
    ensures Act(th, v, Go) == Some(Quiet(LookedUp(th, v.cached), v).(drop := CacheLock))
  {
  }

  /** The cache is looked up, and the lock on it given back. */
  lemma LooksUp(r: Solo) returns (r': Solo)
    requires Reached(r) && r.th.pc.ReconnectWait? && r.locks == map[] && !IsConnected(r.s, r.th.p)
    ensures var th := LookedUp(r.th, View(r.s, r.th.p).cached);
      GoesOn(r, r', r.s, th, map[ReconnectLock(r.th.p) := r.t], [])
  {
    hide Act, Exec, Answers, Alone, Relock;
    r' := ReachesLookup(r);
    var locks := r'.locks;
    LookupIs(r'.th, View(r.s, r.th.p));
    r' := DropsLock(r', CacheLock, LookedUp(r.th, View(r.s, r.th.p).cached));
    assert locks - {CacheLock} == map[ReconnectLock(r.th.p) := r.t];
    assert r.answers + [] + [] == r.answers + [];
  }

  lemma AdoptsCached(r: Solo, h: Handle) returns (r': Solo)
    requires Reached(r) && r.th.pc.Adopt? && r.th.cand == Some(h) && r.locks == map[ReconnectLock(r.th.p) := r.t]
    ensures GoesOn(r, r', Adopted(r.s, r.th.p, h), Resumed(r.th), map[], [])
  {
    var e := Act(r.th, View(r.s, r.th.p), Go).value;
    r' := Acts(r, Go, e);
    hide Act;
    assert Relock(r.locks, r.t, e) == map[];
    assert Rest(r.s, r.t, e) == Adopted(r.s, r.th.p, h);
  }

  /** A dial that fails is repeated, as long as it is not the fifth. */
  lemma {:induction false} DialsInVain(r: Solo, n: nat) returns (r': Solo)
    requires Reached(r) && r.th.pc.Dial? && r.th.dials == 0 && n < 5
    ensures GoesOn(r, r', r.s, r.th.(dials := n), r.locks, Fails(n))
  {
    if n == 0 {
      r' := r;
      assert r.answers + [] == r.answers;
    } else {
      r' := DialsInVain(r, n - 1);
      r' := JustMoves(r', Bad, r.th.(dials := n));
      assert Fails(n - 1) + [Bad] == Fails(n);
      assert r.answers + Fails(n - 1) + [Bad] == r.answers + Fails(n);
    }
  }

  lemma FailsFinally(r: Solo) returns (r': Solo)
    requires Reached(r) && r.th.pc.Dial? && r.th.dials == 4 && r.locks == map[ReconnectLock(r.th.p) := r.t]
    ensures GoesOn(r, r', r.s, r.th.(pc := Idle), map[], [Bad])
  {
    var e := Act(r.th, View(r.s, r.th.p), Bad).value;
    r' := Moves(r, Bad, e);
    assert Relock(r.locks, r.t, e) == map[];
  }

  lemma DialSucceeds(r: Solo) returns (r': Solo)
    requires Reached(r) && r.th.pc.Dial?
    ensures GoesOn(r, r', r.s.(nextHandle := r.s.nextHandle + 1),
      r.th.(pc := Publish, cand := Some(r.s.nextHandle)), r.locks, [Good])
  {
    var e := Act(r.th, View(r.s, r.th.p), Good).value;
    r' := Acts(r, Good, e);
    hide Act;
    assert Relock(r.locks, r.t, e) == r.locks;
    assert r.s.providers[r.th.p := r.s.providers[r.th.p]] == r.s.providers;
    assert Rest(r.s, r.t, e) == r.s.(nextHandle := r.s.nextHandle + 1);
  }

  /** The effect of publishing handle `h`. */
  function Publication(th: Thread, key: Key, h: Handle): Effect {
    Effect(Resumed(th), Provider(key, Some(h), true, false), CacheLock, CacheLock, ReconnectLock(th.p), Put(h),
           false, false, None)
  }

  lemma PublicationIs(th: Thread, v: Sight, h: Handle)
    requires th.pc.Publish? && th.cand == Some(h)
    ensures Act(th, v, Go) == Some(Publication(th, v.me.key, h))
  {
  }

  lemma PublicationDoes(s: State, t: ThreadId, th: Thread)
    requires th.p in s.providers
    ensures var e := Publication(th, s.providers[th.p].key, s.nextHandle);
      && Rest(s.(nextHandle := s.nextHandle + 1), t, e) == Published(s, th.p)
      && Relock(map[ReconnectLock(th.p) := t], t, e) == map[]
  {
  }

  lemma Publishes(r: Solo, s: State) returns (r': Solo)
    requires Reached(r) && r.th.pc.Publish? && r.locks == map[ReconnectLock(r.th.p) := r.t]
    requires r.s == s.(nextHandle := s.nextHandle + 1) && r.th.cand == Some(s.nextHandle)
    ensures GoesOn(r, r', Published(s, r.th.p), Resumed(r.th), map[], [])
  {
    hide Act, Exec, Answers, Published, Rest, Relock;
    var e := Publication(r.th, r.s.providers[r.th.p].key, s.nextHandle);
    PublicationIs(r.th, View(r.s, r.th.p), s.nextHandle);
    PublicationDoes(s, r.t, r.th);
    r' := Acts(r, Go, e);
  }

  // ----- connect as a whole ------------------------------------------------

  /** The cached handle is shared without dialling. */
  lemma Shares(r: Solo) returns (r': Solo)
    requires Reached(r) && r.th.pc.ReconnectWait? && r.locks == map[] && !IsConnected(r.s, r.th.p)
    requires r.s.providers[r.th.p].key in r.s.cache
    ensures var h := r.s.cache[r.s.providers[r.th.p].key];
      GoesOn(r, r', Adopted(r.s, r.th.p, h), Resumed(r.th.(cand := Some(h), dials := 0)), map[], [])
  {
    r' := LooksUp(r);
    r' := AdoptsCached(r', r.s.cache[r.s.providers[r.th.p].key]);
    assert r.answers + [] + [] == r.answers + [];
  }

  /** Without one, the first dial that succeeds is published. */
  lemma Dials(r: Solo, n: nat) returns (r': Solo)
    requires Reached(r) && r.th.pc.ReconnectWait? && r.locks == map[] && !IsConnected(r.s, r.th.p)
    requires r.s.providers[r.th.p].key !in r.s.cache && n < 5
    ensures GoesOn(r, r', Published(r.s, r.th.p), Resumed(r.th.(cand := Some(r.s.nextHandle), dials := n)), map[],
      Fails(n) + [Good])
  {
    hide Published;
    r' := LooksUp(r);
    r' := DialsInVain(r', n);
    r' := DialSucceeds(r');
    r' := Publishes(r', r.s);
    assert r.answers + [] + Fails(n) + [Good] + [] == r.answers + (Fails(n) + [Good]);
  }

  /** After the fifth failure `connect` gives up. */
  lemma DialsFiveTimes(r: Solo) returns (r': Solo)
    requires Reached(r) && r.th.pc.ReconnectWait? && r.locks == map[] && !IsConnected(r.s, r.th.p)
    requires r.s.providers[r.th.p].key !in r.s.cache
    ensures GoesOn(r, r', r.s, r.th.(pc := Idle, cand := None, dials := 4), map[], Fails(5))
  {
    r' := LooksUp(r);
    r' := DialsInVain(r', 4);
    r' := FailsFinally(r');
    assert r.answers + [] + Fails(4) + [Bad] == r.answers + Fails(5);
  }

  /** Alone and under these answers of the driver, the call ends with the rest of the state as in `s`. */
  ghost predicate Ends(s0: State, t: ThreadId, call: Call, p: ProviderId, schedule: seq<(ThreadId, Choice)>,
      answers: seq<Choice>, s: State)
    requires Typed(s0)
  {
    && Alone(schedule, t, call, p) && Answers(schedule) == answers && Exec(s0, schedule).Some?
    && var s' := Exec(s0, schedule).value;
      t in s'.threads && s'.threads[t].pc.Idle? && s' == At(s, t, s'.threads[t], map[])
  }

  lemma Ended(r: Solo)
    requires Reached(r) && r.th.pc.Idle? && r.locks == map[]
    ensures Ends(r.start, r.t, r.call, r.p, r.schedule, r.answers, r.s)
  {
  }

  /** `connect` to an uncached queue manager dials, five times if need be, and publishes. */
  lemma ConnectsFresh(s: State, t: ThreadId, p: ProviderId, n: nat) returns (schedule: seq<(ThreadId, Choice)>)
    requires Typed(s) && t in s.threads && s.threads[t].pc.Idle? && p in s.providers && s.locks == map[]
    requires !IsConnected(s, p) && s.providers[p].key !in s.cache && n < 5
    ensures Ends(s, t, Connecting, p, schedule, Fails(n) + [Good], Published(s, p))
  {
    hide Published;
    var r := Begins(s, t, Connecting, p);
    r := Dials(r, n);
    schedule := r.schedule;
    assert [] + (Fails(n) + [Good]) == Fails(n) + [Good];
    Ended(r);
  }

  /** `connect` to a cached queue manager asks the driver nothing and shares the handle. */
  lemma ConnectsShared(s: State, t: ThreadId, p: ProviderId) returns (schedule: seq<(ThreadId, Choice)>)
    requires Typed(s) && t in s.threads && s.threads[t].pc.Idle? && p in s.providers && s.locks == map[]
    requires !IsConnected(s, p) && s.providers[p].key in s.cache
    ensures Ends(s, t, Connecting, p, schedule, [], Adopted(s, p, s.cache[s.providers[p].key]))
  {
    hide Adopted;
    var r := Begins(s, t, Connecting, p);
    r := Shares(r);
    schedule := r.schedule;
    Ended(r);
  }

  /** `connect` changes nothing if there is a connection, or if the driver fails five times. */
  lemma ConnectsInVain(s: State, t: ThreadId, p: ProviderId) returns (schedule: seq<(ThreadId, Choice)>)
    requires Typed(s) && t in s.threads && s.threads[t].pc.Idle? && p in s.providers && s.locks == map[]
    requires IsConnected(s, p) || s.providers[p].key !in s.cache
    ensures Ends(s, t, Connecting, p, schedule, if IsConnected(s, p) then [] else Fails(5), s)
  {
    var r := Begins(s, t, Connecting, p);
    if IsConnected(s, p) {
      r := StaysConnected(r);
    } else {
      r := DialsFiveTimes(r);
      assert [] + Fails(5) == Fails(5);
    }
    schedule := r.schedule;
    Ended(r);
  }

  /** What disconnect() leaves: the handle is given up, and disconnected if the provider is not sharing it. */
  function Departed(s: State, p: ProviderId): State
    requires p in s.providers
  {
    var me := s.providers[p];
    if me.qm.None? then s
    else
      s.(providers := s.providers[p := Provider(me.key, None, false, me.shared)],
         log := if me.shared then s.log else s.log + [(me.qm.value, p)])
  }

  /** The effect of disconnect() under the provider's lock. */
  function Departure(th: Thread, me: Provider): Effect {
    var gone := if me.qm.None? then me else Provider(me.key, None, false, me.shared);
    Effect(th.(pc := Idle), gone, NoLock, ProviderLock(th.p), NoLock, Keep, false, false,
           if me.shared then None else me.qm)
  }

  lemma DepartureIs(th: Thread, v: Sight)
    requires th.pc.Disconnect?
    ensures Act(th, v, Go) == Some(Departure(th, v.me))
  {
  }

  lemma DepartureDoes(s: State, t: ThreadId, th: Thread)
    requires th.p in s.providers
    ensures var e := Departure(th, s.providers[th.p]);
      && Rest(s, t, e) == Departed(s, th.p)
      && Relock(map[ProviderLock(th.p) := t], t, e) == map[]
  {
    var e := Departure(th, s.providers[th.p]);
    assert s.providers[th.p].qm.None? ==> Rest(s, t, e).providers == s.providers;
  }

  lemma Departs(r: Solo) returns (r': Solo)
    requires Reached(r) && r.th.pc.DisconnectWait? && r.locks == map[]
    ensures GoesOn(r, r', Departed(r.s, r.th.p), r.th.(pc := Idle), map[], [])
  {
    r' := TakesLock(r, ProviderLock(r.th.p), r.th.(pc := Disconnect));
    hide Act, Exec, Answers, Rest, Relock;
    DepartureIs(r'.th, View(r.s, r.th.p));
    DepartureDoes(r.s, r.t, r'.th);
    assert r.locks[ProviderLock(r.th.p) := r.t] == map[ProviderLock(r.th.p) := r.t];
    r' := Acts(r', Go, Departure(r'.th, r.s.providers[r.th.p]));
    assert r.answers + [] + [] == r.answers + [];
  }

  /** disconnect() gives the handle up and never evicts the cache. */
  lemma Disconnects(s: State, t: ThreadId, p: ProviderId) returns (schedule: seq<(ThreadId, Choice)>)
    requires Typed(s) && t in s.threads && s.threads[t].pc.Idle? && p in s.providers && s.locks == map[]
    ensures Ends(s, t, Disconnecting, p, schedule, [], Departed(s, p))
    ensures Departed(s, p).cache == s.cache
  {
    var r := Begins(s, t, Disconnecting, p);
    r := Departs(r);
    schedule := r.schedule;
    Ended(r);
  }

  /** Provider 0 owns handle 0, and provider 1 is not connected. */
  lemma OneConnected() returns (s0: State, schedule: seq<(ThreadId, Choice)>, s: State)
    ensures Typed(s0) && Initial(s0) && Exec(s0, schedule) == Some(s)
    ensures s.threads.Keys == {0, 1} && s.threads[0].pc.Idle? && s.threads[1].pc.Idle?
    ensures s.providers == map[0 := Provider(0, Some(0), true, false), 1 := Provider(0, None, false, false)]
    ensures s.cache == map[0 := 0] && s.locks == map[] && s.creator == map[0 := 0] && s.log == []
  {
    hide Exec, Step, Alone, Answers;
    var idle := NewCall(Connecting, 0).(pc := Idle);
    var none := Provider(0, None, false, false);
    s0 := State(map[0 := idle, 1 := idle], map[0 := none, 1 := none], map[], map[], 0, map[], map[], 0, []);
    schedule := ConnectsFresh(s0, 0, 0, 0);
    s := Exec(s0, schedule).value;
  }

  /** Provider 0 has connected and disconnected. */
  lemma DeadHandleInCache() returns (s0: State, schedule: seq<(ThreadId, Choice)>, s: State)
    ensures Typed(s0) && Initial(s0) && Exec(s0, schedule) == Some(s)
    ensures 0 in s.threads && s.threads[0].pc.Idle? && s.locks == map[] && s.cache == map[0 := 0] && s.log == [(0, 0)]
    ensures 1 in s.providers && s.providers[1] == Provider(0, None, false, false)
  {
    hide Exec, Step, Alone, Answers, Initial;
    s0, schedule, s := OneConnected();
    var b := Disconnects(s, 0, 0);
    ExecAppend(s0, schedule, b);
    schedule, s := schedule + b, Exec(s, b).value;
  }

  /**
   With disconnect(), the cache can hold a dead handle, and the next provider to connect
   shares it: disconnect() does not evict.
   */
  lemma DisconnectLeavesDeadHandle() returns (s0: State, schedule: seq<(ThreadId, Choice)>)
    ensures Typed(s0) && Initial(s0) && Exec(s0, schedule).Some?
    ensures var s := Exec(s0, schedule).value;
      && 0 in s.cache && Logged(s, s.cache[0])
      && 1 in s.providers && s.providers[1].connected && s.providers[1].qm == Some(s.cache[0])
  {
    var s: State;
    s0, schedule, s := DeadHandleInCache();
    hide Exec, Alone, Answers;
    var c := ConnectsShared(s, 0, 1);
    ExecAppend(s0, schedule, c);
    schedule := schedule + c;
    assert s.log[0].0 == 0;
  }
}
