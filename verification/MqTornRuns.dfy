/**
 Whole runs with torn publications: handles are disconnected once and by their creators
 exactly if nothing takes a half-shared handle away, and that can happen.
 */
module MqTornRuns {
  import opened Util
  import opened MqProtocol
  import opened MqSteps
  import opened MqLocks
  import opened MqHandles
  import opened MqTorn
  import opened MqTornSteps
  import opened MqAlone
  import opened MqWitness

  function TornExec(x: Torn, schedule: seq<(ThreadId, Choice)>): (r: Option<Torn>)
    requires Typed(x.s)
    ensures r.Some? ==> Typed(r.value.s)
  {
    if schedule == [] then Some(x)
    else
      var last := |schedule| - 1;
      var before := TornExec(x, schedule[..last]);
      if before.None? then None else TornStep(before.value, schedule[last].0, schedule[last].1)
  }

  // ----- the exposed step --------------------------------------------------

  /** Another provider's handle, or one that is being disconnected, or gone. */
  predicate NotToTake(s: State, p: ProviderId, h: Handle) {
    h in s.creator && (s.creator[h] != p || Logged(s, h) || exists t | t in s.threads :: Condemned(s, t, h))
  }

  /** A half-shared handle is in its creator's hands, or being disconnected, or gone. */
  lemma HalfSharedIsAccounted(x: Torn, p: ProviderId)
    requires Typed(x.s) && Places(x) && Books(x) && p in x.s.providers && x.s.providers[p].qm.Some? && HalfShared(x, p)
    ensures NotToTake(x.s, p, x.s.providers[p].qm.value)
  {
    var u :| Sharing(x, u, p);
    assert x.s.threads[u].cand == x.s.providers[p].qm;
  }

  lemma GivingUpIsUnsound(s: State, s': State, t: ThreadId, h: Handle)
    requires Typed(s) && GivesUp(s, s', t) && Owner(s, s.threads[t].p, h) && NotToTake(s, s.threads[t].p, h)
    ensures !Sound(s')
  {
    assert Condemned(s', t, h);
    assert Logged(s', h) <==> Logged(s, h);
    assert forall u :: Condemned(s, u, h) ==> Condemned(s', u, h) && u != t;
  }

  lemma QuittingIsUnsound(s: State, s': State, t: ThreadId, h: Handle)
    requires Typed(s) && Quits(s, s', t) && Owner(s, s.threads[t].p, h) && NotToTake(s, s.threads[t].p, h)
    ensures !Sound(s')
  {
    var p := s.threads[t].p;
    LoggedOneMore(s, s', h, p);
    assert s'.log[|s.log|] == (h, p);
    if Logged(s, h) {
      var i :| 0 <= i < |s.log| && s.log[i].0 == h;
      assert s'.log[i].0 == s'.log[|s.log|].0;
    }
    assert forall u :: Condemned(s, u, h) ==> Condemned(s', u, h);
  }

  lemma ExposedIsUnsound(x: Torn, t: ThreadId, c: Choice)
    requires Typed(x.s) && TornInv(x) && Exposed(x, t) && TornStep(x, t, c).Some?
    ensures !Sound(TornStep(x, t, c).value.s)
  {
    hide Sound, GivesUp, Quits, LockInv, Fresh, Claims, Step;
    var s, s' := x.s, TornStep(x, t, c).value.s;
    var p := s.threads[t].p;
    HalfSharedIsAccounted(x, p);
    if s.threads[t].pc.Guard? {
      GuardIsOrdinary(s, t, c);
      GivingUpIsUnsound(s, s', t, s.providers[p].qm.value);
    } else {
      DisconnectIsOrdinary(s, t, c);
      QuittingIsUnsound(s, s', t, s.providers[p].qm.value);
    }
  }

  /** A step from a state of a run without exposed steps stays sound exactly if it is not exposed. */
  lemma StepStaysSoundExactly(x: Torn, t: ThreadId, c: Choice)
    requires Typed(x.s) && TornInv(x) && TornStep(x, t, c).Some?
    ensures Sound(TornStep(x, t, c).value.s) <==> !Exposed(x, t)
  {
    if !Exposed(x, t) {
      TornStepKeeps(x, t, c);
    } else {
      ExposedIsUnsound(x, t, c);
    }
  }

  // ----- unsound states end in a wrong disconnect --------------------------

  lemma CondemnedIsDisposed(x: Torn, t: ThreadId, h: Handle)
    requires Typed(x.s) && LockInv(x.s) && Condemned(x.s, t, h)
    ensures TornStep(x, t, Go).Some?
    ensures Disposes(x.s, TornStep(x, t, Go).value.s, t, h)
  {
    StepTyped(x.s, t, Go);
    ActStays(x.s.threads[t], View(x.s, x.s.threads[t].p), Go);
  }

  lemma WrongDisposal(s: State, s': State, t: ThreadId, h: Handle)
    requires Typed(s) && Disposes(s, s', t, h)
    requires h !in s.creator || s.creator[h] != s.threads[t].p || Logged(s, h)
    ensures !LogInv(s')
  {
    assert s'.log[|s.log|] == (h, s.threads[t].p);
    if Logged(s, h) {
      var i :| 0 <= i < |s.log| && s.log[i].0 == h;
      assert s'.log[i].0 == s'.log[|s.log|].0;
    }
  }

  lemma OneMore(x: Torn, schedule: seq<(ThreadId, Choice)>, t: ThreadId, c: Choice)
    requires Typed(x.s) && TornExec(x, schedule).Some?
    ensures TornExec(x, schedule + [(t, c)]) == TornStep(TornExec(x, schedule).value, t, c)
  {
    assert (schedule + [(t, c)])[..|schedule|] == schedule;
  }

  /**
   From an unsound state, at most two more steps lead to a handle that has been disconnected
   twice, or in the name of a provider that did not create it.
   */
  lemma UnsoundEndsBadly(x: Torn) returns (after: seq<(ThreadId, Choice)>)
    requires Typed(x.s) && LockInv(x.s) && !Sound(x.s)
    ensures |after| <= 2 && TornExec(x, after).Some? && !LogInv(TornExec(x, after).value.s)
  {
    after := [];
    if !LogInv(x.s) {
      return;
    }
    if t, h :| Condemned(x.s, t, h) && !(h in x.s.creator && x.s.creator[h] == x.s.threads[t].p && !Logged(x.s, h)) {
      CondemnedIsDisposed(x, t, h);
      OneMore(x, [], t, Go);
      after := [] + [(t, Go)];
      WrongDisposal(x.s, TornStep(x, t, Go).value.s, t, h);
    } else {
      var t, u, h :| Condemned(x.s, t, h) && Condemned(x.s, u, h) && t != u;
      CondemnedIsDisposed(x, t, h);
      OneMore(x, [], t, Go);
      var y := TornStep(x, t, Go).value;
      LoggedOneMore(x.s, y.s, h, x.s.threads[t].p);
      assert Condemned(y.s, u, h);
      TornLocks(x, t, Go);
      CondemnedIsDisposed(y, u, h);
      OneMore(x, [] + [(t, Go)], u, Go);
      after := [] + [(t, Go)] + [(u, Go)];
      WrongDisposal(y.s, TornStep(y, u, Go).value.s, u, h);
    }
  }

  // ----- whole runs --------------------------------------------------------

  ghost predicate SoundAt(x: Torn, schedule: seq<(ThreadId, Choice)>, n: nat)
    requires Typed(x.s) && n <= |schedule|
  {
    var y := TornExec(x, schedule[..n]); y.Some? && Sound(y.value.s)
  }

  /** Step number `n` of the run is exposed. */
  ghost predicate ExposedAt(x: Torn, schedule: seq<(ThreadId, Choice)>, n: nat)
    requires Typed(x.s) && n < |schedule|
  {
    var y := TornExec(x, schedule[..n]); y.Some? && Exposed(y.value, schedule[n].0)
  }

  ghost predicate SoundThroughout(x: Torn, schedule: seq<(ThreadId, Choice)>)
    requires Typed(x.s)
  {
    forall n: nat | n <= |schedule| :: SoundAt(x, schedule, n)
  }

  ghost predicate NeverExposed(x: Torn, schedule: seq<(ThreadId, Choice)>)
    requires Typed(x.s)
  {
    forall n: nat | n < |schedule| :: !ExposedAt(x, schedule, n)
  }

  lemma ThroughoutSplits(x: Torn, schedule: seq<(ThreadId, Choice)>)
    requires Typed(x.s) && schedule != []
    ensures var most := schedule[..|schedule| - 1];
      && (SoundThroughout(x, schedule) <==> SoundThroughout(x, most) && SoundAt(x, schedule, |schedule|))
      && (NeverExposed(x, schedule) <==> NeverExposed(x, most) && !ExposedAt(x, schedule, |most|))
  {
    hide Sound, Exposed, TornExec;
    var most := schedule[..|schedule| - 1];
    forall n: nat | n < |schedule|
      ensures SoundAt(x, schedule, n) <==> SoundAt(x, most, n)
      ensures n < |most| ==> (ExposedAt(x, schedule, n) <==> ExposedAt(x, most, n))
    {
      assert most[..n] == schedule[..n];
    }
  }

  /** What `SoundAt` and `ExposedAt` say of the last step of a run. */
  lemma LastStepAt(x: Torn, schedule: seq<(ThreadId, Choice)>)
    requires Typed(x.s) && schedule != [] && TornExec(x, schedule).Some?
    ensures var last := |schedule| - 1; var y := TornExec(x, schedule[..last]);
      && y.Some? && TornStep(y.value, schedule[last].0, schedule[last].1) == TornExec(x, schedule)
      && (ExposedAt(x, schedule, last) <==> Exposed(y.value, schedule[last].0))
      && (SoundAt(x, schedule, |schedule|) <==> Sound(TornExec(x, schedule).value.s))
  {
    hide Sound, Exposed, TornStep;
    assert schedule[..|schedule|] == schedule;
  }

  lemma TornInvInitially(s0: State)
    requires Typed(s0) && Initial(s0)
    ensures TornInv(Torn(s0, map[]))
  {
  }

  lemma {:induction false} UnexposedInv(s0: State, schedule: seq<(ThreadId, Choice)>)
    requires Typed(s0) && Initial(s0) && TornExec(Torn(s0, map[]), schedule).Some?
    requires NeverExposed(Torn(s0, map[]), schedule)
    ensures TornInv(TornExec(Torn(s0, map[]), schedule).value)
  {
    hide TornInv, NeverExposed, Exposed, ExposedAt, SoundAt, SoundThroughout;
    var x := Torn(s0, map[]);
    if schedule == [] {
      TornInvInitially(s0);
    } else {
      var last := |schedule| - 1;
      ThroughoutSplits(x, schedule);
      LastStepAt(x, schedule);
      UnexposedInv(s0, schedule[..last]);
      TornStepKeeps(TornExec(x, schedule[..last]).value, schedule[last].0, schedule[last].1);
    }
  }

  /** All along a run, its disconnects stay sound exactly if no step of it is exposed. */
  lemma {:induction false} RunStaysSoundExactly(s0: State, schedule: seq<(ThreadId, Choice)>)
    requires Typed(s0) && Initial(s0) && TornExec(Torn(s0, map[]), schedule).Some?
    ensures SoundThroughout(Torn(s0, map[]), schedule) <==> NeverExposed(Torn(s0, map[]), schedule)
  {
    var x := Torn(s0, map[]);
    if schedule == [] {
      TornInvInitially(s0);
      assert schedule[..0] == schedule;
    } else {
      hide NeverExposed, SoundThroughout, ExposedAt, SoundAt, Sound, Exposed, TornInv, TornStep;
      var last := |schedule| - 1;
      ThroughoutSplits(x, schedule);
      LastStepAt(x, schedule);
      RunStaysSoundExactly(s0, schedule[..last]);
      if NeverExposed(x, schedule[..last]) {
        UnexposedInv(s0, schedule[..last]);
        StepStaysSoundExactly(TornExec(x, schedule[..last]).value, schedule[last].0, schedule[last].1);
      }
    }
  }

  /** In a run without exposed steps each handle is disconnected at most once, and by its creator. */
  lemma DisconnectedOnceUnlessExposed(s0: State, schedule: seq<(ThreadId, Choice)>, i: nat, j: nat)
    requires Typed(s0) && Initial(s0) && TornExec(Torn(s0, map[]), schedule).Some?
    requires NeverExposed(Torn(s0, map[]), schedule)
    requires var s := TornExec(Torn(s0, map[]), schedule).value.s; i < |s.log| && j < |s.log|
    ensures var s := TornExec(Torn(s0, map[]), schedule).value.s;
      && s.log[i].0 in s.creator && s.log[i].1 == s.creator[s.log[i].0]
      && (s.log[i].0 == s.log[j].0 ==> i == j)
  {
    UnexposedInv(s0, schedule);
  }

  /** The first exposed step of a run cannot be made good: two more steps may bring the wrong disconnect. */
  lemma ExposedStepEndsBadly(s0: State, schedule: seq<(ThreadId, Choice)>, t: ThreadId, c: Choice)
    returns (after: seq<(ThreadId, Choice)>)
    requires Typed(s0) && Initial(s0) && TornExec(Torn(s0, map[]), schedule).Some?
    requires NeverExposed(Torn(s0, map[]), schedule)
    requires var x := TornExec(Torn(s0, map[]), schedule).value; TornStep(x, t, c).Some? && Exposed(x, t)
    ensures var x := TornStep(TornExec(Torn(s0, map[]), schedule).value, t, c).value;
      |after| <= 2 && TornExec(x, after).Some? && !LogInv(TornExec(x, after).value.s)
  {
    UnexposedInv(s0, schedule);
    var x := TornExec(Torn(s0, map[]), schedule).value;
    StepStaysSoundExactly(x, t, c);
    TornLocks(x, t, c);
    after := UnsoundEndsBadly(TornStep(x, t, c).value);
  }

  // ----- runs with publications in one step --------------------------------

  /** The provider of thread `t` once it has published its candidate. */
  function WithCandidate(s: State, t: ThreadId, shared: bool): map<ProviderId, Provider>
    requires Typed(s) && t in s.threads && s.threads[t].pc != Idle
  {
    var th := s.threads[t];
    s.providers[th.p := s.providers[th.p].(qm := th.cand, connected := true, shared := shared)]
  }

  /** Sharing in one step. */
  lemma AdoptInOne(s: State, t: ThreadId)
    requires Typed(s) && Step(s, t, Go).Some? && s.threads[t].pc.Adopt?
    ensures var th := s.threads[t];
      Step(s, t, Go) == Some(s.(threads := s.threads[t := AfterConnect(th, true)],
                                providers := WithCandidate(s, t, true),
                                locks := s.locks - {ReconnectLock(th.p)}))
  {
    hide LookupAct, TransferAct, InvalidateAct, DisconnectAct;
    assert Relock(s.locks, t, EffectOf(s, t, Go).value) == s.locks - {ReconnectLock(s.threads[t].p)};
  }

  /** The first two assignments of sharing. */
  lemma HalfShares(s: State, t: ThreadId)
    requires Typed(s) && t in s.threads && s.threads[t].pc.Adopt?
    ensures var th := s.threads[t]; var me := s.providers[th.p];
      var a := TornStep(Torn(s, map[]), t, Go).value;
      TornStep(a, t, Go) ==
        Some(Torn(s.(providers := s.providers[th.p := me.(qm := th.cand, connected := true)]), map[t := 2]))
  {
    hide PublishNext;
    var p := s.threads[t].p;
    var me := s.providers[p].(qm := s.threads[t].cand);
    var a := TornStep(Torn(s, map[]), t, Go).value;
    assert a == Torn(s.(providers := s.providers[p := me]), map[t := 1]);
    assert map[t := 1][t := 2] == map[t := 2];
    assert s.providers[p := me][p := me.(connected := true)] == s.providers[p := me.(connected := true)];
  }

  lemma ShareInPieces(s: State, t: ThreadId)
    requires Typed(s) && Step(s, t, Go).Some? && s.threads[t].pc.Adopt?
    ensures var a := TornStep(Torn(s, map[]), t, Go).value; var b := TornStep(a, t, Go).value;
      TornStep(b, t, Go) == Some(Torn(Step(s, t, Go).value, map[]))
  {
    AdoptInOne(s, t);
    HalfShares(s, t);
    var th := s.threads[t];
    var b := Torn(s.(providers := s.providers[th.p := s.providers[th.p].(qm := th.cand, connected := true)]),
      map[t := 2]);
    ThirdIsLast(s, t, b);
  }

  lemma ThirdIsLast(s: State, t: ThreadId, b: Torn)
    requires Typed(s) && Step(s, t, Go).Some? && s.threads[t].pc.Adopt?
    requires var th := s.threads[t];
      b == Torn(s.(providers := s.providers[th.p := s.providers[th.p].(qm := th.cand, connected := true)]),
                map[t := 2])
    ensures Typed(b.s) && TornStep(b, t, Go) == Some(Torn(Step(s, t, Go).value, map[]))
  {
    AdoptInOne(s, t);
    hide Step, AfterConnect, PublishNext;
    var d := ShareNext(b, t);
    assert d.done == map[] && d.s.providers == WithCandidate(s, t, true);
  }

  /** Publishing in one step. */
  lemma PublishInOne(s: State, t: ThreadId)
    requires Typed(s) && Step(s, t, Go).Some? && s.threads[t].pc.Publish?
    ensures CacheLock !in s.locks && s.threads[t].cand.Some?
    ensures var th := s.threads[t]; var h := th.cand.value;
      Step(s, t, Go) == Some(s.(threads := s.threads[t := AfterConnect(th, true)],
                                providers := WithCandidate(s, t, false),
                                cache := s.cache[s.providers[th.p].key := h], creator := s.creator[h := th.p],
                                locks := s.locks - {ReconnectLock(th.p)}))
  {
    hide LookupAct, TransferAct, InvalidateAct, DisconnectAct;
    assert Relock(s.locks, t, EffectOf(s, t, Go).value) == s.locks - {ReconnectLock(s.threads[t].p)};
  }

  /** The provider's fields are written, the cache is not. */
  lemma FieldsInPieces(s: State, t: ThreadId)
    requires Typed(s) && t in s.threads && s.threads[t].pc.Publish? && s.threads[t].cand.Some?
    ensures var th := s.threads[t];
      var a := TornStep(Torn(s, map[]), t, Go).value; var b := TornStep(a, t, Go).value;
      TornStep(b, t, Go) == Some(Torn(s.(providers := WithCandidate(s, t, false),
                                         creator := s.creator[th.cand.value := th.p]), map[t := 3]))
  {
    hide Step;
    var a := TornStep(Torn(s, map[]), t, Go).value;
    var b := TornStep(a, t, Go).value;
    var d := TornStep(b, t, Go).value;
    assert d.done == map[t := 3] && d.s.providers == WithCandidate(s, t, false);
  }

  /** After the third assignment, the fourth is the last. */
  lemma FourthIsLast(d: Torn, t: ThreadId)
    requires Typed(d.s) && t in d.s.threads && d.s.threads[t].pc.Publish? && d.s.threads[t].cand.Some?
    requires Done(d, t) == 3 && CacheLock !in d.s.locks
    ensures var p := d.s.threads[t].p;
      TornStep(d, t, Go) == Some(Leave(d, t, d.s.providers[p], CacheOwn(d.s, p)))
  {
    hide Leave, CacheOwn, Write;
  }

  lemma LastPiece(s: State, t: ThreadId, d: Torn)
    requires Typed(s) && Step(s, t, Go).Some? && s.threads[t].pc.Publish? && s.threads[t].cand.Some?
    requires var th := s.threads[t];
      d == Torn(s.(providers := WithCandidate(s, t, false), creator := s.creator[th.cand.value := th.p]), map[t := 3])
    ensures Typed(d.s) && TornStep(d, t, Go) == Some(Torn(Step(s, t, Go).value, map[]))
  {
    PublishInOne(s, t);
    FourthIsLast(d, t);
    hide Step, AfterConnect, TornStep;
    var p := s.threads[t].p;
    assert CacheOwn(d.s, p) == s.cache[s.providers[p].key := s.threads[t].cand.value];
    hide CacheOwn;
    var e := Leave(d, t, d.s.providers[p], CacheOwn(d.s, p));
    assert e.done == map[] && e.s.providers == d.s.providers;
  }

  lemma PublishInPieces(s: State, t: ThreadId)
    requires Typed(s) && Step(s, t, Go).Some? && s.threads[t].pc.Publish?
    ensures var a := TornStep(Torn(s, map[]), t, Go).value; var b := TornStep(a, t, Go).value;
      var d := TornStep(b, t, Go).value; TornStep(d, t, Go) == Some(Torn(Step(s, t, Go).value, map[]))
  {
    PublishInOne(s, t);
    FieldsInPieces(s, t);
    var th := s.threads[t];
    hide Step, TornStep;
    LastPiece(s, t, Torn(s.(providers := WithCandidate(s, t, false), creator := s.creator[th.cand.value := th.p]),
                         map[t := 3]));
  }

  /** One step of the protocol, in as many pieces as it has assignments. */
  lemma StepInPieces(x: Torn, pieces: seq<(ThreadId, Choice)>, s: State, t: ThreadId, c: Choice)
    returns (pieces': seq<(ThreadId, Choice)>)
    requires Typed(x.s) && Typed(s) && TornExec(x, pieces) == Some(Torn(s, map[])) && Step(s, t, c).Some?
    ensures TornExec(x, pieces') == Some(Torn(Step(s, t, c).value, map[]))
  {
    hide TornExec;
    OneMore(x, pieces, t, c);
    pieces' := pieces + [(t, c)];
    if Publishing(s.threads[t].pc) {
      OneMore(x, pieces', t, c);
      OneMore(x, pieces' + [(t, c)], t, c);
      pieces' := pieces' + [(t, c)] + [(t, c)];
      if s.threads[t].pc.Adopt? {
        ShareInPieces(s, t);
      } else {
        PublishInPieces(s, t);
        OneMore(x, pieces', t, c);
        pieces' := pieces' + [(t, c)];
      }
    }
  }

  /** Every run of the protocol with publications in one step is also a run with torn ones. */
  lemma {:induction false} AtomicRunsAreTorn(s: State, schedule: seq<(ThreadId, Choice)>)
    returns (pieces: seq<(ThreadId, Choice)>)
    requires Typed(s) && Exec(s, schedule).Some?
    ensures TornExec(Torn(s, map[]), pieces) == Some(Torn(Exec(s, schedule).value, map[]))
  {
    if schedule == [] {
      pieces := [];
    } else {
      var last := |schedule| - 1;
      ExecStep(s, schedule);
      pieces := AtomicRunsAreTorn(s, schedule[..last]);
      pieces := StepInPieces(Torn(s, map[]), pieces, Exec(s, schedule[..last]).value, schedule[last].0,
        schedule[last].1);
    }
  }

  // ----- an exposed step that is reached -----------------------------------

  /** A thread connects provider 1 and finds the cached handle. */
  lemma FindsCached(s: State) returns (schedule: seq<(ThreadId, Choice)>, s': State)
    requires Typed(s) && 0 in s.threads && s.threads[0].pc.Idle? && s.locks == map[]
    requires 1 in s.providers && !IsConnected(s, 1) && s.providers[1].key in s.cache
    ensures Exec(s, schedule) == Some(s') && Typed(s')
    ensures var n := NewCall(Connecting, 1).(pc := Adopt, cand := Some(s.cache[s.providers[1].key]));
      s' == At(s, 0, n, map[ReconnectLock(1) := 0])
  {
    hide Exec, Answers, Alone;
    var r := Begins(s, 0, Connecting, 1);
    r := LooksUp(r);
    schedule, s' := r.schedule, At(r.s, 0, r.th, r.locks);
  }

  /** Another one calls disconnect() on it, gets the provider's lock, and is about to look at `qm`. */
  lemma GetsProviderLock(s: State) returns (schedule: seq<(ThreadId, Choice)>, s': State)
    requires Typed(s) && 1 in s.threads && s.threads[1].pc.Idle? && 1 in s.providers
      && s.locks == map[ReconnectLock(1) := 0]
    ensures Exec(s, schedule) == Some(s') && Typed(s')
    ensures s' == At(s, 1, NewCall(Disconnecting, 1).(pc := Disconnect), s.locks[ProviderLock(1) := 1])
  {
    hide Exec, Answers, Alone, Relock;
    var r := Begins(s, 1, Disconnecting, 1);
    r := TakesLock(r, ProviderLock(1), r.th.(pc := Disconnect));
    schedule, s' := r.schedule, At(r.s, 1, r.th, r.locks);
  }

  lemma BothInTheMiddle() returns (s0: State, schedule: seq<(ThreadId, Choice)>, s: State)
    ensures Typed(s0) && Initial(s0) && Exec(s0, schedule) == Some(s)
    ensures s.threads.Keys == {0, 1} && s.threads[1] == NewCall(Disconnecting, 1).(pc := Disconnect)
    ensures s.threads[0] == NewCall(Connecting, 1).(pc := Adopt, cand := Some(0))
    ensures s.providers == map[0 := Provider(0, Some(0), true, false), 1 := Provider(0, None, false, false)]
    ensures NoLock !in s.locks && s.creator == map[0 := 0] && s.log == []
  {
    hide Exec, Step;
    s0, schedule, s := OneConnected();
    var b, s2 := FindsCached(s);
    ExecAppend(s0, schedule, b);
    var d, s3 := GetsProviderLock(s2);
    ExecAppend(s0, schedule + b, d);
    schedule, s := schedule + b + d, s3;
  }

  lemma LastTwoSteps(s: State)
    requires Typed(s) && s.threads.Keys == {0, 1} && s.threads[1] == NewCall(Disconnecting, 1).(pc := Disconnect)
    requires s.threads[0] == NewCall(Connecting, 1).(pc := Adopt, cand := Some(0))
    requires s.providers == map[0 := Provider(0, Some(0), true, false), 1 := Provider(0, None, false, false)]
    requires NoLock !in s.locks && s.creator == map[0 := 0] && s.log == []
    ensures var x := TornStep(Torn(s, map[]), 0, Go); x.Some? && TornStep(x.value, 1, Go).Some?
    ensures var s' := TornStep(TornStep(Torn(s, map[]), 0, Go).value, 1, Go).value.s;
      s'.log == [(0, 1)] && s'.creator == map[0 := 0] && Owner(s', 0, 0) && s'.providers[0].connected
  {
    var x := TornStep(Torn(s, map[]), 0, Go).value;
    DisconnectIsOrdinary(x.s, 1, Go);
    assert Step(x.s, 1, Go).Some?;
    hide Step;
  }

  /**
   It does happen: disconnect() on a provider that is just coming to share a handle
   disconnects the handle that another provider has created and goes on using.
   */
  lemma SharedHandleIsDisconnected() returns (s0: State, schedule: seq<(ThreadId, Choice)>)
    ensures Typed(s0) && Initial(s0) && TornExec(Torn(s0, map[]), schedule).Some?
    ensures var s := TornExec(Torn(s0, map[]), schedule).value.s;
      s.log == [(0, 1)] && s.creator == map[0 := 0] && Owner(s, 0, 0) && s.providers[0].connected
  {
    var s: State;
    s0, schedule, s := BothInTheMiddle();
    schedule := AtomicRunsAreTorn(s0, schedule);
    OneMore(Torn(s0, map[]), schedule, 0, Go);
    OneMore(Torn(s0, map[]), schedule + [(0, Go)], 1, Go);
    schedule := schedule + [(0, Go)] + [(1, Go)];
    LastTwoSteps(s);
  }
}
