/**
 The locks of the IBM MQ provider: who holds what, one operation lock per key,
 and no deadlock.
 */
module MqLocks {
  import opened Util
  import opened MqProtocol

  // ----- locks -------------------------------------------------------------

  predicate Reconnecting(pc: Pc) {
    pc.CheckWait? || pc.Check? || pc.LookupWait? || pc.Lookup? || pc.Adopt? || pc.Dial? || pc.Publish?
  }

  predicate Operating(pc: Pc) {
    pc.Open? || pc.Transfer? || pc.Close? || pc.GuardWait? || pc.Guard? || pc.Mqdisc? || pc.EvictWait? || pc.Evict?
  }

  /** The locks a thread must be holding at its program point. */
  predicate Holds(th: Thread, n: LockName) {
    match n
    case NoLock => false
    case ReconnectLock(p) => p == th.p && Reconnecting(th.pc)
    case OpLock(id) => id == th.lk && Operating(th.pc)
    case ProviderLock(p) => p == th.p && (th.pc.Check? || th.pc.Alive? || th.pc.Guard? || th.pc.Disconnect?)
    case CacheLock => th.pc.Lookup? || th.pc.Evict?
    case DictMutex => th.pc.Dict?
  }

  predicate Owns(s: State, t: ThreadId, n: LockName) {
    n in s.locks && s.locks[n] == t
  }

  /** The lock table says exactly what the program points say. */
  ghost predicate LockInv(s: State) {
    && (forall t, n | t in s.threads :: Owns(s, t, n) <==> Holds(s.threads[t], n))
    && (forall n | n in s.locks :: n != NoLock && s.locks[n] in s.threads)
  }

  /** For a lock `n`, an effect takes or drops it exactly when its two program points differ on it. */
  predicate Balanced(th: Thread, e: Effect, n: LockName) {
    && (Holds(e.th, n) <==> (Holds(th, n) || e.take == n) && !Drops(e, n))
    && (Drops(e, n) ==> Holds(th, n) || e.take == n)
  }

  lemma LookupLocks(th: Thread, v: Sight, c: Choice, n: LockName)
    requires n != NoLock && LookupAct(th, v, c).Some?
    ensures Balanced(th, LookupAct(th, v, c).value, n)
  {
    var e := LookupAct(th, v, c).value;
    assert e.th.p == th.p && e.th.lk == th.lk;
    assert e.drop2 != NoLock ==> th.pc.Check?;
    assert Reconnecting(e.th.pc) || th.pc.Check?;
  }

  lemma PublishLocks(th: Thread, v: Sight, c: Choice, n: LockName)
    requires n != NoLock && PublishAct(th, v, c).Some?
    ensures Balanced(th, PublishAct(th, v, c).value, n)
  {
  }

  /** While the queue is opened and used the thread keeps what it holds. */
  lemma DriverLocks(th: Thread, v: Sight, c: Choice, n: LockName)
    requires n != NoLock && (th.pc.Open? || th.pc.Transfer?) && TransferAct(th, v, c).Some?
    ensures Balanced(th, TransferAct(th, v, c).value, n)
  {
    var e := TransferAct(th, v, c).value;
    assert Operating(e.th.pc) && e.th.p == th.p && e.th.lk == th.lk;
  }

  lemma TransferLocks(th: Thread, v: Sight, c: Choice, n: LockName)
    requires n != NoLock && TransferAct(th, v, c).Some?
    ensures Balanced(th, TransferAct(th, v, c).value, n)
  {
    if th.pc.Open? || th.pc.Transfer? {
      DriverLocks(th, v, c, n);
    } else {
      hide AfterFailure;
      var e := TransferAct(th, v, c).value;
      assert e.th.p == th.p && e.drop2 == NoLock && (e.take != NoLock ==> e.drop == NoLock);
      assert e.th.lk == th.lk || th.pc.Dict?;
    }
  }

  lemma InvalidateLocks(th: Thread, v: Sight, c: Choice, n: LockName)
    requires n != NoLock && InvalidateAct(th, v, c).Some?
    ensures Balanced(th, InvalidateAct(th, v, c).value, n)
  {
    match th.pc
    case GuardWait =>
    case Guard =>
    case Mqdisc =>
    case EvictWait =>
    case Evict =>
  }

  lemma ActLocks(th: Thread, v: Sight, c: Choice, n: LockName)
    requires n != NoLock && Act(th, v, c).Some?
    ensures Balanced(th, Act(th, v, c).value, n)
  {
    match th.pc
    case ReconnectWait | CheckWait | Check | LookupWait | Lookup => LookupLocks(th, v, c, n);
    case Adopt | Dial | Publish => PublishLocks(th, v, c, n);
    case AliveWait | Alive | DictWait | Dict | Snapshot | OpWait | Open | Transfer | Close =>
      TransferLocks(th, v, c, n);
    case GuardWait | Guard | Mqdisc | EvictWait | Evict => InvalidateLocks(th, v, c, n);
    case _ =>
  }

  lemma StepLockInv(s: State, t: ThreadId, c: Choice)
    requires Typed(s) && LockInv(s) && Step(s, t, c).Some?
    ensures LockInv(Step(s, t, c).value)
  {
    var s' := Step(s, t, c).value;
    var e := EffectOf(s, t, c).value;
    hide Act;
    forall u, n | u in s'.threads
      ensures Owns(s', u, n) <==> Holds(s'.threads[u], n)
    {
      if s.threads[t].pc != Idle && n != NoLock {
        ActLocks(s.threads[t], View(s, s.threads[t].p), c, n);
      }
      assert Owns(s, u, n) <==> Holds(s.threads[u], n);
      assert Owns(s, t, n) <==> Holds(s.threads[t], n);
    }
    if s.threads[t].pc != Idle {
      ActStays(s.threads[t], View(s, s.threads[t].p), c);
    }
  }

  // ----- one operation lock per key ----------------------------------------

  /** Program points that rely on `op_lock`. */
  predicate KnowsOpLock(th: Thread) {
    Operating(th.pc) || th.pc.Snapshot? || th.pc.OpWait?
    || (th.call == Putting && (th.pc.ReconnectWait? || Reconnecting(th.pc)))
  }

  /** `_hconn_operation_locks` keeps one lock object per key and never replaces it. */
  ghost predicate DictInv(s: State)
    requires Typed(s)
  {
    && (forall k | k in s.opLocks :: s.opLocks[k] < s.nextLock)
    && (forall t | t in s.threads && KnowsOpLock(s.threads[t]) ::
          && s.threads[t].p in s.providers
          && s.providers[s.threads[t].p].key in s.opLocks
          && s.opLocks[s.providers[s.threads[t].p].key] == s.threads[t].lk)
    && (forall t | t in s.threads :: s.threads[t].queueOpen ==> Operating(s.threads[t].pc))
    && (forall t | t in s.threads :: s.threads[t].pc.Publish? ==> s.threads[t].cand.Some?)
  }

  predicate DictShape(th: Thread, v: Sight, e: Effect) {
    && (e.newLock ==> v.opLock.None?)
    && (KnowsOpLock(e.th) ==>
          || (KnowsOpLock(th) && e.th.lk == th.lk)
          || (if e.newLock then e.th.lk == v.nextLock else v.opLock == Some(e.th.lk)))
    && (e.th.queueOpen ==> Operating(e.th.pc) || (th.queueOpen && !Operating(th.pc)))
    && (e.th.pc.Publish? ==> e.th.cand.Some?)
  }

  lemma LookupDict(th: Thread, v: Sight, c: Choice)
    requires LookupAct(th, v, c).Some?
    ensures DictShape(th, v, LookupAct(th, v, c).value)
  {
    match th.pc
    case ReconnectWait =>
    case CheckWait =>
    case Check =>
    case LookupWait =>
    case Lookup =>
  }

  lemma PublishDict(th: Thread, v: Sight, c: Choice)
    requires PublishAct(th, v, c).Some?
    ensures DictShape(th, v, PublishAct(th, v, c).value)
  {
  }

  lemma TransferDict(th: Thread, v: Sight, c: Choice)
    requires TransferAct(th, v, c).Some?
    ensures DictShape(th, v, TransferAct(th, v, c).value)
  {
    match th.pc
    case AliveWait =>
    case Alive =>
    case DictWait =>
    case Dict =>
    case Snapshot =>
    case OpWait =>
    case Open =>
    case Transfer =>
    case Close =>
  }

  lemma InvalidateDict(th: Thread, v: Sight, c: Choice)
    requires InvalidateAct(th, v, c).Some?
    ensures DictShape(th, v, InvalidateAct(th, v, c).value)
  {
  }

  lemma ActDict(th: Thread, v: Sight, c: Choice)
    requires Act(th, v, c).Some?
    ensures DictShape(th, v, Act(th, v, c).value)
  {
    match th.pc
    case ReconnectWait | CheckWait | Check | LookupWait | Lookup => LookupDict(th, v, c);
    case Adopt | Dial | Publish => PublishDict(th, v, c);
    case AliveWait | Alive | DictWait | Dict | Snapshot | OpWait | Open | Transfer | Close => TransferDict(th, v, c);
    case GuardWait | Guard | Mqdisc | EvictWait | Evict => InvalidateDict(th, v, c);
    case _ =>
  }

  lemma DictKept(s: State, t: ThreadId, e: Effect)
    requires Typed(s) && DictInv(s) && t in s.threads && e.th.p in s.providers && Typed(Apply(s, t, e))
    requires e.me.key == s.providers[e.th.p].key && (s.threads[t].pc != Idle ==> s.threads[t].p == e.th.p)
    requires DictShape(s.threads[t], View(s, e.th.p), e) && (s.threads[t].pc.Idle? ==> !KnowsOpLock(e.th))
    ensures DictInv(Apply(s, t, e))
  {
    hide Relock;
    var s' := Apply(s, t, e);
    forall u | u in s'.threads && KnowsOpLock(s'.threads[u])
      ensures s'.threads[u].p in s'.providers && s'.providers[s'.threads[u].p].key == s.providers[s'.threads[u].p].key
      ensures s'.providers[s'.threads[u].p].key in s'.opLocks
      ensures s'.opLocks[s'.providers[s'.threads[u].p].key] == s'.threads[u].lk
    {
      assert u != t ==> s'.threads[u] == s.threads[u];
    }
  }

  lemma StepDictInv(s: State, t: ThreadId, c: Choice)
    requires Typed(s) && DictInv(s) && Step(s, t, c).Some?
    ensures Typed(Step(s, t, c).value) && DictInv(Step(s, t, c).value)
  {
    StepTyped(s, t, c);
    if s.threads[t].pc != Idle {
      ActDict(s.threads[t], View(s, s.threads[t].p), c);
      ActStays(s.threads[t], View(s, s.threads[t].p), c);
    }
    hide Act, Apply, DictInv;
    DictKept(s, t, EffectOf(s, t, c).value);
  }

  // ----- what the locks guarantee in every run -----------------------------

  lemma {:induction false} Reachable(s0: State, schedule: seq<(ThreadId, Choice)>)
    requires Typed(s0) && Initial(s0) && Exec(s0, schedule).Some?
    ensures LockInv(Exec(s0, schedule).value) && DictInv(Exec(s0, schedule).value)
  {
    if schedule == [] {
    } else {
      var last := |schedule| - 1;
      ExecStep(s0, schedule);
      Reachable(s0, schedule[..last]);
      var s := Exec(s0, schedule[..last]).value;
      StepLockInv(s, schedule[last].0, schedule[last].1);
      StepDictInv(s, schedule[last].0, schedule[last].1);
    }
  }

  /** At most one thread per cache key is between opening and closing a queue. */
  lemma OneQueueOpenPerKey(s0: State, schedule: seq<(ThreadId, Choice)>, t: ThreadId, u: ThreadId)
    requires Typed(s0) && Initial(s0) && Exec(s0, schedule).Some?
    requires var s := Exec(s0, schedule).value;
      && t in s.threads && u in s.threads && s.threads[t].queueOpen && s.threads[u].queueOpen
      && s.threads[t].p in s.providers && s.threads[u].p in s.providers
      && s.providers[s.threads[t].p].key == s.providers[s.threads[u].p].key
    ensures t == u
  {
    Reachable(s0, schedule);
    var s := Exec(s0, schedule).value;
    assert Holds(s.threads[t], OpLock(s.threads[t].lk)) && Holds(s.threads[u], OpLock(s.threads[t].lk));
    assert Owns(s, t, OpLock(s.threads[t].lk)) && Owns(s, u, OpLock(s.threads[t].lk));
  }

  /** No thread dials, shares or waits to reconnect while it holds an operation lock. */
  lemma ReconnectsOutsideOperationLock(s0: State, schedule: seq<(ThreadId, Choice)>, t: ThreadId, id: LockId)
    requires Typed(s0) && Initial(s0) && Exec(s0, schedule).Some?
    requires var s := Exec(s0, schedule).value;
      t in s.threads && (s.threads[t].pc.ReconnectWait? || Reconnecting(s.threads[t].pc))
    ensures !Owns(Exec(s0, schedule).value, t, OpLock(id))
  {
    Reachable(s0, schedule);
    var s := Exec(s0, schedule).value;
    assert !Holds(s.threads[t], OpLock(id));
  }

  /** A thread in the middle of a call that can take a step right now. */
  ghost predicate CanStep(s: State, t: ThreadId)
    requires Typed(s)
  {
    t in s.threads && s.threads[t].pc != Idle && exists c :: Step(s, t, c).Some?
  }

  /** The lock a thread is waiting for at its program point. */
  function Wants(th: Thread): LockName {
    match th.pc
    case ReconnectWait => ReconnectLock(th.p)
    case CheckWait | AliveWait | GuardWait | DisconnectWait => ProviderLock(th.p)
    case LookupWait | EvictWait | Publish => CacheLock
    case DictWait => DictMutex
    case OpWait => OpLock(th.lk)
    case _ => NoLock
  }

  /** Program points where the driver decides; elsewhere there is just one way to go on. */
  function Pick(th: Thread): Choice {
    if th.pc.Dial? || th.pc.Open? || th.pc.Transfer? then Good else Go
  }

  lemma PickActs(th: Thread, v: Sight)
    requires th.pc != Idle && (th.pc.Publish? ==> th.cand.Some?)
    ensures Act(th, v, Pick(th)).Some? && Act(th, v, Pick(th)).value.take == Wants(th)
  {
  }

  lemma OnlyLocksBlock(s: State, t: ThreadId)
    requires Typed(s) && LockInv(s) && DictInv(s)
    requires t in s.threads && s.threads[t].pc != Idle && Wants(s.threads[t]) !in s.locks
    ensures CanStep(s, t)
  {
    var th := s.threads[t];
    PickActs(th, View(s, th.p));
    assert Step(s, t, Pick(th)).Some?;
  }

  /** Whoever holds a lock that is taken last in the lock order is not waiting for anything. */
  lemma LeafHolderSteps(s: State, n: LockName)
    requires Typed(s) && LockInv(s) && DictInv(s)
    requires n in s.locks && (n.ProviderLock? || n.CacheLock? || n.DictMutex?)
    ensures CanStep(s, s.locks[n])
  {
    var t := s.locks[n];
    assert Owns(s, t, n) && Holds(s.threads[t], n);
    assert Wants(s.threads[t]) == NoLock;
    OnlyLocksBlock(s, t);
  }

  /** The holder of a lock is a thread at a program point that holds it. */
  lemma Holder(s: State, n: LockName)
    requires LockInv(s) && n in s.locks
    ensures n != NoLock && s.locks[n] in s.threads && Holds(s.threads[s.locks[n]], n)
  {
    assert Owns(s, s.locks[n], n);
  }

  lemma SomeoneSteps(s: State, t: ThreadId)
    requires Typed(s) && LockInv(s) && DictInv(s)
    requires t in s.threads && s.threads[t].pc != Idle
    ensures exists u :: CanStep(s, u)
  {
    hide LockInv, DictInv;
    var n := Wants(s.threads[t]);
    if n !in s.locks {
      OnlyLocksBlock(s, t);
    } else if n.ProviderLock? || n.CacheLock? || n.DictMutex? {
      LeafHolderSteps(s, n);
    } else {
      var u := s.locks[n];
      Holder(s, n);
      var m := Wants(s.threads[u]);
      if m !in s.locks {
        OnlyLocksBlock(s, u);
      } else {
        Holder(s, m);
        LeafHolderSteps(s, m);
      }
    }
  }

  /** No deadlock: while some call is unfinished, some thread in a call can step. */
  lemma NoDeadlock(s0: State, schedule: seq<(ThreadId, Choice)>, t: ThreadId)
    requires Typed(s0) && Initial(s0) && Exec(s0, schedule).Some?
    requires var s := Exec(s0, schedule).value; t in s.threads && s.threads[t].pc != Idle
    ensures exists u :: CanStep(Exec(s0, schedule).value, u)
  {
    Reachable(s0, schedule);
    SomeoneSteps(Exec(s0, schedule).value, t);
  }
}
