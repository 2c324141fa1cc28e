/**
 What a step does to providers, cache, creators and log, without the program points that do
 nothing of the kind: eight kinds of steps.
 */
module MqSteps {
  import opened Util
  import opened MqProtocol

  predicate AfterCheck(pc: Pc) {
    pc.LookupWait? || pc.Lookup? || pc.Adopt? || pc.Dial? || pc.Publish?
  }

  predicate Publishing(pc: Pc) {
    pc.Adopt? || pc.Publish?
  }

  /** The thread has taken `h` from its provider as its own, and is about to disconnect it. */
  predicate Holding(th: Thread, h: Handle) {
    th.pc.Mqdisc? && th.taken == Some(h) && !th.wasShared
  }

  // ----- the kinds of steps ------------------------------------------------

  /** Thread `t` moves; locks and the operation-lock dictionary play no role here. */
  ghost predicate Moved(s: State, s': State, t: ThreadId) {
    && Typed(s) && Typed(s') && t in s.threads && t in s'.threads
    && s'.threads == s.threads[t := s'.threads[t]] && s'.threads[t].p == s.threads[t].p
    && s.threads[t].p in s.providers && s.threads[t].pc != Idle
  }

  predicate SameLedger(s: State, s': State) {
    s'.cache == s.cache && s'.creator == s.creator && s'.log == s.log
  }

  /** The thread moves, perhaps into a new call; no handle does. */
  ghost predicate Strolls(s: State, s': State, t: ThreadId) {
    && Typed(s) && Typed(s') && t in s.threads && t in s'.threads && s'.threads == s.threads[t := s'.threads[t]]
    && s'.providers == s.providers && SameLedger(s, s') && s'.nextHandle == s.nextHandle
    && var th, n := s.threads[t], s'.threads[t];
    && n.p in s.providers && !Publishing(th.pc) && !n.pc.Publish?
    && (th.pc != Idle ==> n.p == th.p)
    && (forall h :: !Holding(th, h) && !Holding(n, h))
    && var me := s.providers[n.p];
    && (n.pc.Adopt? ==> me.key in s.cache && n.cand == Some(s.cache[me.key]))
    && (AfterCheck(n.pc) ==> (AfterCheck(th.pc) && n.p == th.p) || !me.connected || me.qm.None?)
  }

  /** The driver hands the thread a new handle. */
  ghost predicate Dials(s: State, s': State, t: ThreadId) {
    && Moved(s, s', t) && SameLedger(s, s') && s'.providers == s.providers
    && s.threads[t].pc.Dial? && s'.threads[t].pc.Publish?
    && s'.threads[t].cand == Some(s.nextHandle) && s'.nextHandle == s.nextHandle + 1
  }

  /** The provider shares the cached handle. */
  ghost predicate Adopts(s: State, s': State, t: ThreadId) {
    && Moved(s, s', t) && SameLedger(s, s') && s'.nextHandle == s.nextHandle
    && s.threads[t].pc.Adopt? && (s'.threads[t].pc.Idle? || s'.threads[t].pc.Snapshot?)
    && s'.providers == s.providers[s.threads[t].p :=
         s.providers[s.threads[t].p].(qm := s.threads[t].cand, connected := true, shared := true)]
  }

  /** The provider and the cache get the new handle. */
  ghost predicate Publishes(s: State, s': State, t: ThreadId, h: Handle) {
    && Moved(s, s', t) && s'.log == s.log && s'.nextHandle == s.nextHandle
    && s.threads[t].pc.Publish? && s.threads[t].cand == Some(h)
    && (s'.threads[t].pc.Idle? || s'.threads[t].pc.Snapshot?)
    && var me := s.providers[s.threads[t].p];
    && s'.creator == s.creator[h := s.threads[t].p]
    && s'.providers == s.providers[s.threads[t].p := me.(qm := Some(h), connected := true, shared := false)]
    && s'.cache == s.cache[me.key := h]
  }

  /** The guard of an invalidation lets it pass: the provider gives up its handle. */
  ghost predicate GivesUp(s: State, s': State, t: ThreadId) {
    && Moved(s, s', t) && SameLedger(s, s') && s'.nextHandle == s.nextHandle
    && s.threads[t].pc.Guard? && s'.threads[t].pc.Mqdisc?
    && var me := s.providers[s.threads[t].p];
    && s'.providers == s.providers[s.threads[t].p := me.(qm := None, connected := false, shared := false)]
    && s'.threads[t].taken == me.qm && s'.threads[t].wasShared == me.shared
  }

  /** The handle that the thread has taken is disconnected. */
  ghost predicate Disposes(s: State, s': State, t: ThreadId, h: Handle) {
    && Moved(s, s', t) && Holding(s.threads[t], h) && s'.threads[t].pc.EvictWait?
    && s'.providers == s.providers && s'.cache == s.cache && s'.creator == s.creator && s'.nextHandle == s.nextHandle
    && s'.log == s.log + [(h, s.threads[t].p)]
  }

  /** The cache may lose an entry. */
  ghost predicate Evicts(s: State, s': State, t: ThreadId) {
    && Moved(s, s', t) && s.threads[t].pc.Evict? && s'.threads[t].pc.Close?
    && s'.providers == s.providers && s'.creator == s.creator && s'.nextHandle == s.nextHandle && s'.log == s.log
    && forall k | k in s'.cache :: k in s.cache && s'.cache[k] == s.cache[k]
  }

  /** disconnect(): the provider gives up its handle, and disconnects it if it is its own. */
  ghost predicate Quits(s: State, s': State, t: ThreadId) {
    && Moved(s, s', t) && s.threads[t].pc.Disconnect? && s'.threads[t].pc.Idle?
    && s'.cache == s.cache && s'.creator == s.creator && s'.nextHandle == s.nextHandle
    && var me := s.providers[s.threads[t].p];
    && me.qm.Some?
    && s'.providers == s.providers[s.threads[t].p := me.(qm := None, connected := false)]
    && s'.log == if me.shared then s.log else s.log + [(me.qm.value, s.threads[t].p)]
  }

  ghost predicate Ordinary(s: State, s': State, t: ThreadId) {
    || Strolls(s, s', t) || Dials(s, s', t) || GivesUp(s, s', t) || Evicts(s, s', t) || Quits(s, s', t)
    || (t in s.threads && s.threads[t].taken.Some? && Disposes(s, s', t, s.threads[t].taken.value))
  }

  // ----- effects -----------------------------------------------------------

  /** The effect of a step that moves no handle. */
  predicate Plain(th: Thread, v: Sight, e: Effect) {
    && e.me == v.me && e.cache.Keep? && !e.newHandle && e.disc.None?
    && !e.th.pc.Publish?
    && (e.th.pc.Adopt? ==> e.th.cand.Some? && e.th.cand == v.cached)
    && (e.th.pc.Mqdisc? ==> e.th.wasShared || e.th.taken.None?)
    && (AfterCheck(e.th.pc) ==> AfterCheck(th.pc) || !v.me.connected || v.me.qm.None?)
  }

  lemma LookupPlain(th: Thread, v: Sight, c: Choice)
    requires LookupAct(th, v, c).Some?
    ensures Plain(th, v, LookupAct(th, v, c).value)
  {
  }

  lemma TransferPlain(th: Thread, v: Sight, c: Choice)
    requires TransferAct(th, v, c).Some?
    ensures Plain(th, v, TransferAct(th, v, c).value)
  {
    match th.pc
    case AliveWait =>
    case Alive =>
    case DictWait =>
    case Dict =>
    case Snapshot =>
    case OpWait =>
    case Open =>
    case Transfer =>
    case Close =>
  }

  lemma PlainAct(th: Thread, v: Sight, c: Choice)
    requires Act(th, v, c).Some? && !Publishing(th.pc)
    requires !(th.pc.Dial? || th.pc.Guard? || th.pc.Mqdisc? || th.pc.Evict? || th.pc.Disconnect?)
    ensures Plain(th, v, Act(th, v, c).value)
  {
    match th.pc
    case ReconnectWait | CheckWait | Check | LookupWait | Lookup => LookupPlain(th, v, c);
    case AliveWait | Alive | DictWait | Dict | Snapshot | OpWait | Open | Transfer | Close => TransferPlain(th, v, c);
    case _ =>
  }

  /** The guard skips exactly when the provider has moved on from the stale handle. */
  predicate Skips(s: State, t: ThreadId)
    requires Typed(s) && t in s.threads && s.threads[t].pc != Idle
  {
    s.threads[t].snap.Some? && s.providers[s.threads[t].p].qm != s.threads[t].snap
  }

  // ----- what each step is -------------------------------------------------

  lemma PlainStrolls(s: State, t: ThreadId, c: Choice)
    requires Typed(s) && Step(s, t, c).Some? && !Publishing(s.threads[t].pc)
    requires var e := EffectOf(s, t, c).value;
      && e.th.p in s.providers && (s.threads[t].pc != Idle ==> e.th.p == s.threads[t].p)
      && Plain(s.threads[t], View(s, e.th.p), e)
    requires forall h :: !Holding(s.threads[t], h)
    ensures Strolls(s, Step(s, t, c).value, t)
  {
    StepTyped(s, t, c);
    hide EffectOf, Act, Relock;
  }

  lemma AdoptAdopts(s: State, t: ThreadId, c: Choice)
    requires Typed(s) && Step(s, t, c).Some? && s.threads[t].pc.Adopt?
    ensures Adopts(s, Step(s, t, c).value, t)
  {
    StepTyped(s, t, c);
    hide LookupAct, TransferAct, InvalidateAct, DisconnectAct, Relock;
  }

  lemma PublishPublishes(s: State, t: ThreadId, c: Choice)
    requires Typed(s) && Step(s, t, c).Some? && s.threads[t].pc.Publish?
    ensures s.threads[t].cand.Some? && Publishes(s, Step(s, t, c).value, t, s.threads[t].cand.value)
  {
    StepTyped(s, t, c);
    hide LookupAct, TransferAct, InvalidateAct, DisconnectAct, Relock;
  }

  lemma DialSucceeding(s: State, t: ThreadId, c: Choice)
    requires Typed(s) && Step(s, t, c).Some? && s.threads[t].pc.Dial? && c == Good
    ensures Dials(s, Step(s, t, c).value, t)
  {
    StepTyped(s, t, c);
    hide LookupAct, TransferAct, InvalidateAct, DisconnectAct, Relock;
  }

  lemma DialFailing(s: State, t: ThreadId, c: Choice)
    requires Typed(s) && Step(s, t, c).Some? && s.threads[t].pc.Dial? && c != Good
    ensures Strolls(s, Step(s, t, c).value, t)
  {
    hide LookupAct, TransferAct, InvalidateAct, DisconnectAct, Strolls;
    PlainStrolls(s, t, c);
  }

  lemma DialIsOrdinary(s: State, t: ThreadId, c: Choice)
    requires Typed(s) && Step(s, t, c).Some? && s.threads[t].pc.Dial?
    ensures var s' := Step(s, t, c).value; Dials(s, s', t) || Strolls(s, s', t)
  {
    hide Dials, Strolls;
    if c == Good {
      DialSucceeding(s, t, c);
    } else {
      DialFailing(s, t, c);
    }
  }

  lemma GuardSkipping(s: State, t: ThreadId, c: Choice)
    requires Typed(s) && Step(s, t, c).Some? && s.threads[t].pc.Guard? && Skips(s, t)
    ensures Strolls(s, Step(s, t, c).value, t)
  {
    hide LookupAct, TransferAct, PublishAct, DisconnectAct, Strolls;
    PlainStrolls(s, t, c);
  }

  lemma GuardPassing(s: State, t: ThreadId, c: Choice)
    requires Typed(s) && Step(s, t, c).Some? && s.threads[t].pc.Guard? && !Skips(s, t)
    ensures GivesUp(s, Step(s, t, c).value, t)
  {
    StepTyped(s, t, c);
    hide LookupAct, TransferAct, PublishAct, DisconnectAct, Relock;
  }

  lemma GuardIsOrdinary(s: State, t: ThreadId, c: Choice)
    requires Typed(s) && Step(s, t, c).Some? && s.threads[t].pc.Guard?
    ensures var s' := Step(s, t, c).value;
      if Skips(s, t) then Strolls(s, s', t) else GivesUp(s, s', t)
  {
    hide GivesUp, Strolls;
    if Skips(s, t) {
      GuardSkipping(s, t, c);
    } else {
      GuardPassing(s, t, c);
    }
  }

  lemma MqdiscIsOrdinary(s: State, t: ThreadId, c: Choice)
    requires Typed(s) && Step(s, t, c).Some? && s.threads[t].pc.Mqdisc?
    ensures var s' := Step(s, t, c).value;
      Strolls(s, s', t) || (s.threads[t].taken.Some? && Disposes(s, s', t, s.threads[t].taken.value))
  {
    StepTyped(s, t, c);
    hide LookupAct, TransferAct, PublishAct, DisconnectAct, Relock;
  }

  lemma EvictIsOrdinary(s: State, t: ThreadId, c: Choice)
    requires Typed(s) && Step(s, t, c).Some? && s.threads[t].pc.Evict?
    ensures Evicts(s, Step(s, t, c).value, t)
  {
    StepTyped(s, t, c);
    hide LookupAct, TransferAct, PublishAct, DisconnectAct, Relock;
  }

  lemma DisconnectIsOrdinary(s: State, t: ThreadId, c: Choice)
    requires Typed(s) && Step(s, t, c).Some? && s.threads[t].pc.Disconnect?
    ensures var s' := Step(s, t, c).value;
      if s.providers[s.threads[t].p].qm.Some? then Quits(s, s', t) else Strolls(s, s', t)
  {
    StepTyped(s, t, c);
    hide LookupAct, TransferAct, PublishAct, InvalidateAct, Relock;
  }

  lemma OtherIsOrdinary(s: State, t: ThreadId, c: Choice)
    requires Typed(s) && Step(s, t, c).Some? && !Publishing(s.threads[t].pc)
    requires var pc := s.threads[t].pc; !(pc.Dial? || pc.Guard? || pc.Mqdisc? || pc.Evict? || pc.Disconnect?)
    ensures Strolls(s, Step(s, t, c).value, t)
  {
    var th := s.threads[t];
    if th.pc != Idle {
      PlainAct(th, View(s, th.p), c);
      ActStays(th, View(s, th.p), c);
    }
    hide Act;
    PlainStrolls(s, t, c);
  }

  lemma StepIsOrdinary(s: State, t: ThreadId, c: Choice)
    requires Typed(s) && Step(s, t, c).Some? && !Publishing(s.threads[t].pc)
    ensures Ordinary(s, Step(s, t, c).value, t)
  {
    var pc := s.threads[t].pc;
    hide Step, Strolls, Dials, GivesUp, Disposes, Evicts, Quits;
    if pc.Dial? {
      DialIsOrdinary(s, t, c);
    } else if pc.Guard? {
      GuardIsOrdinary(s, t, c);
    } else if pc.Mqdisc? {
      MqdiscIsOrdinary(s, t, c);
    } else if pc.Evict? {
      EvictIsOrdinary(s, t, c);
    } else if pc.Disconnect? {
      DisconnectIsOrdinary(s, t, c);
    } else {
      OtherIsOrdinary(s, t, c);
    }
  }
}
