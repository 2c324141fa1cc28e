/**
 The connection protocol of the IBM MQ provider, as a transition system.

 Any number of threads run `connect`, `put_message`, `get_message` and
 `disconnect` on any number of providers.  Providers that target the same queue
 manager have the same cache key; they share the process-level handle cache and
 one operation lock per key.  Every lock of the source is a lock here: taking it
 and giving it back are separate steps.  The driver is a nondeterministic choice.

 A handle is one `QueueManager` object.  Publishing a handle at the end of
 `connect` is one step (module MqTorn shows what happens when it is not).
 */
module MqProtocol {
  import opened Util

  type ThreadId = nat
  type ProviderId = nat
  type Key = nat
  type Handle = nat
  type LockId = nat

  /** How often `connect` dials before it gives up. */
  const MAX_DIALS := 5

  datatype LockName =
    | NoLock
    | ProviderLock(p: ProviderId)    // IBMMQProvider._lock
    | ReconnectLock(p: ProviderId)   // IBMMQProvider._reconnect_lock
    | OpLock(id: LockId)             // a value of _hconn_operation_locks
    | CacheLock                      // _qm_connection_cache_lock
    | DictMutex                      // _hconn_operation_locks_mutex

  datatype Pc =
    | Idle
    // connect
    | ReconnectWait | CheckWait | Check | LookupWait | Lookup | Adopt | Dial | Publish
    // put_message and get_message
    | AliveWait | Alive | DictWait | Dict | Snapshot | OpWait | Open | Transfer | Close
    // _invalidate_connection
    | GuardWait | Guard | Mqdisc | EvictWait | Evict
    // disconnect
    | DisconnectWait | Disconnect

  datatype Call = Connecting | Putting | Getting | Disconnecting

  /** A thread's position and local variables. */
  datatype Thread = Thread(
    pc: Pc,
    call: Call,
    p: ProviderId,
    attempt: nat,              // put_message's loop variable
    lk: LockId,                // op_lock
    snap: Option<Handle>,      // qm_snapshot, passed on as stale_qm
    queueOpen: bool,           // queue is not None
    needReconnect: bool,
    cand: Option<Handle>,      // cached_qm or new_qm
    dials: nat,                // connect's loop variable
    taken: Option<Handle>,     // old_qm
    wasShared: bool)

  /** A provider's fields. */
  datatype Provider = Provider(key: Key, qm: Option<Handle>, connected: bool, shared: bool)

  datatype State = State(
    threads: map<ThreadId, Thread>,
    providers: map<ProviderId, Provider>,
    cache: map<Key, Handle>,             // _qm_connection_cache
    opLocks: map<Key, LockId>,           // _hconn_operation_locks
    nextLock: LockId,
    locks: map<LockName, ThreadId>,      // who holds which lock
    creator: map<Handle, ProviderId>,    // whose connect() published the handle
    nextHandle: Handle,
    log: seq<(Handle, ProviderId)>)      // every QueueManager.disconnect(), in order

  /** What happens next: a new call, the only next action, or the driver's verdict. */
  datatype Choice =
    | Begin(call: Call, p: ProviderId)
    | Go
    | Good     // the driver call succeeds
    | Lost     // it reports a lost connection or an invalid handle
    | Bad      // it fails in any other way

  // ----- what one thread does ----------------------------------------------

  datatype CacheWrite = Keep | Put(h: Handle) | Remove

  /** The effect of one step on the shared state. */
  datatype Effect = Effect(
    th: Thread,
    me: Provider,
    take: LockName,            // the step waits until this lock is free
    drop: LockName,
    drop2: LockName,
    cache: CacheWrite,         // on the provider's own key
    newLock: bool,             // enter a lock for the key in the dictionary
    newHandle: bool,           // the driver hands out a new handle
    disc: Option<Handle>)      // QueueManager.disconnect() on this handle

  predicate Drops(e: Effect, n: LockName) {
    n != NoLock && (e.drop == n || e.drop2 == n)
  }

  /** The part of the shared state a step looks at. */
  datatype Sight = Sight(me: Provider, cached: Option<Handle>, opLock: Option<LockId>, nextLock: LockId,
    nextHandle: Handle)

  function Quiet(th: Thread, v: Sight): Effect {
    Effect(th, v.me, NoLock, NoLock, NoLock, Keep, false, false, None)
  }

  function Taking(th: Thread, v: Sight, n: LockName): Effect {
    Quiet(th, v).(take := n)
  }

  /** Where `connect` goes back to: its caller may be put_message or get_message. */
  function AfterConnect(th: Thread, ok: bool): Thread {
    if ok && th.call == Putting then th.(pc := Snapshot, attempt := 1) else th.(pc := Idle)
  }

  /** The first half of `connect`: is there still a connection, or one to share? */
  function LookupAct(th: Thread, v: Sight, c: Choice): Option<Effect> {
    if c != Go then None
    else match th.pc
      case ReconnectWait => Some(Taking(th.(pc := CheckWait), v, ReconnectLock(th.p)))
      case CheckWait => Some(Taking(th.(pc := Check), v, ProviderLock(th.p)))
      case Check =>
        if v.me.connected && v.me.qm.Some? then
          Some(Quiet(AfterConnect(th, true), v).(drop := ProviderLock(th.p), drop2 := ReconnectLock(th.p)))
        else
          Some(Quiet(th.(pc := LookupWait), v).(drop := ProviderLock(th.p)))
      case LookupWait => Some(Taking(th.(pc := Lookup), v, CacheLock))
      case Lookup =>
        var pc := if v.cached.Some? then Adopt else Dial;
        Some(Quiet(th.(pc := pc, cand := v.cached, dials := 0), v).(drop := CacheLock))
      case _ => None
  }

  /** The second half of `connect`: share the cached handle, or dial and publish a new one. */
  function PublishAct(th: Thread, v: Sight, c: Choice): Option<Effect> {
    match th.pc
    case Adopt =>
      if c != Go then None else
      var me := v.me.(qm := th.cand, connected := true, shared := true);
      Some(Quiet(AfterConnect(th, true), v).(me := me, drop := ReconnectLock(th.p)))
    case Dial =>
      if c == Good then
        // connectTCPClient succeeded, or warned MQRC_ALREADY_CONNECTED: new_qm is usable
        Some(Quiet(th.(pc := Publish, cand := Some(v.nextHandle)), v).(newHandle := true))
      else if c == Bad then
        if th.dials + 1 < MAX_DIALS then Some(Quiet(th.(dials := th.dials + 1), v))
        else Some(Quiet(AfterConnect(th, false), v).(drop := ReconnectLock(th.p)))
      else None
    case Publish =>
      if c != Go || th.cand.None? then None else
      var me := v.me.(qm := th.cand, connected := true, shared := false);
      Some(Taking(AfterConnect(th, true), v, CacheLock).(
             me := me, drop := CacheLock, drop2 := ReconnectLock(th.p), cache := Put(th.cand.value)))
    case _ => None
  }

  /** A lost connection is invalidated and retried, except on put_message's second attempt. */
  function AfterFailure(th: Thread, v: Sight, c: Choice): Option<Effect> {
    if c == Lost && (th.call == Getting || th.attempt == 0) then
      Some(Quiet(th.(pc := GuardWait, needReconnect := true), v))
    else if c == Lost || c == Bad then
      Some(Quiet(th.(pc := Close), v))
    else None
  }

  function TransferAct(th: Thread, v: Sight, c: Choice): Option<Effect> {
    if th.pc == Open then
      if c == Good then Some(Quiet(th.(pc := Transfer, queueOpen := true), v)) else AfterFailure(th, v, c)
    else if th.pc == Transfer then
      if c == Good then Some(Quiet(th.(pc := Close), v)) else AfterFailure(th, v, c)
    else if c != Go then None
    else match th.pc
      case AliveWait => Some(Taking(th.(pc := Alive), v, ProviderLock(th.p)))
      case Alive =>
        var alive := v.me.connected && v.me.qm.Some?;
        Some(Quiet(th.(pc := if alive then DictWait else Idle), v).(drop := ProviderLock(th.p)))
      case DictWait => Some(Taking(th.(pc := Dict), v, DictMutex))
      case Dict =>
        var lk := if v.opLock.Some? then v.opLock.value else v.nextLock;
        Some(Quiet(th.(pc := Snapshot, lk := lk), v).(drop := DictMutex, newLock := v.opLock.None?))
      case Snapshot => Some(Quiet(th.(pc := OpWait, snap := v.me.qm, needReconnect := false), v))
      case OpWait => Some(Taking(th.(pc := Open), v, OpLock(th.lk)))
      case Close =>
        var pc := if th.needReconnect then ReconnectWait else Idle;
        Some(Quiet(th.(queueOpen := false, pc := pc), v).(drop := OpLock(th.lk)))
      case _ => None
  }

  function InvalidateAct(th: Thread, v: Sight, c: Choice): Option<Effect> {
    if c != Go then None
    else match th.pc
      case GuardWait => Some(Taking(th.(pc := Guard), v, ProviderLock(th.p)))
      case Guard =>
        if th.snap.Some? && v.me.qm != th.snap then
          Some(Quiet(th.(pc := Close), v).(drop := ProviderLock(th.p)))
        else
          var me := v.me.(qm := None, connected := false, shared := false);
          Some(Quiet(th.(pc := Mqdisc, taken := v.me.qm, wasShared := v.me.shared), v).(
                 me := me, drop := ProviderLock(th.p)))
      case Mqdisc =>
        if th.wasShared then Some(Quiet(th.(pc := Close), v))
        else Some(Quiet(th.(pc := EvictWait), v).(disc := th.taken))
      case EvictWait => Some(Taking(th.(pc := Evict), v, CacheLock))
      case Evict =>
        Some(Quiet(th.(pc := Close), v).(drop := CacheLock, cache := if v.cached == th.taken then Remove else Keep))
      case _ => None
  }

  function DisconnectAct(th: Thread, v: Sight, c: Choice): Option<Effect> {
    if c != Go then None
    else match th.pc
      case DisconnectWait => Some(Taking(th.(pc := Disconnect), v, ProviderLock(th.p)))
      case Disconnect =>
        var me := if v.me.qm.Some? then v.me.(qm := None, connected := false) else v.me;
        var disc := if v.me.shared then None else v.me.qm;
        Some(Quiet(th.(pc := Idle), v).(me := me, drop := ProviderLock(th.p), disc := disc))
      case _ => None
  }

  /** The effect of thread `th`'s next action under choice `c`, if there is one. */
  function Act(th: Thread, v: Sight, c: Choice): Option<Effect> {
    match th.pc
    case Idle => None
    case ReconnectWait | CheckWait | Check | LookupWait | Lookup => LookupAct(th, v, c)
    case Adopt | Dial | Publish => PublishAct(th, v, c)
    case AliveWait | Alive | DictWait | Dict | Snapshot | OpWait | Open | Transfer | Close => TransferAct(th, v, c)
    case GuardWait | Guard | Mqdisc | EvictWait | Evict => InvalidateAct(th, v, c)
    case DisconnectWait | Disconnect => DisconnectAct(th, v, c)
  }

  function NewCall(call: Call, p: ProviderId): Thread {
    var pc := match call
      case Connecting => ReconnectWait
      case Disconnecting => DisconnectWait
      case _ => AliveWait;
    Thread(pc, call, p, 0, 0, None, false, false, None, 0, None, false)
  }

  // ----- the transition system ---------------------------------------------

  predicate Typed(s: State) {
    && (forall t | t in s.threads :: s.threads[t].pc != Idle ==> s.threads[t].p in s.providers)
    && (forall h | h in s.creator :: s.creator[h] in s.providers)
  }

  function View(s: State, p: ProviderId): Sight
    requires p in s.providers
  {
    var k := s.providers[p].key;
    Sight(s.providers[p],
          if k in s.cache then Some(s.cache[k]) else None,
          if k in s.opLocks then Some(s.opLocks[k]) else None,
          s.nextLock, s.nextHandle)
  }

  function Relock(locks: map<LockName, ThreadId>, t: ThreadId, e: Effect): map<LockName, ThreadId> {
    var taken := if e.take != NoLock then locks[e.take := t] else locks;
    map n | n in taken && !Drops(e, n) :: taken[n]
  }

  function Apply(s: State, t: ThreadId, e: Effect): State {
    var p, k := e.th.p, e.me.key;
    State(
      s.threads[t := e.th],
      s.providers[p := e.me],
      match e.cache case Keep => s.cache case Put(h) => s.cache[k := h] case Remove => s.cache - {k},
      if e.newLock then s.opLocks[k := s.nextLock] else s.opLocks,
      if e.newLock then s.nextLock + 1 else s.nextLock,
      Relock(s.locks, t, e),
      if e.cache.Put? then s.creator[e.cache.h := p] else s.creator,
      if e.newHandle then s.nextHandle + 1 else s.nextHandle,
      if e.disc.Some? then s.log + [(e.disc.value, p)] else s.log)
  }

  /** The effect of thread `t`'s step in state `s`, or None if it cannot take one now. */
  function EffectOf(s: State, t: ThreadId, c: Choice): Option<Effect>
    requires Typed(s)
  {
    if t !in s.threads then None
    else if s.threads[t].pc == Idle then
      if c.Begin? && c.p in s.providers then Some(Quiet(NewCall(c.call, c.p), View(s, c.p))) else None
    else
      var e := Act(s.threads[t], View(s, s.threads[t].p), c);
      if e.Some? && e.value.take in s.locks then None else e
  }

  /** The next state when thread `t` steps under choice `c`. */
  function Step(s: State, t: ThreadId, c: Choice): Option<State>
    requires Typed(s)
  {
    var e := EffectOf(s, t, c);
    if e.None? then None else Some(Apply(s, t, e.value))
  }

  /** No thread has called anything, no provider is connected, no lock is held. */
  predicate Initial(s: State) {
    && (forall t | t in s.threads :: s.threads[t].pc == Idle && !s.threads[t].queueOpen)
    && (forall p | p in s.providers :: s.providers[p].qm.None? && !s.providers[p].connected && !s.providers[p].shared)
    && s.cache == map[] && s.opLocks == map[] && s.locks == map[] && s.creator == map[] && s.log == []
  }

  /** The state after a schedule of steps, or None if some step of it is not possible. */
  function Exec(s: State, schedule: seq<(ThreadId, Choice)>): (r: Option<State>)
    requires Typed(s)
    ensures r.Some? ==> Typed(r.value)
    decreases |schedule|, 1
  {
    if schedule == [] then Some(s) else ExecLast(s, schedule)
  }

  function ExecLast(s: State, schedule: seq<(ThreadId, Choice)>): (r: Option<State>)
    requires Typed(s) && schedule != []
    ensures r.Some? ==> Typed(r.value)
    decreases |schedule|, 0
  {
    var last := |schedule| - 1;
    var before := Exec(s, schedule[..last]);
    if before.None? then None
    else
      StepTyped(before.value, schedule[last].0, schedule[last].1);
      Step(before.value, schedule[last].0, schedule[last].1)
  }

  /** A run consists of a shorter run and one more step. */
  lemma ExecStep(s: State, schedule: seq<(ThreadId, Choice)>)
    requires Typed(s) && schedule != []
    ensures var last := |schedule| - 1; var before := Exec(s, schedule[..last]);
      Exec(s, schedule) == if before.None? then None else Step(before.value, schedule[last].0, schedule[last].1)
  {
    assert Exec(s, schedule) == ExecLast(s, schedule);
  }

  /** A thread stays with its provider, and a provider with its key. */
  predicate Stays(th: Thread, v: Sight, e: Effect) {
    e.th.p == th.p && e.me.key == v.me.key
  }

  lemma LookupStays(th: Thread, v: Sight, c: Choice)
    requires LookupAct(th, v, c).Some?
    ensures Stays(th, v, LookupAct(th, v, c).value)
  {
  }

  lemma TransferStays(th: Thread, v: Sight, c: Choice)
    requires TransferAct(th, v, c).Some?
    ensures Stays(th, v, TransferAct(th, v, c).value)
  {
  }

  lemma InvalidateStays(th: Thread, v: Sight, c: Choice)
    requires InvalidateAct(th, v, c).Some?
    ensures Stays(th, v, InvalidateAct(th, v, c).value)
  {
  }

  lemma ActStays(th: Thread, v: Sight, c: Choice)
    requires Act(th, v, c).Some?
    ensures Stays(th, v, Act(th, v, c).value)
  {
    match th.pc
    case ReconnectWait | CheckWait | Check | LookupWait | Lookup => LookupStays(th, v, c);
    case AliveWait | Alive | DictWait | Dict | Snapshot | OpWait | Open | Transfer | Close => TransferStays(th, v, c);
    case GuardWait | Guard | Mqdisc | EvictWait | Evict => InvalidateStays(th, v, c);
    case _ =>
  }

  lemma StepTyped(s: State, t: ThreadId, c: Choice)
    requires Typed(s)
    ensures Step(s, t, c).Some? ==> Typed(Step(s, t, c).value)
  {
    if Step(s, t, c).Some? && s.threads[t].pc != Idle {
      ActStays(s.threads[t], View(s, s.threads[t].p), c);
    }
  }
}
