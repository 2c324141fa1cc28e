/**
 The database connection pool: a semaphore counts permits outside the lock, two lists
 are changed under it.  The factory may hand out the same client again and again, so
 connections are counted as multisets.
 */
module DbPool {
  import opened Util

  type ThreadId = nat
  type Conn = nat

  datatype Config = Config(minSize: nat, maxSize: nat, validateOnBorrow: bool)

  // ----- what happens under the lock ---------------------------------------

  /** Whether the idle connection at position `i` can be lent: it is connected, or reconnects. */
  predicate Usable(cfg: Config, answers: seq<bool>, i: nat) {
    !cfg.validateOnBorrow || (i < |answers| && answers[i])
  }

  /** Pop idle connections from the end until one can be lent; the others are discarded. */
  function TakeIdle(cfg: Config, idle: seq<Conn>, answers: seq<bool>): (r: (seq<Conn>, Option<Conn>))
    ensures |r.0| <= |idle|
  {
    if idle == [] then ([], None)
    else
      var last := |idle| - 1;
      if Usable(cfg, answers, last) then (idle[..last], Some(idle[last])) else TakeIdle(cfg, idle[..last], answers)
  }

  /** Connections are validated, and this one is not connected and does not reconnect. */
  predicate Unusable(cfg: Config, answers: seq<bool>, i: nat) {
    cfg.validateOnBorrow && (i < |answers| ==> !answers[i])
  }

  /** The connection taken is the last one that is usable; all behind it are discarded, all in front of it stay idle. */
  lemma {:induction false} TakesLastUsable(cfg: Config, idle: seq<Conn>, answers: seq<bool>)
    ensures var (rest, found) := TakeIdle(cfg, idle, answers);
      && (found.None? ==> rest == [] && forall i: nat | i < |idle| :: Unusable(cfg, answers, i))
      && (found.Some? ==>
            var n := |rest|;
            && n < |idle| && rest == idle[..n] && found.value == idle[n]
            && (cfg.validateOnBorrow ==> n < |answers| && answers[n])
            && forall i: nat | n < i < |idle| :: Unusable(cfg, answers, i))
  {
    if idle == [] {
    } else {
      var last := |idle| - 1;
      if !Usable(cfg, answers, last) {
        TakesLastUsable(cfg, idle[..last], answers);
        var n := |TakeIdle(cfg, idle, answers).0|;
        assert TakeIdle(cfg, idle, answers).1.Some? ==> idle[..last][..n] == idle[..n];
      }
    }
  }

  /** `list.remove`: drop the first occurrence, if there is one. */
  function RemoveFirst(s: seq<Conn>, c: Conn): seq<Conn> {
    if s == [] then [] else if s[0] == c then s[1..] else [s[0]] + RemoveFirst(s[1..], c)
  }

  lemma {:induction false} RemoveFirstBag(s: seq<Conn>, c: Conn)
    ensures multiset(RemoveFirst(s, c)) == multiset(s) - multiset{c}
    ensures |RemoveFirst(s, c)| == if c in s then |s| - 1 else |s|
  {
    if s == [] {
    } else {
      assert s == [s[0]] + s[1..];
      if s[0] != c { RemoveFirstBag(s[1..], c); }
    }
  }

  class DBConnectionPool {
    const cfg: Config
    var available: seq<Conn>
    var inUse: seq<Conn>

    /** Warm up: one connection for each factory call that succeeds. */
    constructor (cfg: Config, made: seq<Option<Conn>>)
      requires |made| == cfg.minSize
      ensures this.cfg == cfg && inUse == [] && |available| <= cfg.minSize && available == Made(made)
    {
      this.cfg := cfg;
      inUse := [];
      new;
      available := [];
      for i := 0 to |made|
        invariant available == Made(made[..i]) && inUse == []
      {
        assert made[..i + 1][..i] == made[..i];
        if made[i].Some? {
          available := available + [made[i].value];
        }
      }
      assert made[..|made|] == made;
    }

    /** The body of `acquire` under the lock; None when no connection can be had. */
    method Borrow(answers: seq<bool>, made: Option<Conn>) returns (provider: Option<Conn>)
      modifies this
      ensures var (rest, found) := TakeIdle(cfg, old(available), answers);
        && available == rest
        && provider == (if found.Some? then found else made)
        && inUse == (if provider.Some? then old(inUse) + [provider.value] else old(inUse))
    {
      provider := None;
      while available != [] && provider.None?
        invariant inUse == old(inUse)
        invariant provider.None? ==> TakeIdle(cfg, available, answers) == TakeIdle(cfg, old(available), answers)
        invariant provider.Some? ==> TakeIdle(cfg, old(available), answers) == (available, provider)
        decreases |available|
      {
        var last := |available| - 1;
        var candidate := available[last];
        if Usable(cfg, answers, last) {
          provider := Some(candidate);
        }
        available := available[..last];
      }
      if provider.None? {
        provider := made;
      }
      if provider.Some? {
        inUse := inUse + [provider.value];
      }
    }

    /** The body of `release` under the lock. */
    method GiveBack(provider: Conn)
      modifies this
      ensures inUse == RemoveFirst(old(inUse), provider) && available == old(available) + [provider]
    {
      if provider in inUse {
        inUse := RemoveFirst(inUse, provider);
      } else {
        NothingToRemove(inUse, provider);
      }
      available := available + [provider];
    }
  }

  /** The connections whose creation succeeded, in order. */
  function Made(made: seq<Option<Conn>>): (r: seq<Conn>)
    ensures |r| <= |made| && ((forall i | 0 <= i < |made| :: made[i].Some?) ==> |r| == |made|)
    ensures forall c :: c in r <==> Some(c) in made
  {
    if made == [] then []
    else
      var last := |made| - 1;
      Made(made[..last]) + if made[last].Some? then [made[last].value] else []
  }

  lemma {:induction false} NothingToRemove(s: seq<Conn>, c: Conn)
    requires c !in s
    ensures RemoveFirst(s, c) == s
  {
    if s == [] {
    } else {
      NothingToRemove(s[1..], c);
    }
  }

  // ----- threads that execute database actions -----------------------------

  datatype Pc =
    | Idle
    | PermitWait            // in semaphore.acquire
    | BorrowWait            // has a permit, wants the lock
    | Borrowing             // has a permit and the lock
    | Using(c: Conn)        // between get_provider and release_provider
    | ReturnWait(c: Conn)   // in `finally`, wants the lock
    | Returning(c: Conn)    // has the lock
    | Owing                 // has given the connection back, not yet the permit

  datatype State = State(
    threads: map<ThreadId, Pc>,
    permits: nat,
    lock: Option<ThreadId>,
    available: seq<Conn>,
    inUse: seq<Conn>)

  datatype Choice =
    | Go
    | TimeOut                                          // the permit does not come in time
    | Verdict(answers: seq<bool>, made: Option<Conn>)  // what the driver and the factory say
    | Raise                                            // the database operation fails

  function To(s: State, t: ThreadId, pc: Pc): State {
    s.(threads := s.threads[t := pc])
  }

  /** One step of thread `t`, which runs `DBExecutor.execute` over and over. */
  function Step(cfg: Config, s: State, t: ThreadId, c: Choice): Option<State> {
    if t !in s.threads then None
    else match s.threads[t]
      case Idle => if c.Go? then Some(To(s, t, PermitWait)) else None
      case PermitWait =>
        if c.TimeOut? then Some(To(s, t, Idle))
        else if c.Go? && s.permits > 0 then Some(To(s, t, BorrowWait).(permits := s.permits - 1))
        else None
      case BorrowWait =>
        if c.Go? && s.lock.None? then Some(To(s, t, Borrowing).(lock := Some(t))) else None
      case Borrowing =>
        if !c.Verdict? then None else
        var (rest, found) := TakeIdle(cfg, s.available, c.answers);
        var provider := if found.Some? then found else c.made;
        if provider.None? then
          Some(To(s, t, Idle).(available := rest, permits := s.permits + 1, lock := None))
        else
          Some(To(s, t, Using(provider.value)).(available := rest, inUse := s.inUse + [provider.value], lock := None))
      case Using(k) => if c.Go? || c.Raise? then Some(To(s, t, ReturnWait(k))) else None
      case ReturnWait(k) =>
        if c.Go? && s.lock.None? then Some(To(s, t, Returning(k)).(lock := Some(t))) else None
      case Returning(k) =>
        if !c.Go? then None else
        Some(To(s, t, Owing).(inUse := RemoveFirst(s.inUse, k), available := s.available + [k], lock := None))
      case Owing => if c.Go? then Some(To(s, t, Idle).(permits := s.permits + 1)) else None
  }

  function Exec(cfg: Config, s: State, schedule: seq<(ThreadId, Choice)>): Option<State> {
    if schedule == [] then Some(s) else
    var last := |schedule| - 1;
    var before := Exec(cfg, s, schedule[..last]);
    if before.None? then None else Step(cfg, before.value, schedule[last].0, schedule[last].1)
  }

  /** A new pool, warmed up with at most `minSize` connections. */
  predicate Initial(cfg: Config, s: State) {
    && (forall t | t in s.threads :: s.threads[t] == Idle)
    && s.permits == cfg.maxSize && s.lock.None? && s.inUse == [] && |s.available| <= cfg.minSize
  }

  // ----- accounting --------------------------------------------------------

  /** Threads that hold a permit but no connection yet. */
  function Holding(s: State): set<ThreadId> {
    set t | t in s.threads && (s.threads[t].BorrowWait? || s.threads[t].Borrowing?)
  }

  /** Threads that have a connection. */
  function Borrowers(s: State): set<ThreadId> {
    set t | t in s.threads && Lent(s.threads[t]).Some?
  }

  /** Threads that have returned their connection but not their permit. */
  function Owers(s: State): set<ThreadId> {
    set t | t in s.threads && s.threads[t].Owing?
  }

  function Lent(pc: Pc): Option<Conn> {
    match pc case Using(c) => Some(c) case ReturnWait(c) => Some(c) case Returning(c) => Some(c) case _ => None
  }

  /** The connections of a set of borrowers, counted with multiplicity. */
  ghost function Bag(threads: map<ThreadId, Pc>, ts: set<ThreadId>): multiset<Conn>
    requires forall t | t in ts :: t in threads && Lent(threads[t]).Some?
  {
    if ts == {} then multiset{}
    else
      var t :| t in ts;
      multiset{Lent(threads[t]).value} + Bag(threads, ts - {t})
  }

  lemma {:induction false} BagTakeOut(threads: map<ThreadId, Pc>, ts: set<ThreadId>, u: ThreadId)
    requires (forall t | t in ts :: t in threads && Lent(threads[t]).Some?) && u in ts
    ensures Bag(threads, ts) == multiset{Lent(threads[u]).value} + Bag(threads, ts - {u})
    decreases ts
  {
    var t :| t in ts && Bag(threads, ts) == multiset{Lent(threads[t]).value} + Bag(threads, ts - {t});
    if t != u {
      BagTakeOut(threads, ts - {t}, u);
      BagTakeOut(threads, ts - {u}, t);
      assert ts - {t} - {u} == ts - {u} - {t};
    }
  }

  lemma {:induction false} BagFrame(threads: map<ThreadId, Pc>, threads': map<ThreadId, Pc>, ts: set<ThreadId>)
    requires forall t | t in ts ::
      t in threads && Lent(threads[t]).Some? && t in threads' && Lent(threads'[t]) == Lent(threads[t])
    ensures Bag(threads, ts) == Bag(threads', ts) && |Bag(threads, ts)| == |ts|
    decreases ts
  {
    if ts != {} {
      var t :| t in ts;
      BagTakeOut(threads, ts, t);
      BagTakeOut(threads', ts, t);
      BagFrame(threads, threads', ts - {t});
    }
  }

  /** The lock is held by the thread whose program point says so. */
  predicate LockHeld(s: State) {
    && (forall t | t in s.threads :: (s.lock == Some(t)) == (s.threads[t].Borrowing? || s.threads[t].Returning?))
    && (s.lock.Some? ==> s.lock.value in s.threads)
  }

  /** The pool's list of lent connections says what the threads have. */
  ghost predicate BagHeld(s: State) {
    multiset(s.inUse) == Bag(s.threads, Borrowers(s))
  }

  ghost predicate Counts(cfg: Config, s: State) {
    && s.permits + |Holding(s)| + |s.inUse| + |Owers(s)| == cfg.maxSize
    && |s.available| + |s.inUse| <= Max(cfg.minSize, cfg.maxSize)
  }

  ghost predicate Inv(cfg: Config, s: State) {
    LockHeld(s) && BagHeld(s) && Counts(cfg, s)
  }

  /** A step that lends nothing and takes nothing back. */
  lemma QuietBag(s: State, s': State, t: ThreadId)
    requires t in s.threads && t in s'.threads && s'.threads == s.threads[t := s'.threads[t]]
    requires Lent(s'.threads[t]) == Lent(s.threads[t])
    ensures Borrowers(s') == Borrowers(s) && Bag(s'.threads, Borrowers(s')) == Bag(s.threads, Borrowers(s))
  {
    assert Borrowers(s') == Borrowers(s);
    BagFrame(s.threads, s'.threads, Borrowers(s));
  }

  lemma LendBag(s: State, s': State, t: ThreadId, c: Conn)
    requires t in s.threads && s'.threads == s.threads[t := Using(c)] && Lent(s.threads[t]).None?
    ensures Bag(s'.threads, Borrowers(s')) == Bag(s.threads, Borrowers(s)) + multiset{c}
  {
    assert Borrowers(s') - {t} == Borrowers(s);
    BagTakeOut(s'.threads, Borrowers(s'), t);
    BagFrame(s.threads, s'.threads, Borrowers(s));
  }

  lemma TakeBackBag(s: State, s': State, t: ThreadId, c: Conn)
    requires t in s.threads && s'.threads == s.threads[t := Owing] && Lent(s.threads[t]) == Some(c)
    ensures Bag(s.threads, Borrowers(s)) == Bag(s'.threads, Borrowers(s')) + multiset{c}
  {
    assert Borrowers(s) - {t} == Borrowers(s');
    BagTakeOut(s.threads, Borrowers(s), t);
    BagFrame(s.threads, s'.threads, Borrowers(s'));
  }

  lemma SizeWithout(ts: set<ThreadId>, t: ThreadId)
    ensures |ts - {t}| == |ts| - if t in ts then 1 else 0
  {
    if t !in ts { assert ts - {t} == ts; }
  }

  /** How the three groups of threads change when `t` moves. */
  lemma Regroup(s: State, s': State, t: ThreadId)
    requires t in s.threads && t in s'.threads && s'.threads == s.threads[t := s'.threads[t]]
    ensures Holding(s') - {t} == Holding(s) - {t} && Owers(s') - {t} == Owers(s) - {t}
    ensures |Holding(s')| - (if t in Holding(s') then 1 else 0) == |Holding(s)| - (if t in Holding(s) then 1 else 0)
    ensures |Owers(s')| - (if t in Owers(s') then 1 else 0) == |Owers(s)| - (if t in Owers(s) then 1 else 0)
  {
    assert Holding(s') - {t} == Holding(s) - {t};
    assert Owers(s') - {t} == Owers(s) - {t};
    hide Holding, Owers;
    SizeWithout(Holding(s'), t);
    SizeWithout(Holding(s), t);
    SizeWithout(Owers(s'), t);
    SizeWithout(Owers(s), t);
  }

  /** A thread about to borrow has a permit of its own, so there is room for its connection. */
  lemma Spent(cfg: Config, s: State)
    requires Counts(cfg, s) && Holding(s) != {}
    ensures |s.inUse| + 1 <= cfg.maxSize
  {
    assert |Holding(s)| > 0;
  }

  lemma StepLock(cfg: Config, s: State, t: ThreadId, c: Choice)
    requires LockHeld(s) && Step(cfg, s, t, c).Some?
    ensures var s' := Step(cfg, s, t, c).value; LockHeld(s') && s'.threads == s.threads[t := s'.threads[t]]
  {
  }

  /** Which groups thread `t` is in before and after, and what becomes of the lists. */
  lemma LendFacts(cfg: Config, s: State, t: ThreadId, c: Choice)
    requires Step(cfg, s, t, c).Some? && s.threads[t].Borrowing? && Step(cfg, s, t, c).value.threads[t].Using?
    ensures var s' := Step(cfg, s, t, c).value;
      && s'.permits == s.permits && s'.inUse == s.inUse + [s'.threads[t].c]
      && (|s'.available| < |s.available| || s'.available == [])
      && t in Holding(s) && t !in Holding(s') && t !in Owers(s) && t !in Owers(s')
  {
  }

  lemma LendCounts(cfg: Config, s: State, s': State, t: ThreadId)
    requires Counts(cfg, s) && t in s.threads && t in s'.threads && s'.threads == s.threads[t := s'.threads[t]]
    requires s'.permits == s.permits && |s'.inUse| == |s.inUse| + 1
    requires |s'.available| < |s.available| || s'.available == []
    requires t in Holding(s) && t !in Holding(s') && t !in Owers(s) && t !in Owers(s')
    ensures Counts(cfg, s')
  {
    Spent(cfg, s);
    Regroup(s, s', t);
    hide Holding, Owers;
  }

  lemma LendInv(cfg: Config, s: State, t: ThreadId, c: Choice)
    requires Inv(cfg, s) && Step(cfg, s, t, c).Some? && s.threads[t].Borrowing?
      && Step(cfg, s, t, c).value.threads[t].Using?
    ensures Inv(cfg, Step(cfg, s, t, c).value)
  {
    var s' := Step(cfg, s, t, c).value;
    StepLock(cfg, s, t, c);
    LendFacts(cfg, s, t, c);
    LendCounts(cfg, s, s', t);
    hide LockHeld, Step, Counts, Borrowers, Bag;
    LendBag(s, s', t, s'.threads[t].c);
  }

  lemma RefuseInv(cfg: Config, s: State, t: ThreadId, c: Choice)
    requires Inv(cfg, s) && Step(cfg, s, t, c).Some? && s.threads[t].Borrowing?
      && Step(cfg, s, t, c).value.threads[t].Idle?
    ensures Inv(cfg, Step(cfg, s, t, c).value)
  {
    var s' := Step(cfg, s, t, c).value;
    StepLock(cfg, s, t, c);
    hide LockHeld;
    Regroup(s, s', t);
    QuietBag(s, s', t);
  }

  lemma GiveBackFacts(cfg: Config, s: State, t: ThreadId, c: Choice)
    requires Step(cfg, s, t, c).Some? && s.threads[t].Returning?
    ensures var s' := Step(cfg, s, t, c).value; var k := s.threads[t].c;
      && s'.permits == s.permits && s'.inUse == RemoveFirst(s.inUse, k) && s'.available == s.available + [k]
      && s'.threads == s.threads[t := Owing] && Lent(s.threads[t]) == Some(k)
      && t !in Holding(s) && t !in Holding(s') && t !in Owers(s) && t in Owers(s')
  {
  }

  lemma GiveBackInv(cfg: Config, s: State, t: ThreadId, c: Choice)
    requires Inv(cfg, s) && Step(cfg, s, t, c).Some? && s.threads[t].Returning?
    ensures Inv(cfg, Step(cfg, s, t, c).value)
  {
    var s' := Step(cfg, s, t, c).value;
    var k := s.threads[t].c;
    StepLock(cfg, s, t, c);
    GiveBackFacts(cfg, s, t, c);
    hide LockHeld, Step, Holding, Owers, Borrowers, Bag;
    Regroup(s, s', t);
    TakeBackBag(s, s', t, k);
    RemoveFirstBag(s.inUse, k);
    assert k in multiset(s.inUse);
  }

  /** Any other step leaves both lists alone, and moves permits and threads together. */
  lemma OtherFacts(cfg: Config, s: State, t: ThreadId, c: Choice)
    requires Step(cfg, s, t, c).Some? && !s.threads[t].Returning? && !s.threads[t].Borrowing?
    ensures var s' := Step(cfg, s, t, c).value;
      && s'.inUse == s.inUse && s'.available == s.available && Lent(s'.threads[t]) == Lent(s.threads[t])
      && s'.permits + (if t in Holding(s') then 1 else 0) + (if t in Owers(s') then 1 else 0) ==
         s.permits + (if t in Holding(s) then 1 else 0) + (if t in Owers(s) then 1 else 0)
  {
  }

  lemma OtherInv(cfg: Config, s: State, t: ThreadId, c: Choice)
    requires Inv(cfg, s) && Step(cfg, s, t, c).Some? && !s.threads[t].Returning? && !s.threads[t].Borrowing?
    ensures Inv(cfg, Step(cfg, s, t, c).value)
  {
    var s' := Step(cfg, s, t, c).value;
    StepLock(cfg, s, t, c);
    OtherFacts(cfg, s, t, c);
    hide LockHeld, Step, Holding, Owers, Borrowers, Bag;
    Regroup(s, s', t);
    QuietBag(s, s', t);
  }

  lemma StepInv(cfg: Config, s: State, t: ThreadId, c: Choice)
    requires Inv(cfg, s) && Step(cfg, s, t, c).Some?
    ensures Inv(cfg, Step(cfg, s, t, c).value)
  {
    match s.threads[t]
    case Borrowing =>
      if Step(cfg, s, t, c).value.threads[t].Using? { LendInv(cfg, s, t, c); } else { RefuseInv(cfg, s, t, c); }
    case Returning(k) => GiveBackInv(cfg, s, t, c);
    case _ => OtherInv(cfg, s, t, c);
  }

  lemma {:induction false} Reachable(cfg: Config, s0: State, schedule: seq<(ThreadId, Choice)>)
    requires Initial(cfg, s0) && Exec(cfg, s0, schedule).Some?
    ensures Inv(cfg, Exec(cfg, s0, schedule).value)
  {
    if schedule == [] {
      assert Borrowers(s0) == {} && Holding(s0) == {} && Owers(s0) == {};
    } else {
      var last := |schedule| - 1;
      Reachable(cfg, s0, schedule[..last]);
      StepInv(cfg, Exec(cfg, s0, schedule[..last]).value, schedule[last].0, schedule[last].1);
    }
  }

  /** Every permit is accounted for, and the pool never outgrows its bounds. */
  lemma PermitsConserved(cfg: Config, s0: State, schedule: seq<(ThreadId, Choice)>)
    requires Initial(cfg, s0) && Exec(cfg, s0, schedule).Some?
    ensures var s := Exec(cfg, s0, schedule).value;
      && s.permits + |s.inUse| + |Holding(s)| + |Owers(s)| == cfg.maxSize
      && |s.inUse| == |Borrowers(s)| <= cfg.maxSize
      && |s.available| + |s.inUse| <= Max(cfg.minSize, cfg.maxSize)
      && (forall t | t in Borrowers(s) :: Lent(s.threads[t]).value in s.inUse)
  {
    Reachable(cfg, s0, schedule);
    var s := Exec(cfg, s0, schedule).value;
    BagFrame(s.threads, s.threads, Borrowers(s));
    assert |multiset(s.inUse)| == |s.inUse|;
    forall t | t in Borrowers(s)
      ensures Lent(s.threads[t]).value in s.inUse
    {
      BagTakeOut(s.threads, Borrowers(s), t);
      assert Lent(s.threads[t]).value in multiset(s.inUse);
    }
  }

  /** When all calls have finished, normally or by exception, every permit is back. */
  lemma AllPermitsBack(cfg: Config, s0: State, schedule: seq<(ThreadId, Choice)>)
    requires Initial(cfg, s0) && Exec(cfg, s0, schedule).Some?
    requires var s := Exec(cfg, s0, schedule).value; forall t | t in s.threads :: s.threads[t] == Idle
    ensures var s := Exec(cfg, s0, schedule).value; s.permits == cfg.maxSize && s.inUse == [] && s.lock.None?
  {
    PermitsConserved(cfg, s0, schedule);
    Reachable(cfg, s0, schedule);
    var s := Exec(cfg, s0, schedule).value;
    assert Holding(s) == {} && Owers(s) == {} && Borrowers(s) == {};
  }

  /** While some call is unfinished, some thread in a call can go on without waiting for time to pass. */
  lemma NeverStuck(cfg: Config, s0: State, schedule: seq<(ThreadId, Choice)>, t: ThreadId)
    requires Initial(cfg, s0) && Exec(cfg, s0, schedule).Some? && cfg.maxSize > 0
    requires var s := Exec(cfg, s0, schedule).value; t in s.threads && s.threads[t] != Idle
    ensures var s := Exec(cfg, s0, schedule).value;
      exists u: ThreadId, c: Choice :: u in s.threads && s.threads[u] != Idle && !c.TimeOut? && Step(cfg, s, u, c).Some?
  {
    Reachable(cfg, s0, schedule);
    PermitsConserved(cfg, s0, schedule);
    var s := Exec(cfg, s0, schedule).value;
    var u := t;
    if s.lock.Some? {
      u := s.lock.value;
    } else if s.threads[t].PermitWait? && s.permits == 0 {
      if |Holding(s)| > 0 {
        u :| u in Holding(s);
      } else if |Borrowers(s)| > 0 {
        u :| u in Borrowers(s);
      } else {
        u :| u in Owers(s);
      }
    }
    var c: Choice := if s.threads[u].Borrowing? then Verdict([], None) else Go;
    assert Step(cfg, s, u, c).Some?;
  }

  // ----- one call, alone ---------------------------------------------------

  lemma Goes(cfg: Config, s: State, schedule: seq<(ThreadId, Choice)>, m: State, t: ThreadId, c: Choice)
    returns (longer: seq<(ThreadId, Choice)>)
    requires Exec(cfg, s, schedule) == Some(m)
    ensures longer == schedule + [(t, c)] && Exec(cfg, s, longer) == Step(cfg, m, t, c)
  {
    longer := schedule + [(t, c)];
    assert longer[..|longer| - 1] == schedule;
  }

  /** A call up to the lock. */
  lemma GetsLock(cfg: Config, s: State, t: ThreadId) returns (schedule: seq<(ThreadId, Choice)>)
    requires t in s.threads && s.threads[t] == Idle && s.permits > 0 && s.lock.None?
    ensures Exec(cfg, s, schedule) == Some(To(s, t, Borrowing).(permits := s.permits - 1, lock := Some(t)))
  {
    schedule := Goes(cfg, s, [], s, t, Go);
    var a := To(s, t, PermitWait);
    schedule := Goes(cfg, s, schedule, a, t, Go);
    var b := To(s, t, BorrowWait).(permits := s.permits - 1);
    assert a.threads[t := BorrowWait] == b.threads;
    schedule := Goes(cfg, s, schedule, b, t, Go);
    assert b.threads[t := Borrowing] == s.threads[t := Borrowing];
  }

  /** A call that has a connection brings it back, whether its operation fails or not. */
  lemma BringsBack(cfg: Config, s: State, schedule: seq<(ThreadId, Choice)>, m: State, t: ThreadId, c: Conn,
      end: Choice)
    returns (longer: seq<(ThreadId, Choice)>)
    requires Exec(cfg, s, schedule) == Some(m) && t in m.threads && m.threads[t] == Using(c) && m.lock.None?
    requires end == Go || end == Raise
    ensures Exec(cfg, s, longer) == Some(To(m, t, Idle).(permits := m.permits + 1, available := m.available + [c],
                                                         inUse := RemoveFirst(m.inUse, c)))
  {
    longer := Goes(cfg, s, schedule, m, t, end);
    var a := To(m, t, ReturnWait(c));
    longer := Goes(cfg, s, longer, a, t, Go);
    var b := To(m, t, Returning(c)).(lock := Some(t));
    assert a.threads[t := Returning(c)] == b.threads;
    longer := Goes(cfg, s, longer, b, t, Go);
    var d := To(m, t, Owing).(available := m.available + [c], inUse := RemoveFirst(m.inUse, c));
    assert b.threads[t := Owing] == d.threads;
    longer := Goes(cfg, s, longer, d, t, Go);
    assert d.threads[t := Idle] == m.threads[t := Idle];
  }

  lemma {:induction false} LastLent(s: seq<Conn>, c: Conn)
    requires c !in s
    ensures RemoveFirst(s + [c], c) == s
  {
    if s == [] {
    } else {
      assert (s + [c])[1..] == s[1..] + [c];
      LastLent(s[1..], c);
    }
  }

  lemma RunsAlone(cfg: Config, s: State, t: ThreadId, answers: seq<bool>, made: Option<Conn>, end: Choice)
    returns (schedule: seq<(ThreadId, Choice)>)
    requires t in s.threads && s.threads[t] == Idle && s.permits > 0 && s.lock.None? && (end == Go || end == Raise)
    requires forall c | Some(c) == made || c in s.available :: c !in s.inUse
    ensures var (rest, found) := TakeIdle(cfg, s.available, answers);
      var back := if found.Some? then [found.value] else if made.Some? then [made.value] else [];
      Exec(cfg, s, schedule) == Some(s.(available := rest + back))
  {
    schedule := GetsLock(cfg, s, t);
    var m := To(s, t, Borrowing).(permits := s.permits - 1, lock := Some(t));
    schedule := Goes(cfg, s, schedule, m, t, Verdict(answers, made));
    TakesLastUsable(cfg, s.available, answers);
    var (rest, found) := TakeIdle(cfg, s.available, answers);
    var provider := if found.Some? then found else made;
    hide TakeIdle, Unusable, Exec;
    assert s.threads[t := Idle] == s.threads;
    if provider.None? {
      assert m.threads[t := Idle] == s.threads;
      assert rest + [] == rest;
    } else {
      var c := provider.value;
      var u := To(s, t, Using(c)).(permits := s.permits - 1, available := rest, inUse := s.inUse + [c]);
      assert m.threads[t := Using(c)] == u.threads;
      schedule := BringsBack(cfg, s, schedule, u, t, c, end);
      LastLent(s.inUse, c);
      assert u.threads[t := Idle] == s.threads;
    }
  }

  /**
   What an undisturbed call leaves behind, whether its operation fails or not: the last usable
   connection is idle again, and those behind it are gone; without one, the one just made.
   */
  lemma ExecutesAlone(cfg: Config, s: State, t: ThreadId, answers: seq<bool>, made: Option<Conn>, end: Choice)
    returns (schedule: seq<(ThreadId, Choice)>)
    requires t in s.threads && s.threads[t] == Idle && s.permits > 0 && s.lock.None? && (end == Go || end == Raise)
    requires forall c | Some(c) == made || c in s.available :: c !in s.inUse
    ensures Exec(cfg, s, schedule).Some?
    ensures var s' := Exec(cfg, s, schedule).value;
      && s' == s.(available := s'.available)
      && ((forall i: nat | i < |s.available| :: Unusable(cfg, answers, i)) ==>
            s'.available == if made.Some? then [made.value] else [])
      && (forall n: nat | n < |s.available| && !Unusable(cfg, answers, n)
            && (forall i: nat | n < i < |s.available| :: Unusable(cfg, answers, i)) ::
            s'.available == s.available[..n + 1])
  {
    schedule := RunsAlone(cfg, s, t, answers, made, end);
    TakesLastUsable(cfg, s.available, answers);
    var (rest, found) := TakeIdle(cfg, s.available, answers);
    hide Exec, TakeIdle;
    if found.Some? {
      assert !Unusable(cfg, answers, |rest|);
      assert rest + [found.value] == s.available[..|rest| + 1];
    } else if made.Some? {
      assert rest + [made.value] == [made.value];
    }
  }

  /** A call that gets no permit in time changes nothing. */
  lemma TimesOut(cfg: Config, s: State, t: ThreadId)
    requires t in s.threads && s.threads[t] == Idle
    ensures Exec(cfg, s, [(t, Go), (t, TimeOut)]) == Some(s)
  {
    var none: seq<(ThreadId, Choice)> := [];
    var one := Goes(cfg, s, none, s, t, Go);
    var two := Goes(cfg, s, one, To(s, t, PermitWait), t, TimeOut);
    assert one == [(t, Go)];
    assert two == [(t, Go), (t, TimeOut)];
    assert s.threads[t := PermitWait][t := Idle] == s.threads;
    assert To(To(s, t, PermitWait), t, Idle) == s;
  }
}
