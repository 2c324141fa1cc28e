/**
 The JMS connection pool: a monitor around a list of idle wrappers and a set of lent
 ones, with expiry, test-on-borrow and reconnection with exponential backoff.
 */
module JmsPool {
  import opened Util

  type Client = nat

  datatype Config = Config(
    minIdle: nat,
    maxSize: nat,
    idleTimeoutMs: real,
    maxLifetimeMs: real,
    testOnBorrow: bool,
    autoReconnect: bool,
    reconnectAttempts: nat,
    reconnectDelayMs: real)

  // ----- the outside world -------------------------------------------------

  datatype Event =
    | Probed(c: Client, ok: bool)     // the validity test of a client
    | Made(r: Option<Client>)         // a call of the client factory
    | Slept(ms: real)
    | Closed(c: Client)

  /** Clients, factory and clock: they answer as they like, and the log remembers. */
  class World {
    ghost var log: seq<Event>
    ghost var clock: seq<real>   // every reading of the clock

    constructor ()
      ensures log == [] && clock == []
    {
      log, clock := [], [];
    }

    method Probe(c: Client) returns (ok: bool)
      modifies this`log
      ensures log == old(log) + [Probed(c, ok)]
    {
      ok := *;
      log := log + [Probed(c, ok)];
    }

    /** The factory may make a new client or return an old one, or fail. */
    method Make() returns (r: Option<Client>)
      modifies this`log
      ensures log == old(log) + [Made(r)]
    {
      r := *;
      log := log + [Made(r)];
    }

    method Sleep(ms: real)
      modifies this`log
      ensures log == old(log) + [Slept(ms)]
    {
      log := log + [Slept(ms)];
    }

    method Close(c: Client)
      modifies this`log
      ensures log == old(log) + [Closed(c)]
    {
      log := log + [Closed(c)];
    }

    method Now() returns (t: real)
      modifies this`clock
      ensures clock == old(clock) + [t]
    {
      t := *;
      clock := clock + [t];
    }
  }

  function Slumber(log: seq<Event>): real {
    if log == [] then 0.0
    else Slumber(log[..|log| - 1]) + match log[|log| - 1] case Slept(ms) => ms case _ => 0.0
  }

  lemma SlumberMore(log: seq<Event>, e: Event)
    ensures Slumber(log + [e]) == Slumber(log) + match e case Slept(ms) => ms case _ => 0.0
  {
    assert (log + [e])[..|log|] == log;
  }

  function Pow2(n: nat): nat { if n == 0 then 1 else 2 * Pow2(n - 1) }

  /** The pause before try number `attempt`; it doubles from one try to the next, and there is none before the first. */
  function Pause(delay: real, attempt: nat): seq<Event> {
    if attempt == 0 then [] else [Slept(delay * Pow2(attempt - 1) as real)]
  }

  /** `n` tries in vain. */
  function InVain(delay: real, n: nat): seq<Event> {
    if n == 0 then [] else InVain(delay, n - 1) + Pause(delay, n - 1) + [Made(None)]
  }

  lemma Doubled(delay: real, n: nat)
    requires n >= 2
    ensures delay * (Pow2(n - 2) - 1) as real + delay * Pow2(n - 2) as real == delay * (Pow2(n - 1) - 1) as real
  {
    var p := Pow2(n - 2) as real;
    assert (Pow2(n - 1) - 1) as real == (p - 1.0) + p;
    hide Pow2;
  }

  /** What the pauses of `n` tries add up to. */
  lemma {:induction false} BackoffTime(delay: real, n: nat)
    ensures Slumber(InVain(delay, n)) == if n == 0 then 0.0 else delay * (Pow2(n - 1) - 1) as real
  {
    if n == 0 {
    } else {
      BackoffTime(delay, n - 1);
      var before := InVain(delay, n - 1);
      SlumberMore(before + Pause(delay, n - 1), Made(None));
      if n == 1 {
        assert before + [] == before && Pow2(0) == 1;
      } else {
        SlumberMore(before, Slept(delay * Pow2(n - 2) as real));
        Doubled(delay, n);
        hide Pow2, Slumber;
      }
    }
  }

  /** Someone has just vouched for this client: the last thing that happened is a good test or its creation. */
  predicate Vouched(log: seq<Event>, c: Client) {
    log != [] && (log[|log| - 1] == Probed(c, true) || log[|log| - 1] == Made(Some(c)))
  }

  // ----- wrappers ----------------------------------------------------------

  class PooledConnection {
    var client: Client
    const creationTime: real
    var lastUsedTime: real
    var isValid: bool

    constructor (client: Client, creationTime: real)
      ensures this.client == client && this.creationTime == creationTime && lastUsedTime == creationTime && isValid
    {
      this.client := client;
      this.creationTime := creationTime;
      this.lastUsedTime := creationTime;
      this.isValid := true;
    }

    /** Expired, or idle for too long. */
    predicate Stale(cfg: Config, now: real)
      reads this
    {
      (now - creationTime) * 1000.0 >= cfg.maxLifetimeMs || (now - lastUsedTime) * 1000.0 >= cfg.idleTimeoutMs
    }
  }

  /** The clients that were made, in order. */
  function Successes(log: seq<Event>): seq<Client> {
    if log == [] then []
    else Successes(log[..|log| - 1])
         + match log[|log| - 1] case Made(Some(c)) => [c] case _ => []
  }

  lemma SuccessesMore(log: seq<Event>, e: Event)
    ensures Successes(log + [e]) == Successes(log) + match e case Made(Some(c)) => [c] case _ => []
  {
    assert (log + [e])[..|log|] == log;
  }

  predicate NoDuplicates<T(==)>(s: seq<T>) {
    forall i, j | 0 <= i < j < |s| :: s[i] != s[j]
  }

  function RemoveFirst<T(==)>(s: seq<T>, x: T): seq<T> {
    if s == [] then [] else if s[0] == x then s[1..] else [s[0]] + RemoveFirst(s[1..], x)
  }

  function RemoveEach<T(==)>(s: seq<T>, xs: seq<T>): seq<T>
    decreases |xs|
  {
    if xs == [] then s else RemoveEach(RemoveFirst(s, xs[0]), xs[1..])
  }

  function Fresh(cfg: Config, now: real, s: seq<PooledConnection>): (r: seq<PooledConnection>)
    reads s
    ensures (forall x | x in r :: x in s && !x.Stale(cfg, now)) && (forall x | x in s :: !x.Stale(cfg, now) ==> x in r)
  {
    if s == [] then [] else (if s[0].Stale(cfg, now) then [] else [s[0]]) + Fresh(cfg, now, s[1..])
  }

  function StaleOnes(cfg: Config, now: real, s: seq<PooledConnection>): (r: seq<PooledConnection>)
    reads s
    ensures (forall x | x in r :: x in s && x.Stale(cfg, now)) && (forall x | x in s :: x.Stale(cfg, now) ==> x in r)
  {
    if s == [] then [] else (if s[0].Stale(cfg, now) then [s[0]] else []) + StaleOnes(cfg, now, s[1..])
  }

  lemma {:induction false} RemoveEachSkips<T>(x: T, s: seq<T>, xs: seq<T>)
    requires x !in xs
    ensures RemoveEach([x] + s, xs) == [x] + RemoveEach(s, xs)
    decreases |xs|
  {
    if xs == [] {
    } else {
      assert RemoveFirst([x] + s, xs[0]) == [x] + RemoveFirst(s, xs[0]);
      RemoveEachSkips(x, RemoveFirst(s, xs[0]), xs[1..]);
    }
  }

  /** Removing the stale wrappers one by one leaves the others, in order. */
  lemma {:induction false} RemoveStale(cfg: Config, now: real, s: seq<PooledConnection>)
    ensures RemoveEach(s, StaleOnes(cfg, now, s)) == Fresh(cfg, now, s)
  {
    if s == [] {
    } else {
      RemoveStale(cfg, now, s[1..]);
      assert s == [s[0]] + s[1..];
      if s[0].Stale(cfg, now) {
        assert RemoveFirst(s, s[0]) == s[1..];
        assert StaleOnes(cfg, now, s)[1..] == StaleOnes(cfg, now, s[1..]);
      } else {
        assert StaleOnes(cfg, now, s) == StaleOnes(cfg, now, s[1..]);
        RemoveEachSkips(s[0], s[1..], StaleOnes(cfg, now, s[1..]));
      }
    }
  }

  lemma {:induction false} FreshNoDuplicates(cfg: Config, now: real, s: seq<PooledConnection>)
    requires NoDuplicates(s)
    ensures NoDuplicates(Fresh(cfg, now, s)) && |Fresh(cfg, now, s)| <= |s|
  {
    if s == [] {
    } else {
      assert NoDuplicates(s[1..]);
      FreshNoDuplicates(cfg, now, s[1..]);
      assert s[0] !in s[1..];
    }
  }

  function Clients(s: seq<PooledConnection>): (r: seq<Client>)
    reads s
    ensures |r| == |s| && forall i | 0 <= i < |s| :: r[i] == s[i].client
  {
    if s == [] then [] else [s[0].client] + Clients(s[1..])
  }

  /** These clients are closed, one after the other. */
  function Closings(clients: seq<Client>): seq<Event> {
    seq(|clients|, i requires 0 <= i < |clients| => Closed(clients[i]))
  }

  /** The list without these wrappers. */
  function Without<T(==)>(s: seq<T>, gone: set<T>): (r: seq<T>)
    ensures forall x | x in r :: x in s && x !in gone
  {
    if s == [] then [] else if s[0] in gone then Without(s[1..], gone) else [s[0]] + Without(s[1..], gone)
  }

  lemma {:induction false} WithoutConcat<T>(a: seq<T>, b: seq<T>, gone: set<T>)
    ensures Without(a + b, gone) == Without(a, gone) + Without(b, gone)
  {
    if a == [] {
      assert a + b == b;
    } else {
      assert (a + b)[0] == a[0] && (a + b)[1..] == a[1..] + b;
      WithoutConcat(a[1..], b, gone);
      ConcatAssociative([a[0]], Without(a[1..], gone), Without(b, gone));
    }
  }

  lemma {:induction false} WithoutTwice<T>(s: seq<T>, a: set<T>, b: set<T>)
    ensures Without(Without(s, a), b) == Without(s, a + b)
  {
    if s == [] {
    } else {
      WithoutTwice(s[1..], a, b);
      var rest := Without(s[1..], a);
      assert ([s[0]] + rest)[1..] == rest;
    }
  }

  lemma {:induction false} WithoutNone<T>(s: seq<T>, gone: set<T>)
    requires forall x | x in s :: x !in gone
    ensures Without(s, gone) == s
  {
    if s == [] {
    } else {
      WithoutNone(s[1..], gone);
    }
  }

  /** One more round: `gone` leaves the wrappers that were left. */
  lemma OneRound<T>(idle: seq<T>, stale: set<T>, refused: seq<T>, left: seq<T>, gone: set<T>)
    requires Without(idle, stale) == refused + left
    requires forall p | p in gone :: p in left && p !in refused
    ensures Without(idle, stale + gone) == refused + Without(left, gone)
  {
    WithoutTwice(idle, stale, gone);
    WithoutConcat(refused, left, gone);
    WithoutNone(refused, gone);
  }

  lemma StillInTail<T>(a: seq<T>, b: seq<T>, n: nat, x: T)
    requires a <= b && n <= |a| && x in a[n..]
    ensures x in b[n..]
  {
    assert a[n..] <= b[n..];
  }

  lemma {:induction false} FreshIsWithout(cfg: Config, now: real, s: seq<PooledConnection>, gone: set<PooledConnection>)
    requires forall p | p in s :: p in gone <==> p.Stale(cfg, now)
    ensures Fresh(cfg, now, s) == Without(s, gone)
  {
    if s == [] {
    } else {
      FreshIsWithout(cfg, now, s[1..], gone);
    }
  }

  // ----- the pool ----------------------------------------------------------

  class JMSConnectionPool {
    const cfg: Config
    const world: World
    var available: seq<PooledConnection>
    var inUse: set<PooledConnection>
    ghost var Repr: set<object>

    ghost predicate Shape()
      reads this, Repr
    {
      && this in Repr && world in Repr
      && (forall p | p in available :: p in Repr)
      && (forall p | p in inUse :: p in Repr)
    }

    /** The monitor invariant. */
    ghost predicate Valid()
      reads this, Repr
    {
      && Shape()
      && NoDuplicates(available)
      && (forall p | p in available :: p !in inUse && p.isValid)
      && |available| + |inUse| <= Max(cfg.minIdle, cfg.maxSize)
    }

    constructor (cfg: Config, world: World)
      modifies world
      ensures Valid() && fresh(Repr - {world}) && this.cfg == cfg && this.world == world && inUse == {}
      ensures old(world.log) <= world.log && |world.log| == |old(world.log)| + cfg.minIdle
      ensures forall e | e in world.log[|old(world.log)|..] :: e.Made?
      ensures Clients(available) == Successes(world.log[|old(world.log)|..])
    {
      this.cfg := cfg;
      this.world := world;
      available, inUse := [], {};
      Repr := {this, world};
      new;
      InitializeIdleConnections();
    }

    /** `_initialize_idle_connections`: one call of the factory for each; those that succeed become idle wrappers. */
    method InitializeIdleConnections()
      requires Valid() && available == [] && inUse == {} && world != this as object
      modifies this`available, this`Repr, world
      ensures Valid() && fresh(Repr - old(Repr)) && inUse == {}
      ensures old(world.log) <= world.log && |world.log| == |old(world.log)| + cfg.minIdle
      ensures forall e | e in world.log[|old(world.log)|..] :: e.Made?
      ensures Clients(available) == Successes(world.log[|old(world.log)|..])
    {
      ghost var began := |world.log|;
      for i := 0 to cfg.minIdle
        invariant Valid() && fresh(Repr - old(Repr)) && inUse == {} && |available| <= i
        invariant old(world.log) <= world.log && |world.log| == began + i
        invariant forall e | e in world.log[began..] :: e.Made?
        invariant Clients(available) == Successes(world.log[began..])
      {
        ghost var made := world.log[began..];
        var client := world.Make();
        assert world.log[began..] == made + [Made(client)];
        SuccessesMore(made, Made(client));
        if client.Some? {
          AddIdle(client.value);
        }
      }
    }

    method AddIdle(client: Client)
      requires Valid() && |available| + |inUse| < Max(cfg.minIdle, cfg.maxSize)
      modifies this`available, this`Repr, world`clock
      ensures Valid() && fresh(Repr - old(Repr)) && Repr >= old(Repr) && |available| == |old(available)| + 1
      ensures Clients(available) == old(Clients(available)) + [client]
    {
      var now := world.Now();
      var pooled := new PooledConnection(client, now);
      available := available + [pooled];
      Repr := Repr + {pooled};
    }

    /** `_cleanup_connections` at time `now` */
    method CleanupConnections(now: real)
      requires Valid()
      modifies this`available, world`log
      ensures Valid() && available == old(Fresh(cfg, now, available))
      ensures forall p | p in old(available) :: p in available <==>
        (now - p.creationTime) * 1000.0 < cfg.maxLifetimeMs && (now - p.lastUsedTime) * 1000.0 < cfg.idleTimeoutMs
      ensures world.log == old(world.log) + Closings(old(Clients(StaleOnes(cfg, now, available))))
    {
      var toRemove := StaleOnes(cfg, now, available);
      RemoveStale(cfg, now, available);
      FreshNoDuplicates(cfg, now, available);
      RemoveAndClose(toRemove);
    }

    /** The second loop of `_cleanup_connections` */
    method RemoveAndClose(toRemove: seq<PooledConnection>)
      modifies this`available, world`log
      ensures available == RemoveEach(old(available), toRemove)
      ensures world.log == old(world.log) + Closings(old(Clients(toRemove)))
    {
      ghost var clients := Clients(toRemove);
      for i := 0 to |toRemove|
        invariant RemoveEach(available, toRemove[i..]) == RemoveEach(old(available), toRemove)
        invariant world.log == old(world.log) + Closings(clients[..i])
      {
        available := RemoveFirst(available, toRemove[i]);
        world.Close(toRemove[i].client);
        assert Closings(clients[..i + 1]) == Closings(clients[..i]) + [Closed(clients[i])];
      }
      assert clients[..|toRemove|] == clients;
    }

    /** One try of `_reconnect`. */
    method Attempt(attempt: nat) returns (newClient: Option<Client>)
      modifies world`log
      ensures world.log == old(world.log) + Pause(cfg.reconnectDelayMs, attempt) + [Made(newClient)]
    {
      if attempt > 0 {
        world.Sleep(cfg.reconnectDelayMs * Pow2(attempt - 1) as real);
      }
      newClient := world.Make();
    }

    /** The tries of `_reconnect` on client `c`, of which number `k` succeeds with client `c'`. */
    ghost function Reconnection(c: Client, k: nat, c': Client): seq<Event> {
      [Closed(c)] + InVain(cfg.reconnectDelayMs, k) + Pause(cfg.reconnectDelayMs, k) + [Made(Some(c'))]
    }

    /** `_reconnect`: up to `reconnectAttempts` tries with exponential backoff. */
    method Reconnect(pooled: PooledConnection) returns (ok: bool)
      requires pooled != this as object && pooled != world as object
      modifies pooled, world`log
      ensures pooled.lastUsedTime == old(pooled.lastUsedTime)
      ensures !cfg.autoReconnect ==> !ok && world.log == old(world.log) && pooled.isValid == old(pooled.isValid)
      ensures !ok ==> pooled.client == old(pooled.client)
      ensures !ok && cfg.autoReconnect ==>
        !pooled.isValid && world.log == old(world.log) + [Closed(pooled.client)]
                                        + InVain(cfg.reconnectDelayMs, cfg.reconnectAttempts)
      ensures ok ==> pooled.isValid && exists k: nat | k < cfg.reconnectAttempts ::
        world.log == old(world.log) + Reconnection(old(pooled.client), k, pooled.client)
    {
      if !cfg.autoReconnect {
        return false;
      }
      world.Close(pooled.client);
      ghost var closed := world.log;
      for attempt := 0 to cfg.reconnectAttempts
        invariant pooled.client == old(pooled.client) && pooled.lastUsedTime == old(pooled.lastUsedTime)
        invariant world.log == closed + InVain(cfg.reconnectDelayMs, attempt)
      {
        var newClient := Attempt(attempt);
        if newClient.Some? {
          pooled.client := newClient.value;
          pooled.isValid := true;
          assert world.log == old(world.log) + Reconnection(old(pooled.client), attempt, pooled.client);
          return true;
        }
      }
      pooled.isValid := false;
      return false;
    }

    /** Since the log had `began` entries the wrapper's test has failed, and its reconnection if there was one. */
    ghost predicate Refused(p: PooledConnection, began: nat)
      reads this, world, p
    {
      && cfg.testOnBorrow && (cfg.autoReconnect ==> !p.isValid)
      && began <= |world.log| && Probed(p.client, false) in world.log[began..]
    }

    /** When the clock was read since `before`, one reading was `now`, and the wrapper was stale then. */
    ghost predicate FoundStale(p: PooledConnection, now: real, before: seq<real>)
      reads this, world, p
    {
      before <= world.clock && now in world.clock[|before|..] && p.Stale(cfg, now)
    }

    /** The clock was read last at time `t`. */
    ghost predicate LastRead(t: real)
      reads world
    {
      world.clock != [] && world.clock[|world.clock| - 1] == t
    }

    /** Since the log had `began` entries, the last thing that happened is that the factory failed. */
    ghost predicate MadeNone(began: nat)
      reads world
    {
      began < |world.log| && world.log[|world.log| - 1] == Made(None)
    }

    /**
     One pass of `get_connection`, from the top of its loop until it returns a wrapper or
     has to wait (null).  Of the idle wrappers the `stale` ones are dropped; of the others the
     first ones are `refused` and dropped, the next one is lent, and the rest stays, in order.
     What is lent or stays was not stale at time `last`.  If all are gone a new one is made,
     unless there is no room or the factory fails.
     */
    method TryGet()
      returns (r: PooledConnection?, ghost stale: map<PooledConnection, real>,
               ghost refused: seq<PooledConnection>, ghost last: real)
      requires Valid()
      modifies Repr
      ensures Valid() && fresh(Repr - old(Repr))
      ensures old(world.log) <= world.log && old(world.clock) <= world.clock
      ensures r != null ==> r.isValid && r !in old(inUse) && inUse == old(inUse) + {r} && LastRead(r.lastUsedTime)
      ensures r != null && cfg.testOnBorrow ==> Vouched(world.log, r.client)
      ensures r == null ==> inUse == old(inUse) && (|inUse| >= cfg.maxSize || MadeNone(|old(world.log)|))
      ensures r == null || r !in old(available) ==> available == []
      ensures r != null && r !in old(available) ==>
        fresh(r) && |old(inUse)| < cfg.maxSize && Vouched(world.log, r.client)
      ensures Without(old(available), stale.Keys)
        == refused + (if r != null && r in old(available) then [r] else []) + available
      ensures forall p | p in stale :: p in old(available) && p != r && FoundStale(p, stale[p], old(world.clock))
      ensures forall p | p in refused :: p in old(available) && p != r && Refused(p, |old(world.log)|)
      ensures last in world.clock[|old(world.clock)|..]
      ensures forall p | p in available :: !p.Stale(cfg, last)
      ensures r != null && r in old(available) ==> !old(r.Stale(cfg, last))
      ensures forall p | p in old(available) && p != r ::
        p.lastUsedTime == old(p.lastUsedTime) && p.client == old(p.client)
    {
      hide Without, Fresh, StaleOnes;
      r, stale, refused, last := FirstAdmitted();
      ghost var read := world.clock;
      if r != null {
        LendAdmitted(r, old(available), old(world.clock), |old(world.log)|, stale, refused);
      } else {
        r := CreateIfRoom(old(available), old(world.clock), |old(world.log)|, stale, refused);
      }
      StillInTail(read, world.clock, |old(world.clock)|, last);
    }

    /** The wrapper that was admitted is lent; nothing changes for the others. */
    method LendAdmitted(r: PooledConnection, ghost idle: seq<PooledConnection>, ghost start: seq<real>,
                        ghost began: nat, ghost stale: map<PooledConnection, real>,
                        ghost refused: seq<PooledConnection>)
      requires Valid() && History(idle, start, began, stale, refused, [r])
      requires r in Repr && r.isValid && r !in inUse && r !in available
      requires |available| + |inUse| < Max(cfg.minIdle, cfg.maxSize)
      modifies this`inUse, r`lastUsedTime, world`clock
      ensures Valid() && inUse == old(inUse) + {r} && world.clock == old(world.clock) + [r.lastUsedTime]
      ensures History(idle, start, began, stale, refused, [r])
    {
      Lend(r);
      forall p | p in stale
        ensures FoundStale(p, stale[p], start)
      {
        StillInTail(old(world.clock), world.clock, |start|, stale[p]);
      }
    }

    /** A new wrapper, if there is room for it. */
    method CreateIfRoom(ghost idle: seq<PooledConnection>, ghost start: seq<real>, ghost began: nat,
                        ghost stale: map<PooledConnection, real>, ghost refused: seq<PooledConnection>)
      returns (r: PooledConnection?)
      requires Valid() && available == [] && History(idle, start, began, stale, refused, [])
      modifies this`Repr, this`inUse, world
      ensures Valid() && fresh(Repr - old(Repr)) && Repr >= old(Repr)
      ensures old(world.log) <= world.log && old(world.clock) <= world.clock
      ensures r == null ==> inUse == old(inUse) && (|inUse| >= cfg.maxSize || MadeNone(|old(world.log)|))
      ensures r != null ==> fresh(r) && |old(inUse)| < cfg.maxSize && inUse == old(inUse) + {r} && r.isValid
      ensures r != null ==> Vouched(world.log, r.client) && LastRead(r.lastUsedTime)
      ensures History(idle, start, began, stale, refused, [])
    {
      r := null;
      if |inUse| + |available| < cfg.maxSize {
        r := Create();
      }
    }

    /** The rounds of one pass; null if no idle wrapper is left. */
    method FirstAdmitted()
      returns (r: PooledConnection?, ghost stale: map<PooledConnection, real>,
               ghost refused: seq<PooledConnection>, ghost last: real)
      requires Valid()
      modifies this`available, world, set p | p in available
      ensures Valid() && old(world.log) <= world.log
      ensures History(old(available), old(world.clock), |old(world.log)|, stale, refused, if r == null then [] else [r])
      ensures last in world.clock[|old(world.clock)|..] && forall p | p in available || p == r :: !p.Stale(cfg, last)
      ensures r == null ==> available == []
      ensures r != null ==>
        r.isValid && r !in inUse && r !in available && |available| + |inUse| < Max(cfg.minIdle, cfg.maxSize)
      ensures r != null && cfg.testOnBorrow ==> Vouched(world.log, r.client)
      ensures forall p | p in old(available) :: p.lastUsedTime == old(p.lastUsedTime)
      ensures forall p | p in old(available) && p != r :: p.client == old(p.client)
    {
      stale, refused, last := map[], [], 0.0;
      ghost var idle, start, began := available, world.clock, |world.log|;
      NoHistory();
      while true
        invariant Valid() && old(world.log) <= world.log && History(idle, start, began, stale, refused, [])
        invariant forall p | p in idle :: p.lastUsedTime == old(p.lastUsedTime) && p.client == old(p.client)
        decreases |available|
      {
        var more;
        r, more, stale, refused, last := Round(idle, start, began, stale, refused);
        if !more {
          break;
        }
      }
    }

    /** One round: the next idle wrapper, if it is admitted; otherwise it is refused, and there is more to do. */
    method Round(ghost idle: seq<PooledConnection>, ghost start: seq<real>, ghost began: nat,
                 ghost stale: map<PooledConnection, real>, ghost refused: seq<PooledConnection>)
      returns (r: PooledConnection?, more: bool, ghost stale': map<PooledConnection, real>,
               ghost refused': seq<PooledConnection>, ghost last: real)
      requires Valid() && History(idle, start, began, stale, refused, [])
      modifies this`available, world, set p | p in available
      ensures Valid() && old(world.log) <= world.log
      ensures more ==> r == null && History(idle, start, began, stale', refused', []) && |available| < |old(available)|
      ensures !more ==> History(idle, start, began, stale', refused', if r == null then [] else [r])
      ensures !more ==> last in world.clock[|start|..] && forall p | p in available || p == r :: !p.Stale(cfg, last)
      ensures !more && r == null ==> available == []
      ensures r != null ==>
        r.isValid && r !in inUse && r !in available && |available| + |inUse| < Max(cfg.minIdle, cfg.maxSize)
      ensures r != null && cfg.testOnBorrow ==> Vouched(world.log, r.client)
      ensures forall p | p in idle :: p.lastUsedTime == old(p.lastUsedTime)
      ensures forall p | p in idle && p != r :: p.client == old(p.client)
    {
      hide Without, Fresh, StaleOnes, InVain, Pause, Reconnection, Vouched;
      r, stale', last := NextIdle(idle, start, began, stale, refused);
      more, refused' := false, refused;
      if r != null {
        ghost var read := world.log;
        var good, tested := Admit(r);
        RefusedSince(r, |read|, began);
        forall p | p in refused
          ensures Refused(p, began)
        {
          StillInTail(read, world.log, began, Probed(p.client, false));
        }
        if !good {
          assert refused + [r] + [] == refused + [r];
          more, refused', r := true, refused + [r], null;
        }
      }
    }

    lemma RefusedSince(p: PooledConnection, n: nat, began: nat)
      requires began <= n
      ensures Refused(p, n) ==> Refused(p, began)
    {
      if Refused(p, n) {
        assert world.log[began..][n - began..] == world.log[n..];
      }
    }

    lemma NoHistory()
      ensures History(available, world.clock, |world.log|, map[], [], [])
    {
      var found: map<PooledConnection, real> := map[];
      WithoutNone(available, found.Keys);
      var none: seq<PooledConnection> := [];
      assert none + none + available == available;
    }

    /**
     What has become of the idle wrappers so far: some were found stale, some were refused,
     some are `taken`, the rest is still there, in order.
     */
    ghost predicate History(idle: seq<PooledConnection>, start: seq<real>, began: nat,
                            stale: map<PooledConnection, real>, refused: seq<PooledConnection>,
                            taken: seq<PooledConnection>)
      reads this, world, idle, stale.Keys, refused
    {
      && start <= world.clock && began <= |world.log|
      && Without(idle, stale.Keys) == refused + taken + available
      && (forall p | p in available :: p in idle && p !in refused && p !in stale)
      && (forall p | p in taken :: p in idle && p !in refused && p !in stale)
      && (forall p | p in stale :: p in idle && p !in refused && FoundStale(p, stale[p], start))
      && (forall p | p in refused :: p in idle && Refused(p, began))
    }

    /** The beginning of a round: drop the stale wrappers, and take the first of the others. */
    method NextIdle(ghost idle: seq<PooledConnection>, ghost start: seq<real>, ghost began: nat,
                    ghost stale: map<PooledConnection, real>, ghost refused: seq<PooledConnection>)
      returns (pooled: PooledConnection?, ghost stale': map<PooledConnection, real>, ghost now: real)
      requires Valid() && History(idle, start, began, stale, refused, [])
      modifies this`available, world
      ensures Valid() && old(world.log) <= world.log
      ensures History(idle, start, began, stale', refused, if pooled == null then [] else [pooled])
      ensures now in world.clock[|start|..] && forall p | p in available || p == pooled :: !p.Stale(cfg, now)
      ensures pooled == null ==> available == []
      ensures pooled != null ==> pooled in old(available) && pooled !in available && pooled !in inUse && pooled.isValid
      ensures pooled != null ==> |available| < |old(available)| && |available| + |inUse| < Max(cfg.minIdle, cfg.maxSize)
    {
      hide Without, Closings, Clients, Fresh, StaleOnes, NoDuplicates;
      ghost var left, read, gone := available, world.clock, {};
      pooled, gone, now := PopIdle();
      assert world.clock[|start|..] == read[|start|..] + [now];
      OneRound(idle, stale.Keys, refused, left, gone);
      stale' := map p | p in stale.Keys + gone :: if p in gone then now else stale[p];
      assert stale'.Keys == stale.Keys + gone;
      forall p | p in stale
        ensures p !in gone && FoundStale(p, stale[p], start)
      {
        StillInTail(read, world.clock, |start|, stale[p]);
      }
      forall p | p in refused
        ensures Refused(p, began)
      {
        StillInTail(old(world.log), world.log, began, Probed(p.client, false));
      }
    }

    /** Drop the stale wrappers and take the first one that is left, if there is one. */
    method PopIdle() returns (pooled: PooledConnection?, ghost gone: set<PooledConnection>, ghost now: real)
      requires Valid()
      modifies this`available, world
      ensures Valid()
      ensures world.clock == old(world.clock) + [now] && old(world.log) <= world.log
      ensures forall p | p in old(available) :: p in gone <==> p.Stale(cfg, now)
      ensures forall p | p in gone :: p in old(available)
      ensures Without(old(available), gone) == (if pooled == null then [] else [pooled]) + available
      ensures pooled == null ==> available == []
      ensures pooled != null ==> pooled in old(available) && pooled !in available && pooled !in inUse && pooled.isValid
      ensures pooled != null ==> |available| < |old(available)| && |available| + |inUse| < Max(cfg.minIdle, cfg.maxSize)
    {
      gone, now := DropStale();
      if available == [] {
        pooled := null;
      } else {
        pooled := available[0];
        available := available[1..];
      }
    }

    /** Drop the stale wrappers at the time it is now. */
    method DropStale() returns (ghost gone: set<PooledConnection>, ghost now: real)
      requires Valid()
      modifies this`available, world
      ensures Valid() && |available| <= |old(available)|
      ensures world.clock == old(world.clock) + [now] && old(world.log) <= world.log
      ensures forall p | p in old(available) :: p in gone <==> p.Stale(cfg, now)
      ensures forall p | p in gone :: p in old(available)
      ensures Without(old(available), gone) == available
    {
      var time := world.Now();
      now, gone := time, set p | p in available && p.Stale(cfg, time);
      FreshNoDuplicates(cfg, time, available);
      FreshIsWithout(cfg, time, available, gone);
      CleanupConnections(time);
    }

    /** Test a wrapper before lending it, and reconnect it if the test fails. */
    method Admit(pooled: PooledConnection) returns (good: bool, ghost tested: bool)
      requires pooled != this as object && pooled != world as object && pooled.isValid
      modifies pooled, world`log
      ensures old(world.log) <= world.log
      ensures good ==> pooled.isValid && (cfg.testOnBorrow ==> Vouched(world.log, pooled.client))
      ensures !good ==> Refused(pooled, |old(world.log)|) && pooled.client == old(pooled.client)
      ensures pooled.lastUsedTime == old(pooled.lastUsedTime) && world.clock == old(world.clock)
      ensures !cfg.testOnBorrow ==> good && world.log == old(world.log) && pooled.client == old(pooled.client)
      ensures cfg.testOnBorrow ==> var probed := old(world.log) + [Probed(old(pooled.client), tested)];
        && (tested ==> good && world.log == probed && pooled.client == old(pooled.client))
        && (!tested && !cfg.autoReconnect ==> !good && world.log == probed)
        && (!tested && cfg.autoReconnect && good ==>
              exists k: nat | k < cfg.reconnectAttempts ::
                world.log == probed + Reconnection(old(pooled.client), k, pooled.client))
        && (!tested && cfg.autoReconnect && !good ==>
              world.log == probed + [Closed(pooled.client)] + InVain(cfg.reconnectDelayMs, cfg.reconnectAttempts))
    {
      if cfg.testOnBorrow {
        var alive := world.Probe(pooled.client);
        tested := alive;
        if !alive {
          ghost var probed := world.log;
          good := Reconnect(pooled);
          assert probed <= world.log;
          assert world.log[|old(world.log)|..][0] == Probed(old(pooled.client), false);
          return;
        }
      }
      return true, true;
    }

    /** A new wrapper, lent at once; null if the factory fails. */
    method Create() returns (r: PooledConnection?)
      requires Valid() && |inUse| + |available| < cfg.maxSize
      modifies this`Repr, this`inUse, world
      ensures Valid() && fresh(Repr - old(Repr)) && Repr >= old(Repr)
      ensures r == null ==>
        inUse == old(inUse) && world.log == old(world.log) + [Made(None)] && world.clock == old(world.clock)
      ensures r != null ==> fresh(r) && inUse == old(inUse) + {r} && r.isValid
      ensures r != null ==> world.log == old(world.log) + [Made(Some(r.client))]
      ensures r != null ==> world.clock == old(world.clock) + [r.creationTime, r.lastUsedTime]
    {
      var client := world.Make();
      if client.None? {
        return null;
      }
      var now := world.Now();
      r := new PooledConnection(client.value, now);
      Repr := Repr + {r};
      Lend(r);
    }

    /** What comes back into the pool: valid wrappers, even ones that were never lent. */
    method ReturnConnection(pooled: PooledConnection)
      requires Shape() && pooled in Repr
      modifies this`available, this`inUse
      ensures Shape() && inUse == old(inUse) - {pooled}
      ensures available == if pooled.isValid then old(available) + [pooled] else old(available)
      ensures old(Valid()) && pooled in old(inUse) ==> Valid()
      ensures old(Valid()) && pooled !in old(inUse) ==>
        (Valid() <==>
          !pooled.isValid || (pooled !in old(available) && |available| + |inUse| <= Max(cfg.minIdle, cfg.maxSize)))
    {
      if pooled in inUse {
        inUse := inUse - {pooled};
      }
      if pooled.isValid {
        available := available + [pooled];
      }
      if pooled !in old(inUse) && pooled.isValid && pooled in old(available) {
        ghost var i :| 0 <= i < |old(available)| && old(available)[i] == pooled;
        assert available[i] == available[|available| - 1];
      }
    }

    /** Any number of other threads use the pool, giving back only what they were lent. */
    method OthersAct(steps: nat)
      requires Valid()
      modifies Repr
      ensures Valid() && fresh(Repr - old(Repr))
      ensures old(world.log) <= world.log && old(world.clock) <= world.clock
    {
      hide Without, Vouched, Refused, FoundStale, MadeNone, LastRead;
      for i := 0 to steps
        invariant Valid() && fresh(Repr - old(Repr))
        invariant old(world.log) <= world.log && old(world.clock) <= world.clock
      {
        if
        case true =>
          var r, _, _, _ := TryGet();
        case inUse != {} =>
          var pooled :| pooled in inUse;
          if * { pooled.isValid := false; }   // PooledConnection.invalidate by its borrower
          ReturnConnection(pooled);
        case inUse != {} =>
          var pooled :| pooled in inUse;
          pooled.isValid := false;
      }
    }

    /**
     `get_connection`: `others[i]` says how much the other threads do before the i-th
     notification; when the notifications are used up, the wait times out (null).  The first
     pass drops the `stale` and the `refused` wrappers, finds `first` and leaves `left`.
     */
    method GetConnection(others: seq<nat>)
      returns (r: PooledConnection?, ghost first: PooledConnection?, ghost stale: map<PooledConnection, real>,
               ghost refused: seq<PooledConnection>, ghost left: seq<PooledConnection>)
      requires Valid()
      modifies Repr
      ensures Valid() && fresh(Repr - old(Repr))
      ensures old(world.log) <= world.log && old(world.clock) <= world.clock
      ensures r != null ==> r in inUse && r !in available && r.isValid
      ensures r != null && cfg.testOnBorrow ==> Vouched(world.log, r.client)
      ensures r != null ==> LastRead(r.lastUsedTime)
      // a time-out: after the last pass, one more than there were notifications, nothing was left
      ensures r == null ==> available == [] && (|inUse| >= cfg.maxSize || MadeNone(|old(world.log)|))
      ensures r == null ==> |world.clock| >= |old(world.clock)| + |others| + 1
      // what the first pass finds is the result, and it finds nothing only for a reason
      ensures first != null ==> r == first && inUse == old(inUse) + {first}
      ensures Without(old(available), stale.Keys)
        == refused + (if first != null && first in old(available) then [first] else []) + left
      ensures forall p | p in stale :: p in old(available) && stale[p] in world.clock[|old(world.clock)|..]
      ensures forall p | p in stale :: old(p.Stale(cfg, stale[p]))
      ensures forall p | p in refused ::
        p in old(available) && cfg.testOnBorrow && Probed(old(p.client), false) in world.log[|old(world.log)|..]
      ensures first == null ==>
        left == [] && (|old(inUse)| >= cfg.maxSize || Made(None) in world.log[|old(world.log)|..])
      ensures first != null && first !in old(available) ==> left == [] && fresh(first) && |old(inUse)| < cfg.maxSize
    {
      hide Without, Vouched;
      ghost var last;
      r, stale, refused, last := TryGet();
      first, left := r, available;
      ghost var read, done := world.clock, world.log;
      if r == null {
        assert |inUse| < cfg.maxSize ==> done[|old(world.log)|..][|done| - |old(world.log)| - 1] == Made(None);
        r := WaitForOne(others, |old(world.log)|);
        if |old(inUse)| < cfg.maxSize {
          StillInTail(done, world.log, |old(world.log)|, Made(None));
        }
        forall p | p in stale
          ensures stale[p] in world.clock[|old(world.clock)|..]
        {
          StillInTail(read, world.clock, |old(world.clock)|, stale[p]);
        }
        forall p | p in refused
          ensures Probed(old(p.client), false) in world.log[|old(world.log)|..]
        {
          StillInTail(done, world.log, |old(world.log)|, Probed(old(p.client), false));
        }
      }
    }

    /** A pass after every notification, until one finds a wrapper. */
    method WaitForOne(others: seq<nat>, ghost began: nat) returns (r: PooledConnection?)
      requires Valid() && available == [] && began <= |world.log| && (|inUse| >= cfg.maxSize || MadeNone(began))
      modifies Repr
      ensures Valid() && fresh(Repr - old(Repr))
      ensures old(world.log) <= world.log && old(world.clock) <= world.clock
      ensures r != null ==> r in inUse && r !in available && r.isValid && LastRead(r.lastUsedTime)
      ensures r != null && cfg.testOnBorrow ==> Vouched(world.log, r.client)
      ensures r == null ==> available == [] && (|inUse| >= cfg.maxSize || MadeNone(began))
      ensures r == null ==> |world.clock| >= |old(world.clock)| + |others|
    {
      hide Without, Vouched, Refused, FoundStale;
      r := null;
      for i := 0 to |others|
        invariant Valid() && fresh(Repr - old(Repr)) && r == null
        invariant old(world.log) <= world.log && old(world.clock) <= world.clock
        invariant |world.clock| >= |old(world.clock)| + i
        invariant available == [] && (|inUse| >= cfg.maxSize || MadeNone(began))
      {
        OthersAct(others[i]);
        ghost var stale, refused, last;
        r, stale, refused, last := TryGet();
        if r != null {
          return;
        }
      }
    }

    /** `_in_use.add(pooled)` and `pooled.use()` */
    method Lend(pooled: PooledConnection)
      requires Shape() && pooled in Repr
      modifies this`inUse, pooled`lastUsedTime, world`clock
      ensures inUse == old(inUse) + {pooled} && world.clock == old(world.clock) + [pooled.lastUsedTime]
    {
      var now := world.Now();
      inUse := inUse + {pooled};
      pooled.lastUsedTime := now;
    }
  }
}
