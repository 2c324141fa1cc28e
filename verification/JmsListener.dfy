/**
 The JMS listener: a thread polls the subscribed queues in turn, skips the paused ones, takes
 a batch of at most five messages from each of the others and hands them on one by one.
 Meanwhile messages arrive, queues are paused and resumed, and the connection breaks.
 Starting the listener again adds a thread, even if the old one has not finished.
 */
module JmsListener {
  import opened Util

  type Queue = string
  type Message = nat

  const MAX_MESSAGES := 5

  // ----- one batch ---------------------------------------------------------

  /** What the driver does: as asked, report a lost connection or an invalid handle, or fail in another way. */
  datatype Verdict = Fine | Loses | Fails

  datatype Outcome = Delivered | NoMessage | ConnectionLost | OtherError

  class Broker {
    var queued: seq<Message>

    constructor (queued: seq<Message>)
      ensures this.queued == queued
    {
      this.queued := queued;
    }

    /** A get that is delivered takes the message off the queue; any other leaves it alone. */
    method Get(verdict: Verdict) returns (outcome: Outcome, m: Message)
      modifies this
      ensures verdict.Loses? ==> outcome.ConnectionLost? && queued == old(queued)
      ensures verdict.Fails? ==> outcome.OtherError? && queued == old(queued)
      ensures verdict.Fine? && old(queued) == [] ==> outcome.NoMessage? && queued == []
      ensures verdict.Fine? && old(queued) != [] ==> outcome.Delivered? && old(queued) == [m] + queued
    {
      m := 0;
      match verdict
      case Loses => outcome := ConnectionLost;
      case Fails => outcome := OtherError;
      case Fine =>
        if queued == [] {
          outcome := NoMessage;
        } else {
          outcome, m, queued := Delivered, queued[0], queued[1..];
        }
    }
  }

  /**
   `get_message`: opening the queue can fail, and then up to `maxMessages` gets.  What was
   taken before an error is returned, in order.  A lost connection asks for a reconnect; any
   other error ends the batch quietly, with messages left on the queue.
   */
  method GetMessage(broker: Broker, opening: Verdict, maxMessages: nat, verdicts: seq<Verdict>)
    returns (messages: seq<Message>, needReconnect: bool)
    requires |verdicts| == maxMessages
    modifies broker
    ensures old(broker.queued) == messages + broker.queued && |messages| <= maxMessages
    ensures !opening.Fine? ==> messages == [] && (needReconnect <==> opening.Loses?)
    ensures opening.Fine? ==> forall i | 0 <= i < |messages| :: verdicts[i].Fine?
    ensures opening.Fine? && |messages| == maxMessages ==> !needReconnect
    ensures opening.Fine? && |messages| < maxMessages ==>
      && (needReconnect <==> verdicts[|messages|].Loses?)
      && (verdicts[|messages|].Fine? ==> broker.queued == [])
  {
    messages, needReconnect := [], opening.Loses?;
    if !opening.Fine? {
      return;
    }
    for i := 0 to maxMessages
      invariant |messages| == i && !needReconnect && old(broker.queued) == messages + broker.queued
      invariant forall j | 0 <= j < i :: verdicts[j].Fine?
    {
      var outcome, m := broker.Get(verdicts[i]);
      match outcome
      case Delivered => messages := messages + [m];
      case NoMessage => return;
      case OtherError => return;
      case ConnectionLost =>
        needReconnect := true;
        return;
    }
  }

  // ----- the listener and its surroundings ---------------------------------

  /** Where a polling thread is. */
  datatype Pc =
    | Cycle                                                        // about to update the subscriptions
    | Polling(rest: seq<Queue>)                                    // about to look at the next queue
    | Getting(q: Queue, got: seq<Message>, rest: seq<Queue>)       // in get_message
    | Handing(q: Queue, batch: seq<Message>, rest: seq<Queue>)     // about to hand on the rest of a batch
    | Stopped

  datatype State = State(
    pollers: seq<Pc>,
    running: bool,
    paused: set<Queue>,
    broker: map<Queue, seq<Message>>,
    put: map<Queue, seq<Message>>,       // everything ever put, in order
    handed: map<Queue, seq<Message>>)    // everything handed to _process_message, in order

  datatype Action =
    | Put(q: Queue, m: Message)
    | Pause(q: Queue)
    | Resume(q: Queue)
    | Start
    | Stop                                // as far as the thread is concerned; `join` may give up waiting
    // polling thread number `i`
    | Update(i: nat, order: seq<Queue>)   // the queues of the current rules, in some order
    | Look(i: nat)                        // running? paused?
    | Get(i: nat)                         // one MQGET delivers
    | EndOfBatch(i: nat)                  // five messages, no more messages, or an error
    | Hand(i: nat)                        // _process_message, which never raises

  function Of(m: map<Queue, seq<Message>>, q: Queue): seq<Message> {
    if q in m then m[q] else []
  }

  function Goes(s: State, i: nat, pc: Pc): Option<State>
    requires i < |s.pollers|
  {
    Some(s.(pollers := s.pollers[i := pc]))
  }

  /** What polling thread `i` does. */
  function PollerStep(s: State, i: nat, a: Action): Option<State>
    requires i < |s.pollers|
  {
    var pc := s.pollers[i];
    match a
    case Update(_, order) =>
      if !pc.Cycle? then None
      else Goes(s, i, if s.running then Polling(order) else Stopped)
    case Look(_) =>
      if !pc.Polling? then None
      else if pc.rest == [] || !s.running then Goes(s, i, Cycle)
      else Goes(s, i, if pc.rest[0] in s.paused then Polling(pc.rest[1..]) else Getting(pc.rest[0], [], pc.rest[1..]))
    case Get(_) =>
      if !pc.Getting? || |pc.got| >= MAX_MESSAGES || Of(s.broker, pc.q) == [] then None
      else
        var queued := s.broker[pc.q];
        Some(s.(pollers := s.pollers[i := pc.(got := pc.got + [queued[0]])], broker := s.broker[pc.q := queued[1..]]))
    case EndOfBatch(_) =>
      if !pc.Getting? then None else Goes(s, i, Handing(pc.q, pc.got, pc.rest))
    case Hand(_) =>
      if !pc.Handing? then None
      else if pc.batch == [] then Goes(s, i, Polling(pc.rest))
      else Some(s.(pollers := s.pollers[i := pc.(batch := pc.batch[1..])],
                   handed := s.handed[pc.q := Of(s.handed, pc.q) + [pc.batch[0]]]))
    case _ => None
  }

  function Step(s: State, a: Action): Option<State> {
    match a
    case Put(q, m) => Some(s.(broker := s.broker[q := Of(s.broker, q) + [m]], put := s.put[q := Of(s.put, q) + [m]]))
    case Pause(q) => Some(s.(paused := s.paused + {q}))
    case Resume(q) => Some(s.(paused := s.paused - {q}))
    case Start => if s.running then Some(s) else Some(s.(running := true, pollers := s.pollers + [Cycle]))
    case Stop => Some(s.(running := false))
    case _ => if a.i < |s.pollers| then PollerStep(s, a.i, a) else None
  }

  function Exec(s: State, actions: seq<Action>): Option<State>
    decreases |actions|, 1
  {
    if actions == [] then Some(s) else ExecLast(s, actions)
  }

  function ExecLast(s: State, actions: seq<Action>): Option<State>
    requires actions != []
    decreases |actions|, 0
  {
    var before := Exec(s, actions[..|actions| - 1]);
    if before.None? then None else Step(before.value, actions[|actions| - 1])
  }

  /** A run consists of a shorter run and one more step. */
  lemma ExecStep(s: State, actions: seq<Action>)
    requires actions != []
    ensures var before := Exec(s, actions[..|actions| - 1]);
      Exec(s, actions) == if before.None? then None else Step(before.value, actions[|actions| - 1])
  {
    assert Exec(s, actions) == ExecLast(s, actions);
  }

  lemma Extend(s: State, actions: seq<Action>, m: State, a: Action) returns (longer: seq<Action>)
    requires Exec(s, actions) == Some(m)
    ensures longer == actions + [a] && Exec(s, longer) == Step(m, a)
  {
    longer := actions + [a];
    assert longer[..|longer| - 1] == actions;
    ExecStep(s, longer);
  }

  lemma {:induction false} ExecAppend(s: State, a: seq<Action>, m: State, b: seq<Action>)
    requires Exec(s, a) == Some(m)
    ensures Exec(s, a + b) == Exec(m, b)
  {
    if b == [] {
      assert a + b == a;
    } else {
      var last := |b| - 1;
      ExecAppend(s, a, m, b[..last]);
      assert (a + b)[..|a + b| - 1] == a + b[..last];
      ExecStep(s, a + b);
      ExecStep(m, b);
    }
  }

  /** The listener has not been started, and nothing has been handed on. */
  predicate Initial(s: State) {
    s.pollers == [] && !s.running && s.broker == s.put && s.handed == map[]
  }

  // ----- no message is lost or handled twice -------------------------------

  /** Messages of `q` that a thread has taken but not handed on. */
  function Carried(pc: Pc, q: Queue): seq<Message> {
    match pc
    case Getting(p, got, _) => if p == q then got else []
    case Handing(p, batch, _) => if p == q then batch else []
    case _ => []
  }

  /** How many messages of `q` the batch under way may still take. */
  function Room(pc: Pc, q: Queue): nat {
    if pc.Getting? && pc.q == q && |pc.got| <= MAX_MESSAGES then MAX_MESSAGES - |pc.got| else 0
  }

  /** The messages of `q` in flight, whatever thread carries them. */
  function Bag(pollers: seq<Pc>, q: Queue): multiset<Message> {
    if pollers == [] then multiset{} else multiset(Carried(pollers[0], q)) + Bag(pollers[1..], q)
  }

  /** How many they are, and how many more the batches under way may take. */
  function Load(pollers: seq<Pc>, q: Queue): nat {
    if pollers == [] then 0 else |Carried(pollers[0], q)| + Load(pollers[1..], q)
  }

  function Rooms(pollers: seq<Pc>, q: Queue): nat {
    if pollers == [] then 0 else Room(pollers[0], q) + Rooms(pollers[1..], q)
  }

  /** One thread moves. */
  lemma {:induction false} MovedBag(ps: seq<Pc>, i: nat, pc: Pc, q: Queue)
    requires i < |ps|
    ensures Bag(ps[i := pc], q) + multiset(Carried(ps[i], q)) == Bag(ps, q) + multiset(Carried(pc, q))
  {
    hide Carried;
    var ps' := ps[i := pc];
    var rest, head := Bag(ps[1..], q), multiset(Carried(ps[0], q));
    assert Bag(ps, q) == head + rest;
    if i == 0 {
      assert ps'[1..] == ps[1..];
      assert Bag(ps', q) == multiset(Carried(pc, q)) + rest;
      Swap(multiset(Carried(pc, q)), head, rest);
    } else {
      assert ps'[1..] == ps[1..][i - 1 := pc];
      MovedBag(ps[1..], i - 1, pc, q);
      assert ps[1..][i - 1] == ps[i];
      Behind(head, Bag(ps'[1..], q), multiset(Carried(ps[i], q)), rest, multiset(Carried(pc, q)));
    }
  }

  lemma Behind(h: multiset<Message>, a: multiset<Message>, x: multiset<Message>, b: multiset<Message>,
      y: multiset<Message>)
    requires a + x == b + y
    ensures (h + a) + x == (h + b) + y
  {
    forall z
      ensures ((h + a) + x)[z] == ((h + b) + y)[z]
    {
      assert (a + x)[z] == (b + y)[z];
    }
  }

  lemma Swap(a: multiset<Message>, b: multiset<Message>, c: multiset<Message>)
    ensures (a + c) + b == (b + c) + a
  {
  }

  lemma {:induction false} MovedLoad(ps: seq<Pc>, i: nat, pc: Pc, q: Queue)
    requires i < |ps|
    ensures Load(ps[i := pc], q) + |Carried(ps[i], q)| == Load(ps, q) + |Carried(pc, q)|
    ensures Rooms(ps[i := pc], q) + Room(ps[i], q) == Rooms(ps, q) + Room(pc, q)
  {
    var ps' := ps[i := pc];
    if i == 0 {
      assert ps'[1..] == ps[1..];
    } else {
      assert ps'[1..] == ps[1..][i - 1 := pc];
      MovedLoad(ps[1..], i - 1, pc, q);
    }
  }

  lemma {:induction false} OneMore(ps: seq<Pc>, q: Queue)
    ensures Bag(ps + [Cycle], q) == Bag(ps, q)
    ensures Load(ps + [Cycle], q) == Load(ps, q) && Rooms(ps + [Cycle], q) == Rooms(ps, q)
  {
    if ps == [] {
      assert ps + [Cycle] == [Cycle] && [Cycle][1..] == [];
    } else {
      OneMore(ps[1..], q);
      assert (ps + [Cycle])[1..] == ps[1..] + [Cycle];
    }
  }

  // ----- the three things a thread's step can do ----------------------------

  /** Thread `i` moves, and the state changes in no other way than the given map. */
  predicate Shifts(s: State, s': State, i: nat) {
    && i < |s.pollers| && |s'.pollers| == |s.pollers| && s' == s.(pollers := s.pollers[i := s'.pollers[i]])
    && !s.pollers[i].Stopped?
  }

  /** It carries the same messages as before, and takes on a batch only of a queue that is not paused. */
  predicate SameLoad(s: State, s': State, i: nat, q: Queue)
    requires i < |s.pollers| && i < |s'.pollers|
  {
    && Carried(s'.pollers[i], q) == Carried(s.pollers[i], q)
    && (q in s.paused ==> Room(s'.pollers[i], q) <= Room(s.pollers[i], q))
  }

  /** It takes the first message of a queue. */
  predicate Takes(s: State, s': State, i: nat) {
    && i < |s.pollers| && s.pollers[i].Getting? && |s.pollers[i].got| < MAX_MESSAGES
    && Of(s.broker, s.pollers[i].q) != []
    && var pc := s.pollers[i];
    && var queued := Of(s.broker, pc.q);
    s' == s.(pollers := s.pollers[i := Getting(pc.q, pc.got + [queued[0]], pc.rest)],
             broker := s.broker[pc.q := queued[1..]])
  }

  /** It hands on the first message of its batch. */
  predicate Hands(s: State, s': State, i: nat) {
    && i < |s.pollers| && s.pollers[i].Handing? && s.pollers[i].batch != []
    && var pc := s.pollers[i];
    s' == s.(pollers := s.pollers[i := Handing(pc.q, pc.batch[1..], pc.rest)],
             handed := s.handed[pc.q := Of(s.handed, pc.q) + [pc.batch[0]]])
  }

  lemma PollerMoves(s: State, i: nat, a: Action, q: Queue)
    requires i < |s.pollers| && PollerStep(s, i, a).Some?
    ensures var s' := PollerStep(s, i, a).value;
      (Shifts(s, s', i) && SameLoad(s, s', i, q)) || Takes(s, s', i) || Hands(s, s', i)
  {
  }

  /** What any action can do. */
  predicate PollerAction(a: Action) {
    a.Update? || a.Look? || a.Get? || a.EndOfBatch? || a.Hand?
  }

  // ----- conservation ------------------------------------------------------

  /** Everything ever put is handed on, in flight or on the broker, each message once. */
  ghost predicate Conserved(s: State, q: Queue) {
    multiset(Of(s.handed, q)) + Bag(s.pollers, q) + multiset(Of(s.broker, q)) == multiset(Of(s.put, q))
  }

  /** A message leaves one bag for another. */
  lemma Handover(a: multiset<Message>, b: multiset<Message>, b': multiset<Message>, c: multiset<Message>,
                 carried: multiset<Message>, x: Message)
    requires b' + carried == b + (carried + multiset{x})
    ensures b' == b + multiset{x}
    ensures a + b + (multiset{x} + c) == a + b' + c
  {
    forall y
      ensures b'[y] == (b + multiset{x})[y]
    {
      assert (b' + carried)[y] == (b + (carried + multiset{x}))[y];
    }
  }

  lemma Unchanged(b: multiset<Message>, b': multiset<Message>, carried: multiset<Message>)
    requires b' + carried == b + carried
    ensures b' == b
  {
    forall y
      ensures b'[y] == b[y]
    {
      assert (b' + carried)[y] == (b + carried)[y];
    }
  }

  lemma HeadOff(b: seq<Message>)
    requires b != []
    ensures multiset(b) == multiset{b[0]} + multiset(b[1..])
  {
    assert b == [b[0]] + b[1..];
  }

  lemma TakingConserves(s: State, s': State, i: nat, q: Queue)
    requires Conserved(s, q) && Takes(s, s', i)
    ensures Conserved(s', q)
  {
    hide Bag;
    var pc, queued := s.pollers[i], Of(s.broker, s.pollers[i].q);
    MovedBag(s.pollers, i, s'.pollers[i], q);
    if pc.q == q {
      HeadOff(queued);
      assert multiset(pc.got + [queued[0]]) == multiset(pc.got) + multiset{queued[0]};
      Handover(multiset(Of(s.handed, q)), Bag(s.pollers, q), Bag(s'.pollers, q), multiset(queued[1..]),
        multiset(pc.got), queued[0]);
    } else {
      Unchanged(Bag(s.pollers, q), Bag(s'.pollers, q), multiset{});
    }
  }

  lemma HandingConserves(s: State, s': State, i: nat, q: Queue)
    requires Conserved(s, q) && Hands(s, s', i)
    ensures Conserved(s', q)
  {
    hide Bag;
    MovedBag(s.pollers, i, s'.pollers[i], q);
    if s.pollers[i].q == q {
      HandingOne(s, s', i, q);
    } else {
      Unchanged(Bag(s.pollers, q), Bag(s'.pollers, q), multiset{});
    }
  }

  lemma HandingOne(s: State, s': State, i: nat, q: Queue)
    requires Conserved(s, q) && Hands(s, s', i) && s.pollers[i].q == q
    ensures Conserved(s', q)
  {
    hide Bag, Conserved;
    var pc := s.pollers[i];
    var x, handed, more := pc.batch[0], multiset(Of(s.handed, q)), multiset(Of(s'.handed, q));
    var a, b, c := Bag(s'.pollers, q), Bag(s.pollers, q), multiset(Of(s.broker, q));
    HandedMore(Of(s.handed, q), x);
    HeadOff(pc.batch);
    MovedBag(s.pollers, i, s'.pollers[i], q);
    Handover(handed, a, b, c, multiset(pc.batch[1..]), x);
    Regrouped(handed, a, c, x);
    assert Of(s'.broker, q) == Of(s.broker, q) && Of(s'.put, q) == Of(s.put, q);
    ConservedIs(s, q, handed, b, c);
    ConservedIs(s', q, more, a, c);
  }

  lemma ConservedIs(s: State, q: Queue, a: multiset<Message>, b: multiset<Message>, c: multiset<Message>)
    requires a == multiset(Of(s.handed, q)) && b == Bag(s.pollers, q) && c == multiset(Of(s.broker, q))
    ensures Conserved(s, q) <==> a + b + c == multiset(Of(s.put, q))
  {
  }

  lemma HandedMore(h: seq<Message>, x: Message)
    ensures multiset(h + [x]) == multiset(h) + multiset{x}
  {
  }

  lemma Regrouped(a: multiset<Message>, b: multiset<Message>, c: multiset<Message>, x: Message)
    ensures (a + multiset{x}) + b + c == a + b + (multiset{x} + c)
  {
  }

  lemma ShiftingConserves(s: State, s': State, i: nat, q: Queue)
    requires Conserved(s, q) && Shifts(s, s', i) && SameLoad(s, s', i, q)
    ensures Conserved(s', q)
  {
    MovedBag(s.pollers, i, s'.pollers[i], q);
    Unchanged(Bag(s.pollers, q), Bag(s'.pollers, q), multiset(Carried(s.pollers[i], q)));
  }

  lemma StepConserves(s: State, a: Action, q: Queue)
    requires Conserved(s, q) && Step(s, a).Some?
    ensures Conserved(Step(s, a).value, q)
  {
    var s' := Step(s, a).value;
    if PollerAction(a) {
      hide Conserved, Takes, Hands, Shifts, SameLoad;
      PollerMoves(s, a.i, a, q);
      if Takes(s, s', a.i) {
        TakingConserves(s, s', a.i, q);
      } else if Hands(s, s', a.i) {
        HandingConserves(s, s', a.i, q);
      } else {
        ShiftingConserves(s, s', a.i, q);
      }
    } else if a.Start? {
      OneMore(s.pollers, q);
    } else if a.Put? {
      PuttingConserves(s, a.q, a.m, q);
    }
  }

  lemma PuttingConserves(s: State, p: Queue, m: Message, q: Queue)
    requires Conserved(s, q)
    ensures Conserved(Step(s, Put(p, m)).value, q)
  {
    hide Bag;
    HandedMore(Of(s.broker, p), m);
    HandedMore(Of(s.put, p), m);
  }

  /**
   In every run and for every queue, the messages handed on, those in flight and those still on
   the broker are all that was ever put, each exactly once - even if connections break in the
   middle of a batch, and however often the listener is stopped and started.
   */
  lemma {:induction false} NoMessageLost(s0: State, actions: seq<Action>, q: Queue)
    requires Initial(s0) && Exec(s0, actions).Some?
    ensures Conserved(Exec(s0, actions).value, q)
  {
    if actions == [] {
    } else {
      ExecStep(s0, actions);
      NoMessageLost(s0, actions[..|actions| - 1], q);
      StepConserves(Exec(s0, actions[..|actions| - 1]).value, actions[|actions| - 1], q);
    }
  }

  // ----- order -------------------------------------------------------------

  predicate AllStopped(s: State) {
    forall i | 0 <= i < |s.pollers| :: s.pollers[i].Stopped?
  }

  /** At most one thread has not finished. */
  predicate Alone(s: State) {
    forall i, j | 0 <= i < j < |s.pollers| :: s.pollers[i].Stopped? || s.pollers[j].Stopped?
  }

  /** The messages of `q` in flight, thread by thread. */
  function Flight(pollers: seq<Pc>, q: Queue): seq<Message> {
    if pollers == [] then [] else Carried(pollers[0], q) + Flight(pollers[1..], q)
  }

  ghost predicate InOrderAt(s: State, q: Queue) {
    Of(s.handed, q) + Flight(s.pollers, q) + Of(s.broker, q) == Of(s.put, q)
  }

  /** For every queue: handed on, then in flight, then on the broker, in the order of the puts. */
  ghost predicate InOrder(s: State) {
    forall q :: InOrderAt(s, q)
  }

  ghost predicate OrderInv(s: State) { Alone(s) && InOrder(s) }

  lemma {:induction false} FlightAlone(ps: seq<Pc>, i: nat, q: Queue)
    requires i < |ps| && forall j | 0 <= j < |ps| && j != i :: ps[j].Stopped?
    ensures Flight(ps, q) == Carried(ps[i], q)
  {
    if i == 0 {
      NoFlight(ps[1..], q);
    } else {
      FlightAlone(ps[1..], i - 1, q);
    }
  }

  lemma {:induction false} NoFlight(ps: seq<Pc>, q: Queue)
    requires forall j | 0 <= j < |ps| :: ps[j].Stopped?
    ensures Flight(ps, q) == []
  {
    if ps == [] {
    } else {
      NoFlight(ps[1..], q);
    }
  }

  lemma {:induction false} FlightOneMore(ps: seq<Pc>, q: Queue)
    ensures Flight(ps + [Cycle], q) == Flight(ps, q)
  {
    if ps == [] {
      assert ps + [Cycle] == [Cycle] && [Cycle][1..] == [];
    } else {
      FlightOneMore(ps[1..], q);
      assert (ps + [Cycle])[1..] == ps[1..] + [Cycle];
    }
  }

  lemma MoveHead(a: seq<Message>, b: seq<Message>, c: seq<Message>)
    ensures c != [] ==> a + (b + [c[0]]) + c[1..] == a + b + c
    ensures b != [] ==> (a + [b[0]]) + b[1..] + c == a + b + c
    ensures a + [] + c == a + c
  {
    if c != [] { assert c == [c[0]] + c[1..]; }
    if b != [] { assert b == [b[0]] + b[1..]; }
  }

  lemma BothAlone(s: State, s': State, i: nat, q: Queue)
    requires Alone(s) && i < |s.pollers| && !s.pollers[i].Stopped? && |s'.pollers| == |s.pollers|
    requires forall j | 0 <= j < |s.pollers| && j != i :: s'.pollers[j] == s.pollers[j]
    ensures Flight(s.pollers, q) == Carried(s.pollers[i], q) && Flight(s'.pollers, q) == Carried(s'.pollers[i], q)
      && Alone(s')
  {
    FlightAlone(s.pollers, i, q);
    FlightAlone(s'.pollers, i, q);
  }

  lemma TakingInOrder(s: State, s': State, i: nat, q: Queue)
    requires Alone(s) && InOrderAt(s, q) && Takes(s, s', i)
    ensures Alone(s') && InOrderAt(s', q)
  {
    hide Flight;
    BothAlone(s, s', i, q);
    MoveHead(Of(s.handed, q), Carried(s.pollers[i], q), Of(s.broker, q));
  }

  lemma HandingInOrder(s: State, s': State, i: nat, q: Queue)
    requires Alone(s) && InOrderAt(s, q) && Hands(s, s', i)
    ensures Alone(s') && InOrderAt(s', q)
  {
    hide Flight;
    BothAlone(s, s', i, q);
    MoveHead(Of(s.handed, q), Carried(s.pollers[i], q), Of(s.broker, q));
  }

  lemma ShiftingInOrder(s: State, s': State, i: nat, q: Queue)
    requires Alone(s) && InOrderAt(s, q) && Shifts(s, s', i) && SameLoad(s, s', i, q)
    ensures Alone(s') && InOrderAt(s', q)
  {
    hide Flight;
    BothAlone(s, s', i, q);
  }

  /** The step of a thread that is alone keeps the order. */
  lemma PollerOrder(s: State, i: nat, a: Action, q: Queue)
    requires Alone(s) && InOrderAt(s, q) && i < |s.pollers| && PollerStep(s, i, a).Some?
    ensures var s' := PollerStep(s, i, a).value; Alone(s') && InOrderAt(s', q)
  {
    var s' := PollerStep(s, i, a).value;
    PollerMoves(s, i, a, q);
    hide Alone, InOrderAt, Takes, Hands, Shifts, SameLoad, PollerStep;
    if Takes(s, s', i) {
      TakingInOrder(s, s', i, q);
    } else if Hands(s, s', i) {
      HandingInOrder(s, s', i, q);
    } else {
      ShiftingInOrder(s, s', i, q);
    }
  }

  lemma PutOrder(s: State, p: Queue, m: Message, q: Queue)
    requires InOrderAt(s, q)
    ensures InOrderAt(Step(s, Put(p, m)).value, q)
  {
    var a := Of(s.handed, q) + Flight(s.pollers, q);
    assert a + (Of(s.broker, q) + [m]) == a + Of(s.broker, q) + [m];
  }

  /** An action that does not add a thread to one that has not finished. */
  predicate Orderly(s: State, a: Action) {
    a.Start? && !s.running ==> AllStopped(s)
  }

  lemma StepOrder(s: State, a: Action)
    requires OrderInv(s) && Step(s, a).Some? && Orderly(s, a)
    ensures OrderInv(Step(s, a).value)
  {
    var s' := Step(s, a).value;
    forall q
      ensures Alone(s') && InOrderAt(s', q)
    {
      assert InOrderAt(s, q);
      if PollerAction(a) {
        PollerOrder(s, a.i, a, q);
      } else if a.Put? {
        PutOrder(s, a.q, a.m, q);
      } else if a.Start? {
        FlightOneMore(s.pollers, q);
      }
    }
    assert InOrderAt(s', "") && Alone(s');
  }

  /** No start in the run finds an unfinished thread. */
  predicate OrderlyRun(s: State, actions: seq<Action>) {
    actions != [] ==>
      var most := actions[..|actions| - 1];
      OrderlyRun(s, most) && Exec(s, most).Some? && Orderly(Exec(s, most).value, actions[|actions| - 1])
  }

  lemma {:induction false} RunsInOrder(s: State, actions: seq<Action>)
    requires OrderInv(s) && OrderlyRun(s, actions) && Exec(s, actions).Some?
    ensures OrderInv(Exec(s, actions).value)
  {
    if actions == [] {
    } else {
      var most := actions[..|actions| - 1];
      ExecStep(s, actions);
      RunsInOrder(s, most);
      StepOrder(Exec(s, most).value, actions[|actions| - 1]);
    }
  }

  /** As long as the listener is started only after its last thread has finished, messages are handed on in order. */
  lemma HandedInOrder(s0: State, actions: seq<Action>, q: Queue)
    requires Initial(s0) && OrderlyRun(s0, actions) && Exec(s0, actions).Some?
    ensures var s := Exec(s0, actions).value;
      && Of(s.handed, q) + Flight(s.pollers, q) + Of(s.broker, q) == Of(s.put, q)
      && Of(s.handed, q) <= Of(s.put, q)
      && (AllStopped(s) ==> Of(s.handed, q) + Of(s.broker, q) == Of(s.put, q))
  {
    RunsInOrder(s0, actions);
    var s := Exec(s0, actions).value;
    assert InOrderAt(s, q);
    if AllStopped(s) { NoFlight(s.pollers, q); }
    MoveHead(Of(s.handed, q), [], Of(s.broker, q));
    ConcatAssociative(Of(s.handed, q), Flight(s.pollers, q), Of(s.broker, q));
  }

  // ----- a start too early --------------------------------------------------

  lemma {:induction false} QuietRunIsOrderly(s: State, actions: seq<Action>)
    requires Exec(s, actions).Some? && Start !in actions
    ensures OrderlyRun(s, actions)
  {
    if actions == [] {
    } else {
      ExecStep(s, actions);
      QuietRunIsOrderly(s, actions[..|actions| - 1]);
    }
  }

  /** Steps of thread `i` that leave the other threads, the switches and the puts alone. */
  predicate OnlyPoller(s: State, s': State, i: nat) {
    && i < |s.pollers| && |s'.pollers| == |s.pollers|
    && s'.running == s.running && s'.paused == s.paused && s'.put == s.put
    && forall j | 0 <= j < |s.pollers| && j != i :: s'.pollers[j] == s.pollers[j]
  }

  function Size(pc: Pc): nat {
    match pc
    case Cycle | Stopped => 0
    case Polling(rest) => 4 * |rest| + 1
    case Getting(_, got, rest) => 4 * |rest| + |got| + 4
    case Handing(_, batch, rest) => 4 * |rest| + |batch| + 3
  }

  /** In the middle of its loop, a thread can always go on. */
  lemma GoesOn(s: State, i: nat) returns (a: Action, s': State)
    requires i < |s.pollers| && !s.pollers[i].Stopped? && !s.pollers[i].Cycle?
    ensures a != Start && Step(s, a) == Some(s') && OnlyPoller(s, s', i)
    ensures !s'.pollers[i].Stopped? && Size(s'.pollers[i]) < Size(s.pollers[i])
  {
    a := match s.pollers[i] case Polling(_) => Look(i) case Getting(_, _, _) => EndOfBatch(i) case _ => Hand(i);
    s' := Step(s, a).value;
  }

  /** An unfinished thread can come back to the top of its loop. */
  lemma {:induction false} ReturnsToTop(s: State, i: nat) returns (actions: seq<Action>)
    requires i < |s.pollers| && !s.pollers[i].Stopped?
    ensures Exec(s, actions).Some? && Start !in actions
    ensures var s' := Exec(s, actions).value; OnlyPoller(s, s', i) && s'.pollers[i] == Cycle
    decreases Size(s.pollers[i])
  {
    if s.pollers[i].Cycle? {
      actions := [];
    } else {
      var a, s1 := GoesOn(s, i);
      hide Step;
      var more := ReturnsToTop(s1, i);
      actions := [a] + more;
      var none := Extend(s, [], s, a);
      ExecAppend(s, [a], s1, more);
    }
  }

  lemma {:induction false} LengthBound(keys: set<Queue>) returns (n: nat)
    ensures forall k | k in keys :: |k| < n
    decreases |keys|
  {
    if keys == {} {
      n := 0;
    } else {
      var k :| k in keys;
      var m := LengthBound(keys - {k});
      n := if |k| < m then m else |k| + 1;
      assert forall j | j in keys :: j == k || j in keys - {k};
    }
  }

  lemma NewQueue(keys: set<Queue>) returns (q: Queue)
    ensures q !in keys
  {
    var n := LengthBound(keys);
    q := seq(n, _ => 'q');
  }

  /** Two threads at the top of their loops: the second message put into a new queue can be handed on first. */
  lemma Overtakes(s: State, i: nat, j: nat, q: Queue) returns (actions: seq<Action>)
    requires i < |s.pollers| && j < |s.pollers| && i != j && s.running
    requires s.pollers[i] == Cycle && s.pollers[j] == Cycle
    requires Of(s.put, q) == [] && Of(s.handed, q) == [] && Of(s.broker, q) == []
    ensures Exec(s, actions).Some? && Start !in actions && !InOrder(Exec(s, actions).value)
  {
    hide Exec, Step;
    var s1 := s.(paused := s.paused - {q}, broker := s.broker[q := [0, 1]], put := s.put[q := [0, 1]]);
    actions := PutsTwo(s, q);
    var a := TakesOne(s1, i, q);
    var s2 := Exec(s1, a).value;
    assert [0, 1][1..] == [1] && Of(s2.broker, q) == [1];
    ExecAppend(s, actions, s1, a);
    actions := actions + a;
    var b := TakesOne(s2, j, q);
    var s3 := Exec(s2, b).value;
    ExecAppend(s, actions, s2, b);
    actions := actions + b;
    assert s3.pollers[j] == Getting(q, [1], []);
    var c := HandsOne(s3, j, q, 1);
    ExecAppend(s, actions, s3, c);
    actions := actions + c;
  }

  lemma PutsTwo(s: State, q: Queue) returns (actions: seq<Action>)
    requires Of(s.put, q) == [] && Of(s.broker, q) == []
    ensures actions == [Resume(q), Put(q, 0), Put(q, 1)]
    ensures Exec(s, actions) ==
      Some(s.(paused := s.paused - {q}, broker := s.broker[q := [0, 1]], put := s.put[q := [0, 1]]))
  {
    actions := Extend(s, [], s, Resume(q));
    var r := s.(paused := s.paused - {q});
    actions := Extend(s, actions, r, Put(q, 0));
    var none: seq<Message> := [];
    assert none + [0] == [0] && [0] + [1] == [0, 1];
    var r1 := r.(broker := s.broker[q := [0]], put := s.put[q := [0]]);
    actions := Extend(s, actions, r1, Put(q, 1));
    assert s.broker[q := [0]][q := [0, 1]] == s.broker[q := [0, 1]];
    assert s.put[q := [0]][q := [0, 1]] == s.put[q := [0, 1]];
  }

  lemma FirstOf(m: Message, f: seq<Message>, b: seq<Message>)
    ensures ([m] + f + b)[0] == m
  {
  }

  /** A message that was not put first is handed on first. */
  lemma HandsOne(s: State, j: nat, q: Queue, m: Message) returns (actions: seq<Action>)
    requires j < |s.pollers| && s.pollers[j] == Getting(q, [m], []) && Of(s.handed, q) == []
    requires Of(s.put, q) != [] && Of(s.put, q)[0] != m
    ensures actions == [EndOfBatch(j), Hand(j)] && Exec(s, actions).Some? && !InOrder(Exec(s, actions).value)
  {
    actions := Extend(s, [], s, EndOfBatch(j));
    var s1 := Step(s, EndOfBatch(j)).value;
    actions := Extend(s, actions, s1, Hand(j));
    var s2 := Step(s1, Hand(j)).value;
    hide Flight;
    var none: seq<Message> := [];
    assert none + [m] == [m] && Of(s2.handed, q) == [m];
    FirstOf(m, Flight(s2.pollers, q), Of(s2.broker, q));
    assert !InOrderAt(s2, q);
  }

  /** A thread at the top of its loop takes the first message of a queue. */
  lemma TakesOne(s: State, i: nat, q: Queue) returns (actions: seq<Action>)
    requires i < |s.pollers| && s.pollers[i] == Cycle && s.running && q !in s.paused && Of(s.broker, q) != []
    ensures actions == [Update(i, [q]), Look(i), Get(i)]
    ensures Exec(s, actions) == Some(s.(pollers := s.pollers[i := Getting(q, [s.broker[q][0]], [])],
                                        broker := s.broker[q := s.broker[q][1..]]))
  {
    actions := Extend(s, [], s, Update(i, [q]));
    var s1 := s.(pollers := s.pollers[i := Polling([q])]);
    actions := Extend(s, actions, s1, Look(i));
    var s2 := s.(pollers := s.pollers[i := Getting(q, [], [])]);
    assert Step(s1, Look(i)) == Some(s2) by {
      assert [q][1..] == [] && s1.pollers[i := s2.pollers[i]] == s2.pollers;
    }
    actions := Extend(s, actions, s2, Get(i));
    var none: seq<Message> := [];
    assert none + [s.broker[q][0]] == [s.broker[q][0]];
    assert s2.pollers[i := Getting(q, [s.broker[q][0]], [])] == s.pollers[i := Getting(q, [s.broker[q][0]], [])];
  }

  /**
   Starting the listener keeps every later run in order - runs without another early start -
   exactly if its last thread has finished.  `stop` does not wait for that beyond five seconds.
   */
  lemma StartKeepsOrderExactly(s0: State, before: seq<Action>)
    requires Initial(s0) && OrderlyRun(s0, before) && Exec(s0, before).Some? && !Exec(s0, before).value.running
    ensures var s := Exec(s0, before).value; var s' := Step(s, Start).value;
      (forall after | Exec(s', after).Some? && OrderlyRun(s', after) :: InOrder(Exec(s', after).value)) <==>
        AllStopped(s)
  {
    RunsInOrder(s0, before);
    var s := Exec(s0, before).value;
    var s' := Step(s, Start).value;
    if AllStopped(s) {
      StepOrder(s, Start);
      forall after | Exec(s', after).Some? && OrderlyRun(s', after)
        ensures InOrder(Exec(s', after).value)
      {
        RunsInOrder(s', after);
      }
    } else {
      var i :| 0 <= i < |s.pollers| && !s.pollers[i].Stopped?;
      var after := Disorder(s0, before, i);
      QuietRunIsOrderly(s', after);
    }
  }

  lemma Disorder(s0: State, before: seq<Action>, i: nat) returns (after: seq<Action>)
    requires Initial(s0) && Exec(s0, before).Some?
    requires var s := Exec(s0, before).value; !s.running && i < |s.pollers| && !s.pollers[i].Stopped?
    ensures var s' := Step(Exec(s0, before).value, Start).value;
      Exec(s', after).Some? && Start !in after && !InOrder(Exec(s', after).value)
  {
    var s := Exec(s0, before).value;
    var s' := Step(s, Start).value;
    var back := ReturnsToTop(s', i);
    var top := Exec(s', back).value;
    var q := NewQueue(top.put.Keys);
    var run := Extend(s0, before, s, Start);
    ExecAppend(s0, run, s', back);
    NoMessageLost(s0, run + back, q);
    Nothing(top, q);
    var more := Overtakes(top, i, |s.pollers|, q);
    ExecAppend(s', back, top, more);
    after := back + more;
  }

  /** Of a queue into which nothing was put, nothing was handed on and nothing is queued. */
  lemma Nothing(s: State, q: Queue)
    requires Conserved(s, q) && q !in s.put
    ensures Of(s.handed, q) == [] && Of(s.broker, q) == []
  {
    assert |multiset(Of(s.handed, q))| == 0 && |multiset(Of(s.broker, q))| == 0;
  }

  // ----- pausing -----------------------------------------------------------

  predicate SmallBatches(s: State) {
    forall i | 0 <= i < |s.pollers| ::
      && (s.pollers[i].Getting? ==> |s.pollers[i].got| <= MAX_MESSAGES)
      && (s.pollers[i].Handing? ==> |s.pollers[i].batch| <= MAX_MESSAGES)
  }

  lemma StepSmallBatches(s: State, a: Action)
    requires SmallBatches(s) && Step(s, a).Some?
    ensures SmallBatches(Step(s, a).value)
  {
  }

  lemma {:induction false} BatchesAreSmall(s0: State, actions: seq<Action>)
    requires Initial(s0) && Exec(s0, actions).Some?
    ensures SmallBatches(Exec(s0, actions).value)
  {
    if actions == [] {
    } else {
      ExecStep(s0, actions);
      BatchesAreSmall(s0, actions[..|actions| - 1]);
      StepSmallBatches(Exec(s0, actions[..|actions| - 1]).value, actions[|actions| - 1]);
    }
  }

  /** Messages of `q` taken off the broker so far. */
  function Taken(s: State, q: Queue): nat {
    |Of(s.handed, q)| + Load(s.pollers, q)
  }

  /** How many messages of `q` the batches under way may still take. */
  function Allowance(s: State, q: Queue): nat { Rooms(s.pollers, q) }

  lemma PollerWhilePaused(s: State, i: nat, a: Action, q: Queue)
    requires q in s.paused && i < |s.pollers| && PollerStep(s, i, a).Some?
    ensures var s' := PollerStep(s, i, a).value;
      q in s'.paused && Taken(s', q) + Allowance(s', q) <= Taken(s, q) + Allowance(s, q)
  {
    var s' := PollerStep(s, i, a).value;
    PollerMoves(s, i, a, q);
    hide PollerStep;
    MovedLoad(s.pollers, i, s'.pollers[i], q);
  }

  lemma StepWhilePaused(s: State, a: Action, q: Queue)
    requires q in s.paused && SmallBatches(s) && a != Resume(q) && Step(s, a).Some?
    ensures var s' := Step(s, a).value;
      q in s'.paused && SmallBatches(s') && Taken(s', q) + Allowance(s', q) <= Taken(s, q) + Allowance(s, q)
  {
    var s' := Step(s, a).value;
    StepSmallBatches(s, a);
    hide SmallBatches;
    if PollerAction(a) {
      PollerWhilePaused(s, a.i, a, q);
    } else if a.Start? {
      OneMore(s.pollers, q);
    }
  }

  lemma {:induction false} WhilePaused(s: State, actions: seq<Action>, q: Queue)
    requires q in s.paused && SmallBatches(s) && Resume(q) !in actions && Exec(s, actions).Some?
    ensures var s' := Exec(s, actions).value;
      q in s'.paused && SmallBatches(s') && Taken(s', q) + Allowance(s', q) <= Taken(s, q) + Allowance(s, q)
  {
    if actions == [] {
    } else {
      ExecStep(s, actions);
      WhilePaused(s, actions[..|actions| - 1], q);
      StepWhilePaused(Exec(s, actions[..|actions| - 1]).value, actions[|actions| - 1], q);
    }
  }

  /** A single thread has at most five messages in flight or still to take. */
  lemma {:induction false} AloneAllowance(ps: seq<Pc>, q: Queue)
    requires SmallBatches(State(ps, true, {}, map[], map[], map[])) && Alone(State(ps, true, {}, map[], map[], map[]))
    ensures Load(ps, q) + Rooms(ps, q) <= MAX_MESSAGES
  {
    if ps == [] {
    } else if ps[0].Stopped? {
      AloneAllowance(ps[1..], q);
    } else {
      assert forall j | 0 <= j < |ps[1..]| :: ps[1..][j] == ps[j + 1];
      NoRooms(ps[1..], q);
    }
  }

  lemma {:induction false} NoRooms(ps: seq<Pc>, q: Queue)
    requires forall j | 0 <= j < |ps| :: ps[j].Stopped?
    ensures Load(ps, q) == 0 && Rooms(ps, q) == 0
  {
    if ps == [] {
    } else {
      NoRooms(ps[1..], q);
    }
  }

  /**
   After `pause_queue`, and until the queue is resumed, only batches that were already under
   way take messages, as many as they have room for; if none was, no message is taken.  A
   single thread takes at most five more, and hands on at most five more.
   */
  lemma PauseStopsTaking(s0: State, before: seq<Action>, q: Queue, after: seq<Action>)
    requires Initial(s0) && Exec(s0, before).Some? && Resume(q) !in after
    requires Exec(Step(Exec(s0, before).value, Pause(q)).value, after).Some?
    ensures var s := Exec(s0, before).value; var s' := Exec(Step(s, Pause(q)).value, after).value;
      && Taken(s', q) <= Taken(s, q) + Allowance(s, q)
      && (Alone(s) ==> Allowance(s, q) <= MAX_MESSAGES && |Of(s'.handed, q)| <= |Of(s.handed, q)| + MAX_MESSAGES)
  {
    BatchesAreSmall(s0, before);
    var s := Exec(s0, before).value;
    WhilePaused(Step(s, Pause(q)).value, after, q);
    if Alone(s) { AloneAllowance(s.pollers, q); }
  }

  lemma {:induction false} RoomSomewhere(ps: seq<Pc>, q: Queue) returns (i: nat)
    requires Rooms(ps, q) > 0
    ensures i < |ps| && Room(ps[i], q) > 0
  {
    if Room(ps[0], q) > 0 {
      i := 0;
    } else {
      var j := RoomSomewhere(ps[1..], q);
      i := j + 1;
    }
  }

  /** One more message for a batch that has room. */
  lemma TakesOneMore(s: State, i: nat, q: Queue) returns (s': State)
    requires i < |s.pollers| && Room(s.pollers[i], q) > 0
    ensures Exec(s, [Put(q, 0), Get(i)]) == Some(s')
    ensures Taken(s', q) == Taken(s, q) + 1 && Allowance(s', q) == Allowance(s, q) - 1
  {
    var s1 := Step(s, Put(q, 0)).value;
    s' := Step(s1, Get(i)).value;
    var one := Extend(s, [], s, Put(q, 0));
    var two := Extend(s, one, s1, Get(i));
    assert two == [Put(q, 0), Get(i)];
    MovedLoad(s.pollers, i, s'.pollers[i], q);
  }

  /** The batches under way can be filled. */
  lemma {:induction false} FillsUp(s: State, q: Queue) returns (actions: seq<Action>)
    ensures Exec(s, actions).Some? && Resume(q) !in actions
    ensures Taken(Exec(s, actions).value, q) == Taken(s, q) + Allowance(s, q)
    decreases Allowance(s, q)
  {
    if Allowance(s, q) == 0 {
      actions := [];
    } else {
      var i := RoomSomewhere(s.pollers, q);
      var s' := TakesOneMore(s, i, q);
      var more := FillsUp(s', q);
      ExecAppend(s, [Put(q, 0), Get(i)], s', more);
      actions := [Put(q, 0), Get(i)] + more;
    }
  }

  /** In every reachable state, that many messages can indeed be taken after the pause. */
  lemma PauseBoundIsReached(s0: State, before: seq<Action>, q: Queue) returns (after: seq<Action>)
    requires Initial(s0) && Exec(s0, before).Some?
    ensures var s := Exec(s0, before).value; var paused := Step(s, Pause(q)).value;
      && Resume(q) !in after && Exec(paused, after).Some?
      && Taken(Exec(paused, after).value, q) == Taken(s, q) + Allowance(s, q)
  {
    after := FillsUp(Step(Exec(s0, before).value, Pause(q)).value, q);
  }
}
