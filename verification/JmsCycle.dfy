/**
 What one cycle of the JMS poll loop does: which queues it polls, and that a message waiting
 in one of them gets through.
 */
module JmsCycle {
  import opened Util
  import opened JmsListener

  /** The queues that are not paused, in the same order. */
  function Listening(order: seq<Queue>, paused: set<Queue>): seq<Queue> {
    if order == [] then []
    else (if order[0] in paused then [] else [order[0]]) + Listening(order[1..], paused)
  }

  /** The queue that thread `i` begins to get messages from between two states, if there is one. */
  function Begun(before: Option<State>, after: Option<State>, i: nat): seq<Queue> {
    if before.Some? && after.Some? && i < |before.value.pollers| && i < |after.value.pollers|
       && !before.value.pollers[i].Getting? && after.value.pollers[i].Getting?
    then [after.value.pollers[i].q]
    else []
  }

  /** All queues that thread `i` begins to get messages from during a run, in order. */
  function Polled(s: State, actions: seq<Action>, i: nat): seq<Queue> {
    if actions == [] then []
    else
      var most := actions[..|actions| - 1];
      Polled(s, most, i) + Begun(Exec(s, most), Exec(s, actions), i)
  }

  /** Nobody starts or stops the listener, and no queue is paused or resumed. */
  predicate Undisturbed(actions: seq<Action>) {
    forall k | 0 <= k < |actions| ::
      !actions[k].Start? && !actions[k].Stop? && !actions[k].Pause? && !actions[k].Resume?
  }

  /** The queues thread `i` still has to look at. */
  function Rest(pc: Pc): seq<Queue> {
    match pc
    case Polling(rest) => rest
    case Getting(_, _, rest) => rest
    case Handing(_, _, rest) => rest
    case _ => []
  }

  /** What has begun and what is still to come are what was to come before. */
  ghost predicate KeepsTurn(s: State, s': State, i: nat)
    requires i < |s.pollers|
  {
    && s'.running && s'.paused == s.paused && |s'.pollers| == |s.pollers| && !s'.pollers[i].Stopped?
    && Begun(Some(s), Some(s'), i) + Listening(Rest(s'.pollers[i]), s.paused)
       == Listening(Rest(s.pollers[i]), s.paused)
  }

  lemma OwnStepPolls(s: State, a: Action, i: nat)
    requires i < |s.pollers| && s.running && PollerStep(s, i, a).Some?
    requires !s.pollers[i].Cycle? && !s.pollers[i].Stopped?
    ensures KeepsTurn(s, PollerStep(s, i, a).value, i)
  {
    match s.pollers[i]
    case Polling(rest) =>
      if rest != [] {
        assert Listening(rest, s.paused)
            == (if rest[0] in s.paused then [] else [rest[0]]) + Listening(rest[1..], s.paused);
      }
    case _ =>
  }

  lemma OtherStepPolls(s: State, a: Action, i: nat)
    requires i < |s.pollers| && s.running && Step(s, a).Some? && !s.pollers[i].Stopped?
    requires a.Put? || (PollerAction(a) && a.i != i)
    ensures KeepsTurn(s, Step(s, a).value, i)
  {
    hide Listening;
  }

  lemma StepPolls(s: State, a: Action, i: nat)
    requires i < |s.pollers| && s.running && Step(s, a).Some? && !s.pollers[i].Cycle? && !s.pollers[i].Stopped?
    requires !a.Start? && !a.Stop? && !a.Pause? && !a.Resume?
    ensures KeepsTurn(s, Step(s, a).value, i)
  {
    hide KeepsTurn, PollerStep;
    if a.Put? || a.i != i {
      OtherStepPolls(s, a, i);
    } else {
      OwnStepPolls(s, a, i);
    }
  }

  /** Thread `i` is in the middle of a cycle that began with `order`. */
  ghost predicate MidCycle(s: State, actions: seq<Action>, i: nat, order: seq<Queue>, m: State) {
    && Exec(s, actions) == Some(m) && i < |m.pollers| && m.running && m.paused == s.paused
    && !m.pollers[i].Stopped?
    && Polled(s, actions, i) + Listening(Rest(m.pollers[i]), s.paused) == Listening(order, s.paused)
  }

  /** A cycle of thread `i`: it begins with `order`, and has not come to an end before the last action. */
  ghost predicate IsCycle(s: State, actions: seq<Action>, i: nat, order: seq<Queue>) {
    && i < |s.pollers| && s.pollers[i].Cycle? && actions != [] && actions[0] == Update(i, order)
    && Exec(s, actions).Some?
    && forall n | 0 < n < |actions| :: Exec(s, actions[..n]).Some? ==>
         i < |Exec(s, actions[..n]).value.pollers| && !Exec(s, actions[..n]).value.pollers[i].Cycle?
  }

  lemma BeginsCycle(s: State, i: nat, order: seq<Queue>)
    requires i < |s.pollers| && s.pollers[i].Cycle? && s.running
    ensures MidCycle(s, [Update(i, order)], i, order, s.(pollers := s.pollers[i := Polling(order)]))
  {
    var none: seq<Action> := [];
    assert none + [Update(i, order)] == [Update(i, order)];
    var actions := Extend(s, none, s, Update(i, order));
    assert actions[..0] == none;
    var m := s.(pollers := s.pollers[i := Polling(order)]);
    assert Exec(s, actions) == Some(m);
    assert Polled(s, [], i) == [] && Begun(Some(s), Some(m), i) == [];
    assert Polled(s, actions, i) == [];
  }

  lemma {:induction false} StaysMidCycle(s: State, actions: seq<Action>, i: nat, order: seq<Queue>)
    returns (m: State)
    requires s.running && IsCycle(s, actions, i, order) && Undisturbed(actions)
    ensures MidCycle(s, actions, i, order, m)
  {
    hide Step;
    if |actions| == 1 {
      assert actions == [Update(i, order)];
      BeginsCycle(s, i, order);
      m := s.(pollers := s.pollers[i := Polling(order)]);
    } else {
      var last := |actions| - 1;
      var most, a := actions[..last], actions[last];
      ExecStep(s, actions);
      ShorterCycle(s, actions, i, order);
      var before := StaysMidCycle(s, most, i, order);
      StepPolls(before, a, i);
      m := Step(before, a).value;
      ConcatAssociative(Polled(s, most, i), Begun(Some(before), Some(m), i),
        Listening(Rest(m.pollers[i]), s.paused));
    }
  }

  lemma ShorterCycle(s: State, actions: seq<Action>, i: nat, order: seq<Queue>)
    requires IsCycle(s, actions, i, order) && |actions| > 1
    ensures IsCycle(s, actions[..|actions| - 1], i, order)
    ensures i < |Exec(s, actions[..|actions| - 1]).value.pollers|
    ensures !Exec(s, actions[..|actions| - 1]).value.pollers[i].Cycle?
  {
    var most := actions[..|actions| - 1];
    ExecStep(s, actions);
    hide Exec;
    forall n | 0 < n < |most| && Exec(s, most[..n]).Some?
      ensures i < |Exec(s, most[..n]).value.pollers| && !Exec(s, most[..n]).value.pollers[i].Cycle?
    {
      assert most[..n] == actions[..n];
    }
  }

  /**
   Whatever the other threads and the senders do meanwhile: a cycle polls exactly the queues
   that are not paused, each in its turn.
   */
  lemma CyclePollsExactly(s: State, actions: seq<Action>, i: nat, order: seq<Queue>)
    requires s.running && IsCycle(s, actions, i, order) && Undisturbed(actions)
    requires Exec(s, actions).Some? && i < |Exec(s, actions).value.pollers|
    requires Exec(s, actions).value.pollers[i].Cycle?
    ensures Polled(s, actions, i) == Listening(order, s.paused)
  {
    var m := StaysMidCycle(s, actions, i, order);
    assert Polled(s, actions, i) + [] == Polled(s, actions, i);
  }

  // ----- a message gets through --------------------------------------------

  /** Steps of thread `i` within one cycle. */
  predicate Own(actions: seq<Action>, i: nat) {
    forall k | 0 <= k < |actions| ::
      PollerAction(actions[k]) && actions[k].i == i && !actions[k].Update?
  }

  /** Thread `i` goes on with its cycle, and the rest of the state stays as it is. */
  ghost predicate Passes(s: State, actions: seq<Action>, i: nat, pc: Pc) {
    i < |s.pollers| && Own(actions, i) && Exec(s, actions) == Some(s.(pollers := s.pollers[i := pc]))
  }

  lemma PassesOn(s: State, actions: seq<Action>, i: nat, pc: Pc, a: Action, pc': Pc) returns (longer: seq<Action>)
    requires Passes(s, actions, i, pc) && PollerAction(a) && a.i == i && !a.Update?
    requires Step(s.(pollers := s.pollers[i := pc]), a) == Some(s.(pollers := s.pollers[i := pc']))
    ensures longer == actions + [a] && Passes(s, longer, i, pc')
  {
    hide Step;
    longer := Extend(s, actions, s.(pollers := s.pollers[i := pc]), a);
  }

  /** A queue that is not asked for is passed by, whether it is paused or not. */
  lemma PassesBy(s: State, actions: seq<Action>, i: nat, q: Queue, rest: seq<Queue>) returns (longer: seq<Action>)
    requires Passes(s, actions, i, Polling([q] + rest)) && s.running
    ensures Passes(s, longer, i, Polling(rest))
  {
    assert ([q] + rest)[1..] == rest;
    var at := s.(pollers := s.pollers[i := Polling([q] + rest)]);
    if q in s.paused {
      assert at.pollers[i := Polling(rest)] == s.pollers[i := Polling(rest)];
      longer := PassesOn(s, actions, i, Polling([q] + rest), Look(i), Polling(rest));
    } else {
      assert at.pollers[i := Getting(q, [], rest)] == s.pollers[i := Getting(q, [], rest)];
      longer := PassesOn(s, actions, i, Polling([q] + rest), Look(i), Getting(q, [], rest));
      longer := GivesUpOn(s, longer, i, q, rest);
    }
  }

  /** The batch is empty. */
  lemma GivesUpOn(s: State, actions: seq<Action>, i: nat, q: Queue, rest: seq<Queue>) returns (longer: seq<Action>)
    requires Passes(s, actions, i, Getting(q, [], rest))
    ensures Passes(s, longer, i, Polling(rest))
  {
    assert s.pollers[i := Getting(q, [], rest)][i := Handing(q, [], rest)] == s.pollers[i := Handing(q, [], rest)];
    assert s.pollers[i := Handing(q, [], rest)][i := Polling(rest)] == s.pollers[i := Polling(rest)];
    longer := PassesOn(s, actions, i, Getting(q, [], rest), EndOfBatch(i), Handing(q, [], rest));
    longer := PassesOn(s, longer, i, Handing(q, [], rest), Hand(i), Polling(rest));
  }

  lemma {:induction false} GetsToQueue(s: State, actions: seq<Action>, i: nat, order: seq<Queue>, q: Queue)
    returns (longer: seq<Action>, rest: seq<Queue>)
    requires Passes(s, actions, i, Polling(order)) && s.running && q in order && q !in s.paused
    ensures Passes(s, longer, i, Getting(q, [], rest))
    decreases |order|
  {
    if order[0] == q {
      rest := order[1..];
      var at := s.(pollers := s.pollers[i := Polling(order)]);
      assert at.pollers[i := Getting(q, [], rest)] == s.pollers[i := Getting(q, [], rest)];
      longer := PassesOn(s, actions, i, Polling(order), Look(i), Getting(q, [], rest));
    } else {
      assert order == [order[0]] + order[1..];
      longer := PassesBy(s, actions, i, order[0], order[1..]);
      longer, rest := GetsToQueue(s, longer, i, order[1..], q);
    }
  }

  /** A batch takes messages one by one from the front of its queue, up to five. */
  lemma {:induction false} FillsBatch(s: State, i: nat, q: Queue, rest: seq<Queue>, n: nat)
    returns (actions: seq<Action>)
    requires i < |s.pollers| && s.pollers[i] == Getting(q, [], rest) && n <= 5 && n <= |Of(s.broker, q)|
    ensures Own(actions, i) && Exec(s, actions).Some?
    ensures var s' := Exec(s, actions).value;
      && s'.pollers == s.pollers[i := Getting(q, Of(s.broker, q)[..n], rest)] && s'.handed == s.handed
      && Of(s'.broker, q) == Of(s.broker, q)[n..]
  {
    var queued := Of(s.broker, q);
    if n == 0 {
      actions := [];
    } else {
      actions := FillsBatch(s, i, q, rest, n - 1);
      var m := Exec(s, actions).value;
      assert queued[..n] == queued[..n - 1] + [queued[n - 1]];
      assert queued[n - 1..] == [queued[n - 1]] + queued[n..];
      actions := Extend(s, actions, m, Get(i));
    }
  }

  /** No batch ever has more. */
  lemma NoSixthMessage(s0: State, actions: seq<Action>, i: nat)
    requires Initial(s0) && Exec(s0, actions).Some? && i < |Exec(s0, actions).value.pollers|
    ensures var s := Exec(s0, actions).value;
      && (s.pollers[i].Getting? ==> |s.pollers[i].got| <= 5)
      && (s.pollers[i].Getting? && |s.pollers[i].got| == 5 ==> Step(s, Get(i)).None?)
  {
    BatchesAreSmall(s0, actions);
  }

  /** Messages are handed on one by one from the front of the batch. */
  lemma HandsFirst(s: State, actions: seq<Action>, m: State, i: nat, q: Queue, x: Message, rest: seq<Queue>)
    returns (longer: seq<Action>)
    requires Own(actions, i) && Exec(s, actions) == Some(m)
    requires i < |m.pollers| && m.pollers[i] == Getting(q, [x], rest)
    ensures Own(longer, i) && Exec(s, longer).Some?
    ensures Of(Exec(s, longer).value.handed, q) == Of(m.handed, q) + [x]
  {
    longer := Extend(s, actions, m, EndOfBatch(i));
    var h := Step(m, EndOfBatch(i)).value;
    assert h.pollers[i] == Handing(q, [x], rest);
    longer := Extend(s, longer, h, Hand(i));
  }

  /**
   A message at the front of a queue that is subscribed and not paused is taken and handed on
   within the cycle, by the thread's own steps, whatever queues come before it and whether they
   are paused or not.
   */
  lemma MessageGetsThrough(s: State, i: nat, order: seq<Queue>, q: Queue) returns (actions: seq<Action>)
    requires i < |s.pollers| && s.pollers[i].Cycle? && s.running
    requires q in order && q !in s.paused && Of(s.broker, q) != []
    ensures actions != [] && actions[0] == Update(i, order) && Own(actions[1..], i) && Exec(s, actions).Some?
    ensures Of(Exec(s, actions).value.handed, q) == Of(s.handed, q) + [Of(s.broker, q)[0]]
  {
    hide Step;
    BeginsCycle(s, i, order);
    var s1 := s.(pollers := s.pollers[i := Polling(order)]);
    assert s1.pollers[i := Polling(order)] == s1.pollers;
    var path, rest := GetsToQueue(s1, [], i, order, q);
    var s2 := s1.(pollers := s1.pollers[i := Getting(q, [], rest)]);
    var taking := FillsBatch(s2, i, q, rest, 1);
    var s3 := Exec(s2, taking).value;
    assert Of(s2.broker, q)[..1] == [Of(s.broker, q)[0]];
    var own := HandsFirst(s2, taking, s3, i, q, Of(s.broker, q)[0], rest);
    ExecAppend(s1, path, s2, own);
    ExecAppend(s, [Update(i, order)], s1, path + own);
    actions := [Update(i, order)] + (path + own);
    assert actions[1..] == path + own;
  }

  // ----- resuming, starting and stopping -----------------------------------

  lemma NothingYet(s: State)
    ensures Exec(s, []) == Some(s)
  {
  }

  lemma AfterOne(s: State, a: Action, s1: State, more: seq<Action>) returns (actions: seq<Action>)
    requires Step(s, a) == Some(s1)
    ensures actions == [a] + more && Exec(s, actions) == Exec(s1, more)
  {
    hide Step, Exec;
    var none: seq<Action> := [];
    assert none + [a] == [a];
    NothingYet(s);
    var one := Extend(s, none, s, a);
    ExecAppend(s, one, s1, more);
    actions := one + more;
  }

  lemma BehindTwo(a: Action, more: seq<Action>)
    requires more != []
    ensures ([a] + more)[..2] == [a, more[0]] && ([a] + more)[2..] == more[1..]
  {
  }

  /** A queue that is resumed is polled again. */
  lemma ResumedGetsThrough(s: State, i: nat, order: seq<Queue>, q: Queue) returns (actions: seq<Action>)
    requires i < |s.pollers| && s.pollers[i].Cycle? && s.running && q in order && Of(s.broker, q) != []
    ensures |actions| > 1 && actions[..2] == [Resume(q), Update(i, order)] && Own(actions[2..], i)
    ensures Exec(s, actions).Some?
    ensures Of(Exec(s, actions).value.handed, q) == Of(s.handed, q) + [Of(s.broker, q)[0]]
  {
    var s1 := s.(paused := s.paused - {q});
    var cycle := MessageGetsThrough(s1, i, order, q);
    actions := AfterOne(s, Resume(q), s1, cycle);
    BehindTwo(Resume(q), cycle);
  }

  /** A listener that is started polls. */
  lemma StartedGetsThrough(s: State, order: seq<Queue>, q: Queue) returns (actions: seq<Action>)
    requires !s.running && q in order && q !in s.paused && Of(s.broker, q) != []
    ensures |actions| > 1 && actions[..2] == [Start, Update(|s.pollers|, order)] && Own(actions[2..], |s.pollers|)
    ensures Exec(s, actions).Some?
    ensures Of(Exec(s, actions).value.handed, q) == Of(s.handed, q) + [Of(s.broker, q)[0]]
  {
    var s1 := s.(running := true, pollers := s.pollers + [Cycle]);
    var cycle := MessageGetsThrough(s1, |s.pollers|, order, q);
    actions := AfterOne(s, Start, s1, cycle);
    BehindTwo(Start, cycle);
  }

  lemma StepWhenStopped(s: State, a: Action, i: nat)
    requires !s.running && a != Start && Step(s, a).Some? && i < |s.pollers|
    ensures var s' := Step(s, a).value;
      !s'.running && |s'.pollers| == |s.pollers| && Begun(Some(s), Some(s'), i) == []
  {
  }

  /** Once the listener is stopped no thread begins to poll another queue, until it is started again. */
  lemma {:induction false} StopEndsPolling(s: State, actions: seq<Action>, i: nat)
    requires i < |s.pollers| && Exec(s, [Stop] + actions).Some? && Start !in actions
    ensures Polled(s, [Stop] + actions, i) == []
    ensures var s' := Exec(s, [Stop] + actions).value; !s'.running && |s'.pollers| == |s.pollers|
  {
    var all := [Stop] + actions;
    var most, last := all[..|all| - 1], all[|all| - 1];
    ExecStep(s, all);
    if actions == [] {
      assert most == [];
      assert Polled(s, most, i) == [];
    } else {
      var fewer := actions[..|actions| - 1];
      assert most == [Stop] + fewer && last == actions[|actions| - 1];
      StopEndsPolling(s, fewer, i);
      hide Step;
      StepWhenStopped(Exec(s, most).value, last, i);
    }
  }

  /** And every thread can finish, by its own steps. */
  lemma Finishes(s: State, i: nat) returns (actions: seq<Action>)
    requires i < |s.pollers| && !s.pollers[i].Stopped?
    ensures actions != [] && actions[0] == Stop && Exec(s, actions).Some?
    ensures var s' := Exec(s, actions).value;
      && |s'.pollers| == |s.pollers| && s'.pollers[i].Stopped? && s'.put == s.put
      && forall j | 0 <= j < |s.pollers| && j != i :: s'.pollers[j] == s.pollers[j]
  {
    var s1 := s.(running := false);
    var back := ReturnsToTop(s1, i);
    var top := Exec(s1, back).value;
    back := Extend(s1, back, top, Update(i, []));
    actions := AfterOne(s, Stop, s1, back);
  }
}
