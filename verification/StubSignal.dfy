/**
 Recording calls on one stub from many threads.  The call is appended and counted under
 the stub's lock; the event that waiting tests look at is set afterwards, outside it.
 */
module StubSignal {
  import opened Util

  type ThreadId = nat

  /** A recorder is idle, or has counted `n` calls and is about to look at the event. */
  datatype Pc = Idle | Counted(n: nat)

  datatype State = State(threads: map<ThreadId, Pc>, calls: nat, event: bool)

  /** The next step of thread `t`: record a call, or finish the one it has recorded. */
  function Step(expected: int, s: State, t: ThreadId): Option<State> {
    if t !in s.threads then None
    else match s.threads[t]
      case Idle => Some(State(s.threads[t := Counted(s.calls + 1)], s.calls + 1, s.event))
      case Counted(n) => Some(State(s.threads[t := Idle], s.calls, s.event || n >= expected))
  }

  function Exec(expected: int, s: State, schedule: seq<ThreadId>): Option<State> {
    if schedule == [] then Some(s) else
    var before := Exec(expected, s, schedule[..|schedule| - 1]);
    if before.None? then None else Step(expected, before.value, schedule[|schedule| - 1])
  }

  predicate Initial(s: State) {
    (forall t | t in s.threads :: s.threads[t].Idle?) && s.calls == 0 && !s.event
  }

  /** The call that makes the count complete; without any call there is nothing to complete. */
  function Goal(expected: int): nat { if expected < 1 then 1 else expected }

  /** Whoever counted the decisive call has set the event, or still will. */
  ghost predicate Inv(expected: int, s: State) {
    && (forall t | t in s.threads && s.threads[t].Counted? :: 1 <= s.threads[t].n <= s.calls)
    && (s.event ==> s.calls >= Goal(expected))
    && (s.calls >= Goal(expected) && !s.event ==>
          exists t :: t in s.threads && s.threads[t].Counted? && s.threads[t].n >= Goal(expected))
  }

  lemma StepInv(expected: int, s: State, t: ThreadId)
    requires Inv(expected, s) && Step(expected, s, t).Some?
    ensures Inv(expected, Step(expected, s, t).value)
  {
    var s' := Step(expected, s, t).value;
    if s'.calls >= Goal(expected) && !s'.event {
      if s.calls >= Goal(expected) {
        var u :| u in s.threads && s.threads[u].Counted? && s.threads[u].n >= Goal(expected);
        assert u in s'.threads && s'.threads[u].Counted? && s'.threads[u].n >= Goal(expected);
      } else {
        assert s'.threads[t] == Counted(s'.calls);
      }
    }
  }

  lemma {:induction false} Reachable(expected: int, s0: State, schedule: seq<ThreadId>)
    requires Initial(s0) && Exec(expected, s0, schedule).Some?
    ensures Inv(expected, Exec(expected, s0, schedule).value)
  {
    if schedule == [] {
    } else {
      Reachable(expected, s0, schedule[..|schedule| - 1]);
      StepInv(expected, Exec(expected, s0, schedule[..|schedule| - 1]).value, schedule[|schedule| - 1]);
    }
  }

  /** The event is never set too early, however the recorders interleave. */
  lemma NeverTooEarly(expected: int, s0: State, schedule: seq<ThreadId>)
    requires Initial(s0) && Exec(expected, s0, schedule).Some? && Exec(expected, s0, schedule).value.event
    ensures Exec(expected, s0, schedule).value.calls >= Goal(expected)
  {
    Reachable(expected, s0, schedule);
  }

  /** No signal is lost: when no recorder is mid-call, the event is set exactly if enough calls came in. */
  lemma NoSignalLost(expected: int, s0: State, schedule: seq<ThreadId>)
    requires Initial(s0) && Exec(expected, s0, schedule).Some?
    requires var s := Exec(expected, s0, schedule).value; forall t | t in s.threads :: s.threads[t].Idle?
    ensures var s := Exec(expected, s0, schedule).value; s.event <==> s.calls >= Goal(expected)
  {
    Reachable(expected, s0, schedule);
  }

  predicate Settled(s: Option<State>) {
    s.Some? && forall t | t in s.value.threads :: s.value.threads[t].Idle?
  }

  /** What `wait` promises of a run in which no recorder is mid-call. */
  predicate SignalledAtExpected(expected: int, s0: State, schedule: seq<ThreadId>) {
    Initial(s0) && Settled(Exec(expected, s0, schedule)) ==>
      var s := Exec(expected, s0, schedule).value; s.event <==> s.calls >= expected
  }

  /**
   "Set once `expected` calls are recorded" holds of every such run exactly when at least
   one call is expected: a stub that expects none is not signalled before its first call.
   */
  lemma SignalsAtExpectedExactly(expected: int)
    ensures (forall s0, schedule :: SignalledAtExpected(expected, s0, schedule)) <==> expected >= 1
  {
    if expected >= 1 {
      forall s0, schedule
        ensures SignalledAtExpected(expected, s0, schedule)
      {
        if Initial(s0) && Settled(Exec(expected, s0, schedule)) {
          NoSignalLost(expected, s0, schedule);
        }
      }
    } else {
      assert !SignalledAtExpected(expected, State(map[], 0, false), []);
    }
  }
}
