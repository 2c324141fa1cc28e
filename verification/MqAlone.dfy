/**
 Runs in which one thread moves alone.  Only the driver's answers are open then: the
 answers decide the run.
 */
module MqAlone {
  import opened Util
  import opened MqProtocol

  lemma {:induction false} ExecAppend(s: State, a: seq<(ThreadId, Choice)>, b: seq<(ThreadId, Choice)>)
    requires Typed(s) && Exec(s, a).Some? && Exec(Exec(s, a).value, b).Some?
    ensures Exec(s, a + b) == Exec(Exec(s, a).value, b)
  {
    hide Step;
    if b == [] {
      assert a + b == a;
    } else {
      var last := |b| - 1;
      ExecStep(Exec(s, a).value, b);
      ExecStep(s, a + b);
      ExecAppend(s, a, b[..last]);
      assert (a + b)[..|a + b| - 1] == a + b[..last];
    }
  }

  /** What the driver answers when a choice is made. */
  function Said(c: Choice): seq<Choice> {
    if c == Good || c == Lost || c == Bad then [c] else []
  }

  /** Everything the driver answers during a schedule. */
  function Answers(schedule: seq<(ThreadId, Choice)>): seq<Choice> {
    if schedule == [] then []
    else Answers(schedule[..|schedule| - 1]) + Said(schedule[|schedule| - 1].1)
  }

  /** Thread `t` moves alone, within one call. */
  ghost predicate Alone(schedule: seq<(ThreadId, Choice)>, t: ThreadId, call: Call, p: ProviderId) {
    && schedule != [] && schedule[0] == (t, Begin(call, p))
    && forall i :: 0 < i < |schedule| ==> schedule[i].0 == t && !schedule[i].1.Begin?
  }

  /** The state with thread `t` at `th` and the given locks taken. */
  function At(s: State, t: ThreadId, th: Thread, locks: map<LockName, ThreadId>): State {
    s.(threads := s.threads[t := th], locks := locks)
  }

  /** How far thread `t` has come alone with its call, and what the driver has answered it. */
  datatype Solo = Solo(start: State, t: ThreadId, call: Call, p: ProviderId, schedule: seq<(ThreadId, Choice)>,
    answers: seq<Choice>, s: State, th: Thread, locks: map<LockName, ThreadId>)

  ghost predicate Reached(r: Solo) {
    && Typed(r.start) && Alone(r.schedule, r.t, r.call, r.p) && Answers(r.schedule) == r.answers
    && Exec(r.start, r.schedule) == Some(At(r.s, r.t, r.th, r.locks))
    && Typed(r.s) && r.t in r.s.threads && r.th.p in r.s.providers && NoLock !in r.locks
  }

  /** From `r` the thread has gone on to `r'`, where the rest of the state is `s`. */
  ghost predicate GoesOn(r: Solo, r': Solo, s: State, th: Thread, locks: map<LockName, ThreadId>, said: seq<Choice>) {
    Reached(r') && r' == r.(schedule := r'.schedule, answers := r.answers + said, s := s, th := th, locks := locks)
  }

  /** What an effect does beyond the thread and the locks. */
  function Rest(s: State, t: ThreadId, e: Effect): State {
    Apply(s, t, e).(threads := s.threads, locks := s.locks)
  }

  lemma Extended(r: Solo, c: Choice, m: State)
    requires Reached(r) && !c.Begin?
    requires Typed(At(r.s, r.t, r.th, r.locks)) && Step(At(r.s, r.t, r.th, r.locks), r.t, c) == Some(m)
    ensures var schedule := r.schedule + [(r.t, c)];
      && Alone(schedule, r.t, r.call, r.p) && Answers(schedule) == r.answers + Said(c)
      && Exec(r.start, schedule) == Some(m)
  {
    hide Step;
    var schedule := r.schedule + [(r.t, c)];
    assert schedule[..|schedule| - 1] == r.schedule;
    ExecStep(r.start, schedule);
  }

  lemma StepAt(s: State, t: ThreadId, th: Thread, locks: map<LockName, ThreadId>, c: Choice, e: Effect)
    requires Typed(s) && t in s.threads && th.pc != Idle && th.p in s.providers
    requires Act(th, View(s, th.p), c) == Some(e) && e.take !in locks
    ensures Typed(At(s, t, th, locks))
    ensures Step(At(s, t, th, locks), t, c) == Some(Apply(At(s, t, th, locks), t, e))
  {
    hide Act, Apply;
    assert View(At(s, t, th, locks), th.p) == View(s, th.p);
  }

  lemma ApplyAt(s: State, t: ThreadId, th: Thread, locks: map<LockName, ThreadId>, e: Effect)
    requires Typed(s) && t in s.threads && th.p in s.providers && e.th.p == th.p
    ensures Apply(At(s, t, th, locks), t, e) == At(Rest(s, t, e), t, e.th, Relock(locks, t, e))
    ensures Typed(Rest(s, t, e)) && t in Rest(s, t, e).threads && th.p in Rest(s, t, e).providers
  {
    assert s.threads[t := th][t := e.th] == s.threads[t := e.th];
  }

  /** The thread takes one more step. */
  lemma Acts(r: Solo, c: Choice, e: Effect) returns (r': Solo)
    requires Reached(r) && !c.Begin? && r.th.pc != Idle
    requires Act(r.th, View(r.s, r.th.p), c) == Some(e) && e.take !in r.locks
    ensures GoesOn(r, r', Rest(r.s, r.t, e), e.th, Relock(r.locks, r.t, e), Said(c))
  {
    ActStays(r.th, View(r.s, r.th.p), c);
    StepAt(r.s, r.t, r.th, r.locks, c, e);
    ApplyAt(r.s, r.t, r.th, r.locks, e);
    hide Act, Step, Apply, Rest, Exec, Answers;
    Extended(r, c, Apply(At(r.s, r.t, r.th, r.locks), r.t, e));
    r' := r.(schedule := r.schedule + [(r.t, c)], answers := r.answers + Said(c), s := Rest(r.s, r.t, e),
        th := e.th, locks := Relock(r.locks, r.t, e));
  }

  /** The thread moves on without touching anything shared but locks. */
  lemma Moves(r: Solo, c: Choice, e: Effect) returns (r': Solo)
    requires Reached(r) && !c.Begin? && r.th.pc != Idle
    requires var v := View(r.s, r.th.p);
      && Act(r.th, v, c) == Some(e) && e.take !in r.locks
      && e == Quiet(e.th, v).(take := e.take, drop := e.drop, drop2 := e.drop2)
    ensures GoesOn(r, r', r.s, e.th, Relock(r.locks, r.t, e), Said(c))
  {
    ActStays(r.th, View(r.s, r.th.p), c);
    r' := Acts(r, c, e);
    hide Act;
    assert r.s.providers[r.th.p := r.s.providers[r.th.p]] == r.s.providers;
    assert Rest(r.s, r.t, e) == r.s;
  }

  lemma TakesLock(r: Solo, n: LockName, th: Thread) returns (r': Solo)
    requires Reached(r) && r.th.pc != Idle && n != NoLock && n !in r.locks
    requires Act(r.th, View(r.s, r.th.p), Go) == Some(Taking(th, View(r.s, r.th.p), n))
    ensures GoesOn(r, r', r.s, th, r.locks[n := r.t], [])
  {
    var e := Taking(th, View(r.s, r.th.p), n);
    r' := Moves(r, Go, e);
    assert Relock(r.locks, r.t, e) == r.locks[n := r.t];
    assert r.answers + [] == r.answers;
  }

  lemma DropsLock(r: Solo, n: LockName, th: Thread) returns (r': Solo)
    requires Reached(r) && r.th.pc != Idle && n != NoLock
    requires Act(r.th, View(r.s, r.th.p), Go) == Some(Quiet(th, View(r.s, r.th.p)).(drop := n))
    ensures GoesOn(r, r', r.s, th, r.locks - {n}, [])
  {
    var e := Quiet(th, View(r.s, r.th.p)).(drop := n);
    r' := Moves(r, Go, e);
    assert Relock(r.locks, r.t, e) == r.locks - {n};
    assert r.answers + [] == r.answers;
  }

  /** The thread moves on, and that is all. */
  lemma JustMoves(r: Solo, c: Choice, th: Thread) returns (r': Solo)
    requires Reached(r) && r.th.pc != Idle && !c.Begin?
    requires Act(r.th, View(r.s, r.th.p), c) == Some(Quiet(th, View(r.s, r.th.p)))
    ensures GoesOn(r, r', r.s, th, r.locks, Said(c))
  {
    var e := Quiet(th, View(r.s, r.th.p));
    r' := Moves(r, c, e);
    assert Relock(r.locks, r.t, e) == r.locks;
  }

  /** A thread that is not in a call begins one. */
  lemma Begins(s: State, t: ThreadId, call: Call, p: ProviderId) returns (r: Solo)
    requires Typed(s) && t in s.threads && s.threads[t].pc.Idle? && p in s.providers && NoLock !in s.locks
    ensures Reached(r)
    ensures r == Solo(s, t, call, p, r.schedule, [], s, NewCall(call, p), s.locks)
  {
    var c := Begin(call, p);
    var schedule := [(t, c)];
    ExecStep(s, schedule);
    assert schedule[..0] == [];
    assert s.providers[p := s.providers[p]] == s.providers;
    var e := Quiet(NewCall(call, p), View(s, p));
    assert Relock(s.locks, t, e) == s.locks;
    assert Apply(s, t, e) == At(s, t, NewCall(call, p), s.locks);
    r := Solo(s, t, call, p, schedule, [], s, NewCall(call, p), s.locks);
  }

  // ----- the answers decide the run ----------------------------------------

  /** A thread in the middle of a call waits for the driver's answer or goes its only way. */
  lemma OneAct(th: Thread, v: Sight, c: Choice, c': Choice)
    requires !c.Begin? && !c'.Begin? && Act(th, v, c).Some? && Act(th, v, c').Some?
    ensures th.pc != Idle && (c == c' || (Said(c) == [c] && Said(c') == [c']))
  {
    match th.pc
    case Adopt | Dial | Publish =>
    case Open | Transfer =>
    case _ =>
  }

  lemma OneWay(s: State, t: ThreadId, c: Choice, c': Choice)
    requires Typed(s) && !c.Begin? && !c'.Begin?
    requires Step(s, t, c).Some? && Step(s, t, c').Some?
    ensures s.threads[t].pc != Idle && (c == c' || (Said(c) == [c] && Said(c') == [c']))
  {
    hide Act;
    OneAct(s.threads[t], View(s, s.threads[t].p), c, c');
  }

  lemma {:induction false} ExecPrefix(s: State, schedule: seq<(ThreadId, Choice)>, n: nat)
    requires Typed(s) && n < |schedule| && Exec(s, schedule).Some?
    ensures Exec(s, schedule[..n]).Some? && Typed(Exec(s, schedule[..n]).value)
    ensures Step(Exec(s, schedule[..n]).value, schedule[n].0, schedule[n].1).Some?
    ensures Exec(s, schedule[..n + 1]) == Step(Exec(s, schedule[..n]).value, schedule[n].0, schedule[n].1)
  {
    hide Step;
    var last := |schedule| - 1;
    ExecStep(s, schedule);
    if n == last {
      assert schedule[..n + 1] == schedule;
    } else {
      ExecPrefix(s, schedule[..last], n);
      assert schedule[..last][..n] == schedule[..n];
      assert schedule[..last][..n + 1] == schedule[..n + 1];
    }
  }

  lemma {:induction false} AnswersPrefix(schedule: seq<(ThreadId, Choice)>, n: nat)
    requires n < |schedule|
    ensures Answers(schedule[..n]) + Said(schedule[n].1) <= Answers(schedule)
  {
    var last := |schedule| - 1;
    if n == last {
    } else {
      AnswersPrefix(schedule[..last], n);
      assert schedule[..last][..n] == schedule[..n];
    }
  }

  lemma SameNext(before: seq<Choice>, c: Choice, c': Choice, all: seq<Choice>)
    requires before + [c] <= all && before + [c'] <= all
    ensures c == c'
  {
    assert all[|before|] == c;
  }

  /** Two runs of one call under the same answers do not part. */
  lemma {:induction false} SameSoFar(s: State, t: ThreadId, call: Call, p: ProviderId,
      a: seq<(ThreadId, Choice)>, b: seq<(ThreadId, Choice)>, n: nat)
    requires Typed(s) && Alone(a, t, call, p) && Alone(b, t, call, p) && Answers(a) == Answers(b)
    requires Exec(s, a).Some? && Exec(s, b).Some? && n <= |a| && n <= |b|
    ensures a[..n] == b[..n]
  {
    hide Exec, Step;
    if n <= 1 {
    } else {
      var i := n - 1;
      SameSoFar(s, t, call, p, a, b, i);
      ExecPrefix(s, a, i);
      ExecPrefix(s, b, i);
      OneWay(Exec(s, a[..i]).value, t, a[i].1, b[i].1);
      AnswersPrefix(a, i);
      AnswersPrefix(b, i);
      if Said(a[i].1) == [a[i].1] && Said(b[i].1) == [b[i].1] {
        SameNext(Answers(a[..i]), a[i].1, b[i].1, Answers(a));
      }
      assert a[..n] == a[..i] + [a[i]] && b[..n] == b[..i] + [b[i]];
    }
  }

  /** A call that has come to an end does not go on. */
  lemma NotLonger(s: State, t: ThreadId, call: Call, p: ProviderId, a: seq<(ThreadId, Choice)>,
      b: seq<(ThreadId, Choice)>)
    requires Typed(s) && Alone(a, t, call, p) && Alone(b, t, call, p) && Answers(a) == Answers(b)
    requires Exec(s, a).Some? && t in Exec(s, a).value.threads && Exec(s, a).value.threads[t].pc.Idle?
    requires Exec(s, b).Some?
    ensures |b| <= |a|
  {
    hide Exec, Step, Answers;
    if |a| < |b| {
      SameSoFar(s, t, call, p, a, b, |a|);
      ExecPrefix(s, b, |a|);
      assert a[..|a|] == a;
      OneWay(Exec(s, a).value, t, b[|a|].1, b[|a|].1);
    }
  }

  /** One call of a thread that moves alone has one run only, once the driver's answers are given. */
  lemma AnswersDecide(s: State, t: ThreadId, call: Call, p: ProviderId, a: seq<(ThreadId, Choice)>,
      b: seq<(ThreadId, Choice)>)
    requires Typed(s) && Alone(a, t, call, p) && Alone(b, t, call, p) && Answers(a) == Answers(b)
    requires Exec(s, a).Some? && t in Exec(s, a).value.threads && Exec(s, a).value.threads[t].pc.Idle?
    requires Exec(s, b).Some? && t in Exec(s, b).value.threads && Exec(s, b).value.threads[t].pc.Idle?
    ensures a == b
  {
    hide Exec, Step, Answers, Alone;
    NotLonger(s, t, call, p, a, b);
    NotLonger(s, t, call, p, b, a);
    SameSoFar(s, t, call, p, a, b, |a|);
    assert a[..|a|] == a && b[..|b|] == b;
  }
}
