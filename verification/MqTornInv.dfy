/**
 The ownership invariant while publications are under way: it survives every step but one
 that takes a half-shared handle away.
 */
module MqTornInv {
  import opened Util
  import opened MqProtocol
  import opened MqSteps
  import opened MqLocks
  import opened MqHandles
  import opened MqTorn

  // ----- stages ------------------------------------------------------------

  /** Ordinary steps start and finish no publication. */
  lemma SameStages(x: Torn, x': Torn, t: ThreadId)
    requires x'.done == x.done && Done(x, t) == 0 && t in x.s.threads && t in x'.s.threads
    requires x'.s.threads == x.s.threads[t := x'.s.threads[t]]
    ensures forall u, p :: Sharing(x', u, p) <==> Sharing(x, u, p)
    ensures forall u, p :: Announcing(x', u, p) <==> Announcing(x, u, p)
    ensures forall p :: HalfShared(x', p) <==> HalfShared(x, p)
    ensures forall p :: HalfPublished(x', p) <==> HalfPublished(x, p)
    ensures forall p :: HalfWritten(x', p) <==> HalfWritten(x, p)
  {
    assert forall u, p :: Sharing(x', u, p) <==> Sharing(x, u, p);
    assert forall u, p :: Announcing(x', u, p) <==> Announcing(x, u, p);
    assert forall u :: Done(x', u) == Done(x, u);
  }

  // ----- claims ------------------------------------------------------------

  /** Nobody lays claim to anything new. */
  ghost predicate NoNewClaims(x: Torn, x': Torn) {
    && (forall p, h :: Mine(x', p, h) ==> Mine(x, p, h))
    && (forall t, h :: Condemned(x'.s, t, h) ==> Condemned(x.s, t, h) && x'.s.threads[t].p == x.s.threads[t].p)
  }

  lemma ClaimsKept(x: Torn, x': Torn)
    requires Claims(x) && NoNewClaims(x, x') && x'.s.log == x.s.log && x'.s.creator == x.s.creator
    ensures Claims(x')
  {
    assert forall h :: Logged(x'.s, h) <==> Logged(x.s, h);
  }

  lemma FreshClaim(x: Torn, x': Torn, p: ProviderId, h: Handle)
    requires Claims(x) && h !in x.s.creator && x'.s.creator == x.s.creator[h := p] && x'.s.log == x.s.log
    requires x'.s.threads == x.s.threads
    requires forall q, g :: Mine(x', q, g) ==> Mine(x, q, g) || (q == p && g == h)
    ensures Claims(x')
  {
    assert forall g :: Logged(x'.s, g) <==> Logged(x.s, g);
    assert forall u, g :: Condemned(x'.s, u, g) <==> Condemned(x.s, u, g);
    assert !Logged(x.s, h);
  }

  lemma ClaimDisposed(x: Torn, x': Torn, t: ThreadId, h: Handle)
    requires Claims(x) && Disposes(x.s, x'.s, t, h)
    requires forall q, g :: Mine(x', q, g) ==> Mine(x, q, g)
    ensures Claims(x')
  {
    LoggedOneMore(x.s, x'.s, h, x.s.threads[t].p);
    assert Condemned(x.s, t, h);
    assert forall u, g :: Condemned(x'.s, u, g) <==> Condemned(x.s, u, g) && u != t;
  }

  lemma ClaimGivenUp(x: Torn, x': Torn, t: ThreadId)
    requires Typed(x.s) && Claims(x) && GivesUp(x.s, x'.s, t) && !Exposed(x, t) && !Skips(x.s, t)
    requires forall q, g :: Mine(x', q, g) ==> Mine(x, q, g) && q != x.s.threads[t].p
    ensures Claims(x')
  {
    var p := x.s.threads[t].p;
    assert forall g :: Logged(x'.s, g) <==> Logged(x.s, g);
    forall u: ThreadId, g: Handle | Condemned(x'.s, u, g)
      ensures if u == t then Mine(x, p, g) else Condemned(x.s, u, g)
    {
      assert u == t ==> x.s.providers[p].qm == Some(g) && !x.s.providers[p].shared;
    }
  }

  lemma ClaimQuit(x: Torn, x': Torn, t: ThreadId)
    requires Typed(x.s) && Claims(x) && Quits(x.s, x'.s, t) && !Exposed(x, t)
    requires forall q, g :: Mine(x', q, g) ==> Mine(x, q, g) && q != x.s.threads[t].p
    ensures Claims(x')
  {
    var p := x.s.threads[t].p;
    assert forall u, g :: Condemned(x'.s, u, g) <==> Condemned(x.s, u, g);
    if x.s.providers[p].shared {
      ClaimsKept(x, x');
    } else {
      LoggedOneMore(x.s, x'.s, x.s.providers[p].qm.value, p);
      assert Mine(x, p, x.s.providers[p].qm.value);
    }
  }

  lemma OrdinaryClaims(x: Torn, x': Torn, t: ThreadId)
    requires Typed(x.s) && Claims(x) && Ordinary(x.s, x'.s, t) && x'.done == x.done && Done(x, t) == 0
    requires !Exposed(x, t) && (x.s.threads[t].pc.Guard? && GivesUp(x.s, x'.s, t) ==> !Skips(x.s, t))
    ensures Claims(x')
  {
    hide Claims;
    SameStages(x, x', t);
    if Strolls(x.s, x'.s, t) || Dials(x.s, x'.s, t) || Evicts(x.s, x'.s, t) {
      ClaimsKept(x, x');
    } else if GivesUp(x.s, x'.s, t) {
      ClaimGivenUp(x, x', t);
    } else if Quits(x.s, x'.s, t) {
      ClaimQuit(x, x', t);
    } else {
      ClaimDisposed(x, x', t, x.s.threads[t].taken.value);
    }
  }

  // ----- places ------------------------------------------------------------

  /** A thread that gets past the check finds nothing: nobody else is connecting its provider. */
  lemma NothingFound(x: Torn, x': Torn, t: ThreadId)
    requires Typed(x.s) && Places(x) && LockInv(x'.s) && Strolls(x.s, x'.s, t) && Done(x, t) == 0
    requires AfterCheck(x'.s.threads[t].pc)
    ensures x.s.providers[x'.s.threads[t].p].qm.None?
  {
    var p := x'.s.threads[t].p;
    if x.s.providers[p].qm.Some? && !x.s.providers[p].connected {
      var u :| (Sharing(x, u, p) || Announcing(x, u, p)) && Done(x, u) == 1;
      OneConnects(x'.s, t, u);
    }
  }

  /** Ordinary steps only take handles away from providers. */
  ghost predicate OnlyClears(s: State, s': State) {
    forall p | p in s'.providers ::
      && p in s.providers
      && (s'.providers[p].qm.Some? ==> s'.providers[p] == s.providers[p])
      && (s'.providers[p].shared ==> s.providers[p].shared)
  }

  lemma OrdinaryClears(s: State, s': State, t: ThreadId)
    requires Ordinary(s, s', t)
    ensures OnlyClears(s, s') && t in s.threads && t in s'.threads && s'.threads == s.threads[t := s'.threads[t]]
    ensures Strolls(s, s', t) || (AfterCheck(s'.threads[t].pc) ==> AfterCheck(s.threads[t].pc))
    ensures Strolls(s, s', t) || s'.threads[t].p == s.threads[t].p
  {
  }

  lemma ProgressKept(x: Torn, x': Torn, t: ThreadId)
    requires Typed(x.s) && Typed(x'.s) && Progress(x) && OnlyClears(x.s, x'.s)
    requires t in x.s.threads && t in x'.s.threads && x'.s.threads == x.s.threads[t := x'.s.threads[t]]
    requires x'.done == x.done && Done(x, t) == 0
    ensures Progress(x')
  {
    assert forall u :: Done(x', u) == Done(x, u);
  }

  lemma VacantKept(x: Torn, x': Torn, t: ThreadId)
    requires Typed(x.s) && Typed(x'.s) && Vacant(x) && OnlyClears(x.s, x'.s)
    requires t in x.s.threads && t in x'.s.threads && x'.s.threads == x.s.threads[t := x'.s.threads[t]]
    requires x'.done == x.done && Done(x, t) == 0
    requires AfterCheck(x'.s.threads[t].pc) ==> x.s.providers[x'.s.threads[t].p].qm.None?
    ensures Vacant(x')
  {
    SameStages(x, x', t);
    assert forall u :: Done(x', u) == Done(x, u);
    hide HalfWritten;
  }

  lemma OrdinaryPlaces(x: Torn, x': Torn, t: ThreadId)
    requires Typed(x.s) && Typed(x'.s) && Places(x) && LockInv(x'.s)
    requires Ordinary(x.s, x'.s, t) && x'.done == x.done && Done(x, t) == 0
    ensures Places(x')
  {
    OrdinaryClears(x.s, x'.s, t);
    if Strolls(x.s, x'.s, t) && AfterCheck(x'.s.threads[t].pc) {
      NothingFound(x, x', t);
    }
    hide LockInv, Progress, Ordinary;
    ProgressKept(x, x', t);
    VacantKept(x, x', t);
  }

  // ----- fresh handles -----------------------------------------------------

  lemma DialFresh(x: Torn, x': Torn, t: ThreadId)
    requires Fresh(x) && Dials(x.s, x'.s, t) && x'.done == x.done && Done(x, t) == 0
    ensures Fresh(x')
  {
    assert forall u :: Done(x', u) == Done(x, u);
  }

  lemma OtherFresh(x: Torn, x': Torn, t: ThreadId)
    requires Fresh(x) && t in x.s.threads && t in x'.s.threads && x'.s.threads == x.s.threads[t := x'.s.threads[t]]
    requires x'.s.creator == x.s.creator && x'.s.nextHandle == x.s.nextHandle && x'.done == x.done
    requires !x'.s.threads[t].pc.Publish? && (x'.s.threads[t].pc.Adopt? ==> x'.s.threads[t].cand.Some?)
    ensures Fresh(x')
  {
    assert forall u :: Done(x', u) == Done(x, u);
  }

  lemma OrdinaryFresh(x: Torn, x': Torn, t: ThreadId)
    requires Typed(x.s) && Typed(x'.s) && Fresh(x)
    requires Ordinary(x.s, x'.s, t) && x'.done == x.done && Done(x, t) == 0
    ensures Fresh(x')
  {
    hide Fresh;
    if Dials(x.s, x'.s, t) {
      DialFresh(x, x', t);
    } else {
      OtherFresh(x, x', t);
    }
  }

  // ----- books -------------------------------------------------------------

  lemma AccountKept(x: Torn, x': Torn, t: ThreadId, h: Handle)
    requires Typed(x.s) && Typed(x'.s) && Ordinary(x.s, x'.s, t) && x'.done == x.done && Done(x, t) == 0
    requires Accounted(x, h)
    ensures Accounted(x', h)
  {
    SameStages(x, x', t);
    var p := x.s.creator[h];
    if Quits(x.s, x'.s, t) {
      QuitKeepsLog(x.s, x'.s, t, h);
    } else if GivesUp(x.s, x'.s, t) {
      if Own(x, p, h) && p == x.s.threads[t].p {
        assert Condemned(x'.s, t, h);
      }
    } else if Strolls(x.s, x'.s, t) || Dials(x.s, x'.s, t) || Evicts(x.s, x'.s, t) {
    } else {
      LoggedOneMore(x.s, x'.s, x.s.threads[t].taken.value, x.s.threads[t].p);
    }
    assert forall u :: Condemned(x.s, u, h) && u != t ==> Condemned(x'.s, u, h);
    assert !Disposes(x.s, x'.s, t, h) ==> Logged(x.s, h) ==> Logged(x'.s, h);
  }

  lemma QuitKeepsLog(s: State, s': State, t: ThreadId, h: Handle)
    requires Quits(s, s', t)
    ensures Logged(s, h) ==> Logged(s', h)
    ensures Owner(s, s.threads[t].p, h) ==> Logged(s', h)
  {
    var p := s.threads[t].p;
    if !s.providers[p].shared {
      LoggedOneMore(s, s', s.providers[p].qm.value, p);
    }
  }

  lemma OrdinaryBooks(x: Torn, x': Torn, t: ThreadId)
    requires Typed(x.s) && Typed(x'.s) && Books(x)
    requires Ordinary(x.s, x'.s, t) && x'.done == x.done && Done(x, t) == 0
    ensures Books(x')
  {
    hide Accounted;
    forall h | Accounted(x, h)
      ensures Accounted(x', h)
    {
      AccountKept(x, x', t, h);
    }
  }

  /** Ordinary steps keep the invariant unless they are exposed. */
  lemma OrdinaryKeeps(x: Torn, t: ThreadId, c: Choice)
    requires Typed(x.s) && TornInv(x) && TornStep(x, t, c).Some? && !Publishing(x.s.threads[t].pc) && !Exposed(x, t)
    ensures TornInv(TornStep(x, t, c).value)
  {
    hide Claims, Fresh, Books, LockInv;
    var x' := TornStep(x, t, c).value;
    StepIsOrdinary(x.s, t, c);
    TornLocks(x, t, c);
    OrdinaryPlaces(x, x', t);
    OrdinaryFresh(x, x', t);
    OrdinaryBooks(x, x', t);
    if x.s.threads[t].pc.Guard? {
      GuardIsOrdinary(x.s, t, c);
    }
    OrdinaryClaims(x, x', t);
  }
}
