/**
 The ownership invariant through the single assignments of a publication, and with that
 through every step that is not exposed.
 */
module MqTornSteps {
  import opened MqProtocol
  import opened MqSteps
  import opened MqLocks
  import opened MqHandles
  import opened MqTorn
  import opened MqTornInv

  /** No other thread is connecting the provider that thread `t` is connecting. */
  lemma OnlyOne(x: Torn, t: ThreadId)
    requires LockInv(x.s) && t in x.s.threads && Publishing(x.s.threads[t].pc)
    ensures var p := x.s.threads[t].p;
      && (forall u | u in x.s.threads && AfterCheck(x.s.threads[u].pc) && x.s.threads[u].p == p :: u == t)
      && (forall u | Sharing(x, u, p) || Announcing(x, u, p) :: u == t)
  {
    var p := x.s.threads[t].p;
    forall u | u in x.s.threads && AfterCheck(x.s.threads[u].pc) && x.s.threads[u].p == p
      ensures u == t
    {
      OneConnects(x.s, t, u);
    }
  }

  lemma WriteStages(x: Torn, x': Torn, t: ThreadId)
    requires LockInv(x.s) && Writes(x, x', t)
    ensures var th := x.s.threads[t];
      && (forall q :: HalfShared(x', q) <==> if q == th.p then th.pc.Adopt? else HalfShared(x, q))
      && (forall q :: HalfPublished(x', q) <==> if q == th.p then th.pc.Publish? else HalfPublished(x, q))
      && (forall q | q != th.p :: HalfWritten(x, q) ==> HalfWritten(x', q))
      && (Done(x', t) == 1 ==> HalfWritten(x', th.p))
  {
    var th := x.s.threads[t];
    OnlyOne(x, t);
    OnlyOne(x', t);
    assert forall u | u != t :: Done(x', u) == Done(x, u);
    assert forall u, q | u != t :: Sharing(x', u, q) <==> Sharing(x, u, q);
    assert forall u, q | u != t :: Announcing(x', u, q) <==> Announcing(x, u, q);
    assert Sharing(x', t, th.p) || Announcing(x', t, th.p);
  }

  lemma LeaveStages(x: Torn, x': Torn, t: ThreadId)
    requires LockInv(x.s) && Leaves(x, x', t)
    ensures var p := x.s.threads[t].p;
      && (forall q :: HalfShared(x', q) <==> q != p && HalfShared(x, q))
      && (forall q :: HalfPublished(x', q) <==> q != p && HalfPublished(x, q))
      && (forall q | q != p :: HalfWritten(x, q) ==> HalfWritten(x', q))
  {
    OnlyOne(x, t);
    assert forall u | u != t :: Done(x', u) == Done(x, u);
    assert forall u, q | u != t :: Sharing(x', u, q) <==> Sharing(x, u, q);
    assert forall u, q | u != t :: Announcing(x', u, q) <==> Announcing(x, u, q);
  }

  /** Before the last assignment, the stage of thread `t` is the stage of its provider. */
  lemma StageOfOne(x: Torn, t: ThreadId)
    requires LockInv(x.s) && t in x.s.threads && Publishing(x.s.threads[t].pc)
    ensures var th := x.s.threads[t];
      && (HalfShared(x, th.p) <==> th.pc.Adopt? && Done(x, t) > 0)
      && (HalfPublished(x, th.p) <==> th.pc.Publish? && Done(x, t) > 0)
      && (HalfWritten(x, th.p) <==> Done(x, t) == 1)
  {
    OnlyOne(x, t);
    assert Done(x, t) > 0 ==> Sharing(x, t, x.s.threads[t].p) || Announcing(x, t, x.s.threads[t].p);
  }

  lemma LeaveThreads(x: Torn, x': Torn, t: ThreadId)
    requires Leaves(x, x', t)
    ensures Done(x', t) == 0 && !AfterCheck(x'.s.threads[t].pc) && x'.s.threads[t].p == x.s.threads[t].p
    ensures forall u | u != t :: Done(x', u) == Done(x, u)
    ensures forall u | u != t && u in x'.s.threads :: u in x.s.threads && x'.s.threads[u] == x.s.threads[u]
    ensures forall u | u in x.s.threads :: u in x'.s.threads
  {
  }

  // ----- places ------------------------------------------------------------

  lemma WriteProgress(x: Torn, x': Torn, t: ThreadId)
    requires LockInv(x.s) && Writes(x, x', t) && Places(x)
    requires var th := x.s.threads[t]; var me, me' := x.s.providers[th.p], x'.s.providers[th.p];
      && Done(x, t) < (if th.pc.Adopt? then 2 else 3)
      && (me'.qm == if Done(x, t) == 0 then th.cand else me.qm)
      && (Done(x, t) == 1 ==> me'.connected) && (Done(x, t) == 2 ==> me'.connected == me.connected && !me'.shared)
    ensures Progress(x')
  {
    hide LockInv, HalfWritten, HalfShared, HalfPublished, Sharing, Announcing;
    WriteStages(x, x', t);
    StageOfOne(x, t);
    OnlyOne(x, t);
    assert forall u | u != t :: Done(x', u) == Done(x, u);
  }

  lemma WriteVacant(x: Torn, x': Torn, t: ThreadId)
    requires LockInv(x.s) && Writes(x, x', t) && Places(x)
    requires var th := x.s.threads[t]; var me, me' := x.s.providers[th.p], x'.s.providers[th.p];
      && Done(x, t) < (if th.pc.Adopt? then 2 else 3)
      && (me'.qm == if Done(x, t) == 0 then th.cand else me.qm)
      && (Done(x, t) == 1 ==> me'.connected) && (Done(x, t) == 2 ==> me'.connected == me.connected && !me'.shared)
    ensures Vacant(x')
  {
    hide LockInv, HalfWritten, HalfShared, HalfPublished, Sharing, Announcing;
    WriteStages(x, x', t);
    StageOfOne(x, t);
    OnlyOne(x, t);
    assert forall u | u != t :: Done(x', u) == Done(x, u);
  }

  lemma WritePlaces(x: Torn, x': Torn, t: ThreadId)
    requires LockInv(x.s) && Writes(x, x', t) && Places(x)
    requires var th := x.s.threads[t]; var me, me' := x.s.providers[th.p], x'.s.providers[th.p];
      && Done(x, t) < (if th.pc.Adopt? then 2 else 3)
      && (me'.qm == if Done(x, t) == 0 then th.cand else me.qm)
      && (Done(x, t) == 1 ==> me'.connected) && (Done(x, t) == 2 ==> me'.connected == me.connected && !me'.shared)
    ensures Places(x')
  {
    WriteProgress(x, x', t);
    WriteVacant(x, x', t);
  }

  lemma LeaveProgress(x: Torn, x': Torn, t: ThreadId)
    requires LockInv(x.s) && Leaves(x, x', t) && Places(x) && Done(x, t) > 1
    requires var p := x.s.threads[t].p; var me, me' := x.s.providers[p], x'.s.providers[p];
      me'.qm == me.qm && me'.connected == me.connected
    ensures Progress(x')
  {
    LeaveThreads(x, x', t);
    hide LockInv, HalfWritten, HalfShared, HalfPublished, Sharing, Announcing, AfterConnect, Done;
    LeaveStages(x, x', t);
    StageOfOne(x, t);
    OnlyOne(x, t);
  }

  lemma LeaveVacant(x: Torn, x': Torn, t: ThreadId)
    requires LockInv(x.s) && Leaves(x, x', t) && Places(x) && Done(x, t) > 1
    requires var p := x.s.threads[t].p; var me, me' := x.s.providers[p], x'.s.providers[p];
      me'.qm == me.qm && me'.connected == me.connected
    ensures Vacant(x')
  {
    LeaveThreads(x, x', t);
    hide LockInv, HalfWritten, HalfShared, HalfPublished, Sharing, Announcing, AfterConnect, Done;
    LeaveStages(x, x', t);
    StageOfOne(x, t);
    OnlyOne(x, t);
  }

  lemma LeavePlaces(x: Torn, x': Torn, t: ThreadId)
    requires LockInv(x.s) && Leaves(x, x', t) && Places(x) && Done(x, t) > 1
    requires var p := x.s.threads[t].p; var me, me' := x.s.providers[p], x'.s.providers[p];
      me'.qm == me.qm && me'.connected == me.connected
    ensures Places(x')
  {
    LeaveProgress(x, x', t);
    LeaveVacant(x, x', t);
  }

  // ----- fresh handles -----------------------------------------------------

  lemma WriteFresh(x: Torn, x': Torn, t: ThreadId)
    requires LockInv(x.s) && Writes(x, x', t) && Fresh(x)
    requires var th := x.s.threads[t];
      x'.s.creator == if th.pc.Publish? && Done(x, t) == 0 then x.s.creator[th.cand.value := th.p] else x.s.creator
    ensures Fresh(x')
  {
    assert forall u | u != t :: Done(x', u) == Done(x, u);
  }

  lemma LeaveFresh(x: Torn, x': Torn, t: ThreadId)
    requires Leaves(x, x', t) && Fresh(x)
    ensures Fresh(x')
  {
    assert forall u | u != t :: Done(x', u) == Done(x, u);
  }

  // ----- claims ------------------------------------------------------------

  lemma SameCondemned(s: State, s': State, t: ThreadId)
    requires t in s.threads && Publishing(s.threads[t].pc)
    requires s'.threads == s.threads || s'.threads == s.threads[t := AfterConnect(s.threads[t], true)]
    ensures forall u, h :: Condemned(s', u, h) <==> Condemned(s, u, h)
    ensures forall u, h :: Condemned(s', u, h) ==> s'.threads[u].p == s.threads[u].p
  {
  }

  /** Writing `qm` to share a handle, and all later assignments, make no new claim. */
  lemma WriteClaims(x: Torn, x': Torn, t: ThreadId)
    requires LockInv(x.s) && Writes(x, x', t) && Claims(x) && x'.s.creator == x.s.creator
    requires var p := x.s.threads[t].p;
      x.s.threads[t].pc.Adopt? || (Done(x, t) > 0 && x'.s.providers[p].qm == x.s.providers[p].qm)
    ensures Claims(x')
  {
    hide Claims;
    WriteStages(x, x', t);
    StageOfOne(x, t);
    SameCondemned(x.s, x'.s, t);
    ClaimsKept(x, x');
  }

  lemma FirstWriteClaims(x: Torn, x': Torn, t: ThreadId)
    requires LockInv(x.s) && Writes(x, x', t) && Claims(x) && x.s.threads[t].pc.Publish? && x.s.threads[t].cand.Some?
    requires var th := x.s.threads[t];
      && th.cand.value !in x.s.creator && x'.s.creator == x.s.creator[th.cand.value := th.p]
      && x'.s.providers[th.p].qm == th.cand
    ensures Claims(x')
  {
    hide Claims;
    WriteStages(x, x', t);
    FreshClaim(x, x', x.s.threads[t].p, x.s.threads[t].cand.value);
  }

  lemma LeaveClaims(x: Torn, x': Torn, t: ThreadId)
    requires LockInv(x.s) && Leaves(x, x', t) && Claims(x)
    requires var p := x.s.threads[t].p;
      x'.s.providers[p].shared || (x.s.threads[t].pc.Publish? && Done(x, t) > 0
        && x'.s.providers[p] == x.s.providers[p])
    ensures Claims(x')
  {
    hide Claims;
    LeaveStages(x, x', t);
    StageOfOne(x, t);
    SameCondemned(x.s, x'.s, t);
    ClaimsKept(x, x');
  }

  // ----- books -------------------------------------------------------------

  lemma AccountsStay(x: Torn, x': Torn, t: ThreadId)
    requires t in x.s.threads && Publishing(x.s.threads[t].pc) && x'.s.log == x.s.log
    requires x'.s.threads == x.s.threads || x'.s.threads == x.s.threads[t := AfterConnect(x.s.threads[t], true)]
    requires forall h | h in x.s.creator :: h in x'.s.creator && x'.s.creator[h] == x.s.creator[h]
    requires forall p, h | h in x.s.creator :: Own(x, p, h) ==> Own(x', p, h)
    ensures forall h :: Accounted(x, h) ==> Accounted(x', h)
  {
    SameCondemned(x.s, x'.s, t);
    forall h | Accounted(x, h)
      ensures Accounted(x', h)
    {
      assert Logged(x'.s, h) <==> Logged(x.s, h);
      assert forall u :: Condemned(x.s, u, h) ==> Condemned(x'.s, u, h);
    }
  }

  lemma WriteBooks(x: Torn, x': Torn, t: ThreadId)
    requires LockInv(x.s) && Writes(x, x', t) && Places(x) && Books(x)
    requires var th := x.s.threads[t]; var me, me' := x.s.providers[th.p], x'.s.providers[th.p];
      && (Done(x, t) > 0 ==> me'.qm == me.qm && (me'.shared ==> me.shared))
    requires forall h | h in x.s.creator :: h in x'.s.creator && x'.s.creator[h] == x.s.creator[h]
    ensures Books(x')
  {
    WriteStages(x, x', t);
    StageOfOne(x, t);
    hide Accounted;
    AccountsStay(x, x', t);
  }

  lemma LeaveBooks(x: Torn, x': Torn, t: ThreadId)
    requires LockInv(x.s) && Leaves(x, x', t) && Books(x)
    requires var p := x.s.threads[t].p;
      (x.s.threads[t].pc.Adopt? && Done(x, t) > 0) || x'.s.providers[p] == x.s.providers[p]
    requires forall k | k in x'.s.cache ::
      (k in x.s.cache && x'.s.cache[k] == x.s.cache[k]) || Accounted(x', x'.s.cache[k])
    ensures Books(x')
  {
    LeaveStages(x, x', t);
    StageOfOne(x, t);
    hide Accounted;
    AccountsStay(x, x', t);
  }

  /** The handle that goes into the cache at last is its creator's. */
  lemma CachedIsAccounted(x: Torn, x': Torn, t: ThreadId)
    requires LockInv(x.s) && Leaves(x, x', t) && Places(x) && Claims(x) && x.s.threads[t].pc.Publish? && Done(x, t) == 3
    requires x'.s.providers == x.s.providers && x.s.providers[x.s.threads[t].p].qm.Some?
    ensures Accounted(x', x.s.providers[x.s.threads[t].p].qm.value)
  {
    var p := x.s.threads[t].p;
    StageOfOne(x, t);
    LeaveStages(x, x', t);
    assert Mine(x, p, x.s.providers[p].qm.value);
  }

  // ----- every step --------------------------------------------------------

  lemma ShareKeeps(x: Torn, t: ThreadId)
    requires Typed(x.s) && TornInv(x) && t in x.s.threads && x.s.threads[t].pc.Adopt?
    ensures TornInv(ShareNext(x, t))
  {
    var x' := ShareNext(x, t);
    TornLocks(x, t, Go);
    hide Claims, Fresh, Books, LockInv, ShareNext;
    if Done(x, t) < 2 {
      ShareWrites(x, t);
      WritePlaces(x, x', t);
      WriteFresh(x, x', t);
      WriteClaims(x, x', t);
      WriteBooks(x, x', t);
    } else {
      ShareLeaves(x, t);
      LeavePlaces(x, x', t);
      LeaveFresh(x, x', t);
      LeaveClaims(x, x', t);
      LeaveBooks(x, x', t);
    }
  }

  lemma PublishWriteKeeps(x: Torn, t: ThreadId)
    requires Typed(x.s) && TornInv(x) && t in x.s.threads && x.s.threads[t].pc.Publish? && x.s.threads[t].cand.Some?
    requires Done(x, t) < 3 && PublishNext(x, t).Some?
    ensures TornInv(PublishNext(x, t).value)
  {
    var x' := PublishNext(x, t).value;
    TornLocks(x, t, Go);
    PublishWrites(x, t);
    hide Claims, Books, LockInv, Places, PublishNext;
    WritePlaces(x, x', t);
    WriteFresh(x, x', t);
    WriteBooks(x, x', t);
    if Done(x, t) == 0 {
      FirstWriteClaims(x, x', t);
    } else {
      WriteClaims(x, x', t);
    }
  }

  lemma PublishLeaveKeeps(x: Torn, t: ThreadId)
    requires Typed(x.s) && TornInv(x) && t in x.s.threads && x.s.threads[t].pc.Publish? && x.s.threads[t].cand.Some?
    requires Done(x, t) >= 3 && PublishNext(x, t).Some?
    ensures TornInv(PublishNext(x, t).value)
  {
    var x' := PublishNext(x, t).value;
    TornLocks(x, t, Go);
    PublishLeaves(x, t);
    hide Claims, Fresh, Books, LockInv, PublishNext;
    LeavePlaces(x, x', t);
    LeaveFresh(x, x', t);
    LeaveClaims(x, x', t);
    if x.s.providers[x.s.threads[t].p].qm.Some? {
      CachedIsAccounted(x, x', t);
    }
    LeaveBooks(x, x', t);
  }

  lemma PublishKeeps(x: Torn, t: ThreadId)
    requires Typed(x.s) && TornInv(x) && t in x.s.threads && x.s.threads[t].pc.Publish? && x.s.threads[t].cand.Some?
    requires PublishNext(x, t).Some?
    ensures TornInv(PublishNext(x, t).value)
  {
    if Done(x, t) < 3 {
      PublishWriteKeeps(x, t);
    } else {
      PublishLeaveKeeps(x, t);
    }
  }

  /** Every step keeps the invariant, ordinary or torn, unless it is exposed. */
  lemma TornStepKeeps(x: Torn, t: ThreadId, c: Choice)
    requires Typed(x.s) && TornInv(x) && TornStep(x, t, c).Some? && !Exposed(x, t)
    ensures TornInv(TornStep(x, t, c).value)
  {
    hide TornInv;
    if x.s.threads[t].pc.Adopt? {
      ShareKeeps(x, t);
    } else if x.s.threads[t].pc.Publish? {
      PublishKeeps(x, t);
    } else {
      OrdinaryKeeps(x, t, c);
    }
  }
}
