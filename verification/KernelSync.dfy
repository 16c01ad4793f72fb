/** The atomic steps of `sema_down`, `sema_up`, `sema_try_down`, and of the lock operations that follow
    or precede them, each with the proof that it keeps the invariant. */
module KernelSync {
  import opened KernelLists
  import opened KernelState
  import opened KernelKeep
  import opened KernelSwitch

  /** The current thread may be in the loop of `sema_down(s)`: it calls it now, or was woken inside it. */
  ghost predicate MayDown(k: State, s: Sema) {
    && k.current in k.th && k.current != k.idle && s in k.waiters && s in k.value
    && (k.th[k.current].pc.Normal? || k.th[k.current].pc == Downing(s))
  }

  /** `pending` is the current thread if it has just registered for the lock of `s`, or nobody. */
  ghost predicate PendingFor(k: State, s: Sema, pending: Option<Tid>) {
    pending == None || (pending == Some(k.current) && k.current in k.th && k.th[k.current].waiting_lock.Some?
                        && s == OfLock(k.th[k.current].waiting_lock.value))
  }

  // ----- the waiting branch of sema_down

  ghost function BlockedOn(k: State, s: Sema): State
    requires k.current in k.th && s in k.waiters
  {
    k.(waiters := k.waiters[s := k.waiters[s] + [k.current]],
       th := k.th[k.current := k.th[k.current].(status := Blocked, pc := Downing(s))])
  }

  lemma BlockOnKeeps(k: State, s: Sema, pending: Option<Tid>, from: int)
    requires SoundFrom(k, true, from) && MayDown(k, s) && PendingFor(k, s, pending) && k.value[s] == 0
    ensures SoundFrom(BlockedOn(k, s), false, from)
    ensures (DonateOk(k, pending) ==> DonateOk(BlockedOn(k, s), None)) && (WindowsOk(BlockedOn(k, s).th) <==> WindowsOk(k.th))
  {
    hide WindowsOk, PlansOk;
    BlockPlans(k, s);
    hide ReadyOk, WaitOk, CountOk, LockOk, SleepFrom, DonateBut;
    var k', t := BlockedOn(k, s), k.current;
    BlockOnReady(k, s);
    WaitJoins(k, k', t, s);
    SleepKeep(k, k', t, from);
    BlockKeep(k, k', t);
    CountBlocks(k, k', t, s);
    LockKeep(k, k', t);
    if DonateOk(k, pending) { BlockOnDonates(k, s, pending); }
  }

  lemma BlockOnDonates(k: State, s: Sema, pending: Option<Tid>)
    requires DonateOk(k, pending) && MayDown(k, s) && PendingFor(k, s, pending)
    ensures DonateOk(BlockedOn(k, s), None)
  {
    WaitsForItsLock(k, s, pending);
    hide DonateBut;
    DonateKeep(k, BlockedOn(k, s), k.current, pending, None);
  }

  lemma BlockPlans(k: State, s: Sema)
    requires MayDown(k, s)
    ensures PlansAgree(k.th, BlockedOn(k, s).th)
  {
    PlansTransfer(k.th, BlockedOn(k, s).th);
  }

  lemma BlockOnReady(k: State, s: Sema)
    requires RunOk(k, true) && ReadyOk(k) && s in k.waiters
    ensures ReadyOk(BlockedOn(k, s))
  {
    ReadyKeep(k, BlockedOn(k, s), k.current);
  }

  /** Whoever is inside `sema_down` with a `waiting_lock` is there for that lock. */
  lemma WaitsForItsLock(k: State, s: Sema, pending: Option<Tid>)
    requires DonateOk(k, pending) && MayDown(k, s) && PendingFor(k, s, pending)
    ensures k.th[k.current].waiting_lock.Some? ==> s == OfLock(k.th[k.current].waiting_lock.value)
  {
    assert WaitingLockOk(k, k.current, pending);
  }

  // ----- the successful branch of sema_down, and sema_try_down

  ghost function PcAfterDown(s: Sema): Pc {
    match s case Plain(_) => Normal case OfLock(l) => GotLock(l)
  }

  ghost function OwnerAfterDown(k: State, s: Sema): map<Lock, Option<Tid>> {
    match s case Plain(_) => k.owner case OfLock(l) => k.owner[l := Some(k.current)]
  }

  ghost function Took(k: State, s: Sema): State
    requires k.current in k.th && s in k.value
  {
    k.(value := k.value[s := k.value[s] - 1], owner := OwnerAfterDown(k, s),
       th := k.th[k.current := k.th[k.current].(pc := PcAfterDown(s))])
  }

  lemma TakeKeeps(k: State, s: Sema, from: int)
    requires SoundFrom(k, true, from) && MayDown(k, s) && k.value[s] > 0
    ensures SoundFrom(Took(k, s), true, from)
    ensures (DonateOk(k, None) ==> DonateOk(Took(k, s), None)) && (WindowsOk(Took(k, s).th) <==> WindowsOk(k.th))
  {
    hide WindowsOk, PlansOk;
    TakePlans(k, s);
    TakeLock(k, s);
    hide WaitOk, CountOk, LockOk, SleepFrom, DonateBut;
    QueuesDoExist(k, true);
    hide ReadyOk;
    var k', t := Took(k, s), k.current;
    RunKeep(k, k', true, t);
    ReadyKeep(k, k', t);
    WaitKeep(k, k', t);
    SleepKeep(k, k', t, from);
    BlockKeep(k, k', t);
    CountTakes(k, k', t, s);
    if DonateOk(k, None) { TakeDonates(k, s); }
  }

  lemma TakeDonates(k: State, s: Sema)
    requires DonateOk(k, None) && MayDown(k, s) && k.th[k.current].status.Running?
    ensures DonateOk(Took(k, s), None)
  {
    WaitsForItsLock(k, s, None);
    hide DonateBut;
    DonateKeep(k, Took(k, s), k.current, None, None);
  }

  lemma TakePlans(k: State, s: Sema)
    requires MayDown(k, s)
    ensures PlansAgree(k.th, Took(k, s).th)
  {
    PlansTransfer(k.th, Took(k, s).th);
  }

  lemma TakeLock(k: State, s: Sema)
    requires LockOk(k) && MayDown(k, s) && k.value[s] > 0
    ensures LockOk(Took(k, s))
  {
    var k', t := Took(k, s), k.current;
    forall l | l in k'.holder ensures LockFacts(k', l) {
      assert LockFacts(k, l);
      if s != OfLock(l) {
        assert k'.th[t].pc != GotLock(l) && k'.th[t].pc != Releasing(l) && k.th[t].pc != GotLock(l) && k.th[t].pc != Releasing(l);
        forall u ensures InsideLock(k', u, l) <==> InsideLock(k, u, l) {
          assert u != t && u in k.th ==> k'.th[u] == k.th[u];
        }
      } else {
        assert k.owner[l] == None;
        assert k'.th[t].pc == GotLock(l);
        forall u ensures InsideLock(k', u, l) <==> u == t {
          assert !InsideLock(k, u, l);
          assert u != t && u in k.th ==> k'.th[u] == k.th[u];
        }
      }
    }
  }

  // ----- sema_up

  /** The first half of `sema_up` when somebody waits: the waiter `t` leaves the list and gets ready. */
  ghost function Woke(k: State, s: Sema, t: Tid): State
    requires QueuesExist(k) && s in k.waiters && t in k.th
  {
    Unblocked(k.(waiters := k.waiters[s := Without(k.waiters[s], t)]), t)
  }

  ghost predicate NoHolder(k: State, s: Sema) {
    s.OfLock? ==> s.lock in k.holder && k.holder[s.lock] == None
  }

  lemma WakeKeeps(k: State, s: Sema, t: Tid, from: int)
    requires BaseOk(k, true) && SleepFrom(k, from) && s in k.waiters && t in k.waiters[s]
    ensures QueuesExist(k) && BelongsWaiting(k, t, s)
    ensures BaseOk(Woke(k, s, t), true) && SleepFrom(Woke(k, s, t), from) && Surplus(Woke(k, s, t), s)
    ensures DonateOk(k, None) && NoHolder(k, s) ==> DonateOk(Woke(k, s, t), None)
  {
    assert WaitersOk(k, s);
    hide WaitOk, CountOk, LockOk, SleepFrom, DonateBut;
    QueuesDoExist(k, true);
    var k' := Woke(k, s, t);
    if DonateOk(k, None) && NoHolder(k, s) { WakeDonate(k, s, t); }
    hide ReadyOk;
    RunKeep(k, k', true, t);
    ReadyJoins(k, k', t);
    WaitLeaves(k, k', t, s);
    SleepKeep(k, k', t, from);
    BlockKeep(k, k', t);
    CountWakes(k, k', t, s);
    LockKeep(k, k', t);
  }

  /** A thread waiting for a semaphore that is free of a holder is registered with nobody. */
  lemma WakeDonate(k: State, s: Sema, t: Tid)
    requires QueuesExist(k) && DonateOk(k, None) && s in k.waiters && BelongsWaiting(k, t, s) && NoHolder(k, s)
    ensures DonateOk(Woke(k, s, t), None)
  {
    var k' := Woke(k, s, t);
    forall u | u in k'.th ensures DonorsOk(k', u, None, Ceiling(k', u, None, 0)) {
      assert DonorsOk(k, u, None, Ceiling(k, u, None, 0));
      forall d | d in k'.th[u].donations ensures Registered(k', d, u, None) && Pri(k'.th, d) <= Ceiling(k', u, None, 0) {
        assert Registered(k, d, u, None);
        assert Pri(k.th, d) <= Ceiling(k, u, None, 0);
      }
    }
    forall u | u in k'.th ensures WaitingLockOk(k', u, None) {
      assert WaitingLockOk(k, u, None);
    }
  }

  ghost predicate MayUp(k: State, s: Sema) {
    && QueuesExist(k) && s in k.waiters && s in k.value
    && (k.waiters[s] != [] ==> FirstMax(k.th, k.waiters[s]) in k.th)
  }

  lemma CanUp(k: State, running: bool, s: Sema)
    requires BaseOk(k, running) && s in k.waiters
    ensures MayUp(k, s)
  {
    QueuesDoExist(k, running);
    if k.waiters[s] != [] {
      FirstMaxIsFirst(k.th, k.waiters[s]);
      assert WaitersOk(k, s);
      assert BelongsWaiting(k, FirstMax(k.th, k.waiters[s]), s);
    }
  }

  lemma WakingPlans(k: State, s: Sema)
    requires MayUp(k, s)
    ensures PlansAgree(k.th, AfterWaking(k, s).th)
  {
    hide PlansAgree, FirstMax;
    PlansTransfer(k.th, AfterWaking(k, s).th);
  }

  /** The state before the value rises. */
  ghost function AfterWaking(k: State, s: Sema): State
    requires MayUp(k, s)
  {
    if k.waiters[s] == [] then k else Woke(k, s, FirstMax(k.th, k.waiters[s]))
  }

  /** The state after `sema_up`, but for its yield. */
  ghost function Upped(k: State, s: Sema): State
    requires MayUp(k, s)
  {
    var k1 := AfterWaking(k, s);
    k1.(value := k1.value[s := k1.value[s] + 1])
  }

  lemma AfterWakingKeeps(k: State, s: Sema, from: int)
    requires BaseOk(k, true) && SleepFrom(k, from) && s in k.waiters && MayUp(k, s)
    ensures BaseOk(AfterWaking(k, s), true) && SleepFrom(AfterWaking(k, s), from) && Surplus(AfterWaking(k, s), s)
    ensures DonateOk(k, None) && NoHolder(k, s) ==> DonateOk(AfterWaking(k, s), None)
    ensures var k1 := AfterWaking(k, s);
            k1.current == k.current && k1.idle == k.idle && k1.holder == k.holder && k1.owner == k.owner && k1.value == k.value
    ensures k.th[k.current].status.Running? ==> AfterWaking(k, s).th[k.current] == k.th[k.current]
  {
    hide ReadyOk, WaitOk, CountOk, LockOk, SleepFrom, DonateBut, NoHolder;
    if k.waiters[s] != [] {
      FirstMaxIsFirst(k.th, k.waiters[s]);
      WakeKeeps(k, s, FirstMax(k.th, k.waiters[s]), from);
    }
  }

  lemma UpKeeps(k: State, s: Sema, from: int)
    requires SoundFrom(k, true, from) && s in k.waiters && s.Plain?
    ensures MayUp(k, s) && SoundFrom(Upped(k, s), true, from)
    ensures (DonateOk(k, None) ==> DonateOk(Upped(k, s), None)) && (WindowsOk(Upped(k, s).th) <==> WindowsOk(k.th))
  {
    hide WindowsOk, PlansOk;
    CanUp(k, true, s);
    WakingPlans(k, s);
    AfterWakingKeeps(k, s, from);
    hide ReadyOk, WaitOk, CountOk, SleepFrom, DonateBut, Woke, RunOk;
    var k1, k' := AfterWaking(k, s), Upped(k, s);
    UpLock(k1, k', s);
    RiseRun(k1, k');
    RiseKeeps(k1, k', s, from);
  }

  lemma RiseRun(k1: State, k': State)
    requires RunOk(k1, true) && k'.current == k1.current && k'.idle == k1.idle && k'.th == k1.th
    ensures RunOk(k', true)
  {
  }

  lemma RiseKeeps(k: State, k': State, s: Sema, from: int)
    requires BaseOk(k, true) && SleepFrom(k, from) && Surplus(k, s) && k' == k.(value := k.value[s := k.value[s] + 1])
    ensures ReadyOk(k') && WaitOk(k') && BlockOk(k') && CountOk(k') && SleepFrom(k', from)
    ensures DonateOk(k, None) ==> DonateOk(k', None)
  {
    hide WaitOk, CountOk, LockOk, SleepFrom, DonateBut;
    QueuesDoExist(k, true);
    hide ReadyOk;
    var t := k.current;
    ReadyKeep(k, k', t);
    WaitKeep(k, k', t);
    SleepKeep(k, k', t, from);
    BlockKeep(k, k', t);
    CountRises(k, k', t, s);
    if DonateOk(k, None) { DonateKeep(k, k', t, None, None); }
  }

  lemma UpLock(k: State, k': State, s: Sema)
    requires LockOk(k) && s.Plain? && s in k.value && k' == k.(value := k.value[s := k.value[s] + 1])
    ensures LockOk(k')
  {
    forall l | l in k'.holder ensures LockFacts(k', l) {
      assert LockFacts(k, l);
      assert forall u :: InsideLock(k', u, l) <==> InsideLock(k, u, l);
    }
  }

  // ----- the two halves of a lock that lie outside sema_down and sema_up

  /** `lock_acquire` past its `sema_down`. */
  ghost function Got(k: State, l: Lock): State
    requires k.current in k.th
  {
    k.(holder := k.holder[l := Some(k.current)],
       th := k.th[k.current := k.th[k.current].(waiting_lock := None, pc := Normal)])
  }

  lemma GotKeeps(k: State, l: Lock, from: int)
    requires SoundFrom(k, true, from) && k.th[k.current].pc == GotLock(l)
    ensures SoundFrom(Got(k, l), true, from) && DonorsCarry(k, None, Got(k, l))
  {
    GotPlans(k, l);
    hide WindowsOk, PlansOk;
    GotLocks(k, l);
    hide WaitOk, CountOk, LockOk, SleepFrom, DonateBut;
    QueuesDoExist(k, true);
    hide ReadyOk;
    var k', t := Got(k, l), k.current;
    RunKeep(k, k', true, t);
    ReadyKeep(k, k', t);
    WaitKeep(k, k', t);
    SleepKeep(k, k', t, from);
    BlockKeep(k, k', t);
    CountKeep(k, k', t);
    if DonateOk(k, None) { GotDonates(k, l); }
  }

  lemma GotPlans(k: State, l: Lock)
    requires k.current in k.th && k.th[k.current].pc == GotLock(l)
    ensures WindowsOk(k.th) ==> WindowsOk(Got(k, l).th)
    ensures PlansOk(k.th) ==> PlansOk(Got(k, l).th)
  {
    var th' := Got(k, l).th;
    if PlansOk(k.th) {
      forall t | t in th' ensures PlanOk(th'[t]) { assert PlanOk(k.th[t]); }
    }
    if WindowsOk(k.th) {
      forall t, d | t in th' && d in th'[t].donations ensures Fits(th', th'[t], d) { assert Fits(k.th, k.th[t], d); }
    }
  }

  lemma GotLocks(k: State, l: Lock)
    requires LockOk(k) && k.current in k.th && k.th[k.current].pc == GotLock(l) && BlockOk(k)
    ensures LockOk(Got(k, l)) && k.holder[l] == None
  {
    var k', t := Got(k, l), k.current;
    assert LockFacts(k, l) && InsideLock(k, t, l);
    assert k.holder[l].Some? ==> InsideLock(k, k.holder[l].value, l);
    forall l' | l' in k'.holder ensures LockFacts(k', l') {
      assert LockFacts(k, l');
      assert forall u :: InsideLock(k', u, l') <==> InsideLock(k, u, l');
    }
  }

  lemma GotDonates(k: State, l: Lock)
    requires DonateOk(k, None) && l in k.holder && k.holder[l] == None && k.current in k.th && !k.th[k.current].status.Blocked?
    ensures DonateOk(Got(k, l), None)
  {
    var k' := Got(k, l);
    forall u | u in k'.th ensures DonorsOk(k', u, None, Ceiling(k', u, None, 0)) {
      assert DonorsOk(k, u, None, Ceiling(k, u, None, 0));
      forall d | d in k'.th[u].donations ensures Registered(k', d, u, None) && Pri(k'.th, d) <= Ceiling(k', u, None, 0) {
        assert d in k.th[u].donations;
        assert Registered(k, d, u, None);
        assert Pri(k.th, d) <= Ceiling(k, u, None, 0);
      }
    }
    forall u | u in k'.th ensures WaitingLockOk(k', u, None) {
      assert WaitingLockOk(k, u, None);
    }
  }

  /** The `sema_up` of `lock_release`, but for its yield. */
  ghost function LockUpped(k: State, l: Lock): State
    requires MayUp(k, OfLock(l))
  {
    var k2 := Upped(k, OfLock(l));
    k2.(owner := k2.owner[l := None], th := if k2.current in k2.th then k2.th[k2.current := k2.th[k2.current].(pc := Normal)] else k2.th)
  }

  lemma LockUpKeeps(k: State, l: Lock, from: int)
    requires SoundFrom(k, true, from) && k.th[k.current].pc == Releasing(l)
    ensures OfLock(l) in k.waiters && MayUp(k, OfLock(l)) && SoundFrom(LockUpped(k, l), true, from)
    ensures (DonateOk(k, None) ==> DonateOk(LockUpped(k, l), None)) && (WindowsOk(LockUpped(k, l).th) <==> WindowsOk(k.th))
  {
    hide WindowsOk, PlansOk;
    ReleasingFacts(k, l);
    CanUp(k, true, OfLock(l));
    AfterWakingKeeps(k, OfLock(l), from);
    WakingPlans(k, OfLock(l));
    hide ReadyOk, WaitOk, CountOk, SleepFrom, DonateBut, Woke;
    LeavePlans(AfterWaking(k, OfLock(l)), LockUpped(k, l), l);
    LeaveKeeps(AfterWaking(k, OfLock(l)), LockUpped(k, l), l, from);
  }

  lemma ReleasingFacts(k: State, l: Lock)
    requires BaseOk(k, true) && k.th[k.current].pc == Releasing(l)
    ensures OfLock(l) in k.waiters && NoHolder(k, OfLock(l))
  {
    assert LockFacts(k, l) && InsideLock(k, k.current, l);
    assert k.holder[l].Some? ==> InsideLock(k, k.holder[l].value, l);
  }

  lemma LeaveKeeps(k: State, k': State, l: Lock, from: int)
    requires BaseOk(k, true) && SleepFrom(k, from) && Surplus(k, OfLock(l)) && k.th[k.current].pc == Releasing(l)
    requires k' == k.(value := k.value[OfLock(l) := k.value[OfLock(l)] + 1], owner := k.owner[l := None],
                      th := k.th[k.current := k.th[k.current].(pc := Normal)])
    ensures BaseOk(k', true) && SleepFrom(k', from) && (DonateOk(k, None) ==> DonateOk(k', None))
  {
    LeaveLock(k, k', l);
    hide WaitOk, CountOk, LockOk, SleepFrom, DonateBut;
    QueuesDoExist(k, true);
    hide ReadyOk;
    var t := k.current;
    RunKeep(k, k', true, t);
    ReadyKeep(k, k', t);
    WaitKeep(k, k', t);
    SleepKeep(k, k', t, from);
    BlockKeep(k, k', t);
    CountRises(k, k', t, OfLock(l));
    if DonateOk(k, None) { LeaveDonates(k, k', l); }
  }

  lemma LeavePlans(k: State, k': State, l: Lock)
    requires k.current in k.th && k.th[k.current].pc == Releasing(l) && k'.th == k.th[k.current := k.th[k.current].(pc := Normal)]
    ensures PlansAgree(k.th, k'.th)
  {
    PlansTransfer(k.th, k'.th);
  }

  lemma LeaveDonates(k: State, k': State, l: Lock)
    requires OneThread(k, k', k.current) && DonateOk(k, None) && k.th[k.current].pc == Releasing(l) && k'.holder == k.holder
    requires k'.th[k.current] == k.th[k.current].(pc := Normal)
    ensures DonateOk(k', None)
  {
    assert WaitingLockOk(k, k.current, None);
    hide DonateBut;
    DonateKeep(k, k', k.current, None, None);
  }

  lemma LeaveLock(k: State, k': State, l: Lock)
    requires LockOk(k) && k.current in k.th && k.th[k.current].pc == Releasing(l) && OfLock(l) in k.value
    requires k' == k.(value := k.value[OfLock(l) := k.value[OfLock(l)] + 1], owner := k.owner[l := None],
                      th := k.th[k.current := k.th[k.current].(pc := Normal)])
    ensures LockOk(k')
  {
    assert LockFacts(k, l) && InsideLock(k, k.current, l);
    assert k.holder[l].Some? ==> InsideLock(k, k.holder[l].value, l);
    forall l' | l' in k'.holder ensures LockFacts(k', l') {
      assert LockFacts(k, l');
      if l' == l {
        forall u ensures !InsideLock(k', u, l) {
          assert InsideLock(k, u, l) ==> u == k.current;
          assert u != k.current && u in k.th ==> k'.th[u] == k.th[u];
        }
      } else {
        assert forall u :: InsideLock(k', u, l') <==> InsideLock(k, u, l');
      }
    }
  }
}
