/** What a change of one thread leaves standing. In every lemma `a` is the thread before and `b` after;
    its precondition names the fields on which that part of the invariant depends. */
module KernelKeep {
  import opened KernelLists
  import opened KernelState

  ghost predicate OneThread(k: State, k': State, t: Tid) {
    t in k.th && t in k'.th && k'.idle == k.idle && k'.th == k.th[t := k'.th[t]]
  }

  lemma RunKeep(k: State, k': State, running: bool, t: Tid)
    requires OneThread(k, k', t) && RunOk(k, running) && k'.current == k.current
    requires k'.th[t].status.Running? <==> k.th[t].status.Running?
    ensures RunOk(k', running)
  {
  }

  lemma ReadyKeep(k: State, k': State, t: Tid)
    requires OneThread(k, k', t) && ReadyOk(k) && k'.ready == k.ready
    requires PRI_MIN <= k'.th[t].priority <= PRI_MAX
    requires forall p :: BelongsReady(k, t, p) <==> BelongsReady(k', t, p)
    ensures ReadyOk(k')
  {
    forall p | 0 <= p <= PRI_MAX ensures QueueOk(k', p) {
      assert QueueOk(k, p);
      assert forall u :: BelongsReady(k', u, p) <==> BelongsReady(k, u, p);
    }
  }

  lemma WaitKeep(k: State, k': State, t: Tid)
    requires OneThread(k, k', t) && WaitOk(k) && k'.waiters == k.waiters && k'.value.Keys == k.value.Keys
    requires forall s :: BelongsWaiting(k, t, s) <==> BelongsWaiting(k', t, s)
    requires k'.th[t].pc.Downing? ==> k'.th[t].pc == k.th[t].pc || k'.th[t].pc.sema in k.waiters
    ensures WaitOk(k')
  {
    forall s | s in k'.waiters ensures WaitersOk(k', s) {
      assert WaitersOk(k, s);
      assert forall u :: BelongsWaiting(k', u, s) <==> BelongsWaiting(k, u, s);
    }
  }

  lemma SleepKeep(k: State, k': State, t: Tid, from: int)
    requires OneThread(k, k', t) && SleepFrom(k, from) && k'.sleepers == k.sleepers
    requires BelongsSleeping(k, t) <==> BelongsSleeping(k', t)
    requires k'.th[t].wakeup_tick == k.th[t].wakeup_tick
    ensures SleepFrom(k', from)
  {
    assert forall u :: BelongsSleeping(k', u) <==> BelongsSleeping(k, u);
    assert forall u :: WakeupTick(k'.th, u) == WakeupTick(k.th, u);
  }

  lemma BlockKeep(k: State, k': State, t: Tid)
    requires OneThread(k, k', t) && BlockOk(k)
    requires t == k.idle ==> IdlePc(k'.th[t].pc)
    requires t != k.idle && k'.th[t].status.Blocked? ==> k'.th[t].pc.Downing? || k'.th[t].pc.Sleeping?
    requires k'.th[t].pc.Sleeping? ==> k'.th[t].status.Blocked?
    requires k'.th[t].status.Dying? ==> k'.th[t].pc.Normal?
    ensures BlockOk(k')
  {
  }

  ghost predicate IsWoken(v: Thread, s: Sema) {
    v.pc == Downing(s) && !v.status.Blocked?
  }

  lemma WokenAfter(th: Threads, th': Threads, t: Tid, s: Sema)
    requires t in th && t in th' && th' == th[t := th'[t]]
    ensures Woken(th', s) == if IsWoken(th'[t], s) then Woken(th, s) + {t} else Woken(th, s) - {t}
    ensures t in Woken(th, s) <==> IsWoken(th[t], s)
  {
  }

  lemma CountKeep(k: State, k': State, t: Tid)
    requires OneThread(k, k', t) && CountOk(k) && k'.waiters == k.waiters && k'.value == k.value
    requires forall s :: IsWoken(k.th[t], s) <==> IsWoken(k'.th[t], s)
    ensures CountOk(k')
  {
    forall s | s in k'.waiters ensures NothingLost(k', s) {
      assert NothingLost(k, s);
      WokenAfter(k.th, k'.th, t, s);
      assert Woken(k'.th, s) == Woken(k.th, s);
    }
  }

  lemma LockKeep(k: State, k': State, t: Tid)
    requires OneThread(k, k', t) && LockOk(k)
    requires k'.value == k.value && k'.holder == k.holder && k'.owner == k.owner
    requires forall l :: k'.th[t].pc == GotLock(l) <==> k.th[t].pc == GotLock(l)
    requires forall l :: k'.th[t].pc == Releasing(l) <==> k.th[t].pc == Releasing(l)
    requires forall l :: GivingUp(k'.th[t].pc) == Some(l) ==> GivingUp(k.th[t].pc) == Some(l) || HoldsStill(k, t, l)
    ensures LockOk(k')
  {
    forall l | l in k'.holder ensures LockFacts(k', l) {
      assert LockFacts(k, l);
      assert forall u :: InsideLock(k', u, l) <==> InsideLock(k, u, l);
    }
    if k'.th[t].pc.GotLock? { assert k'.th[t].pc == GotLock(k'.th[t].pc.lock); }
    if k'.th[t].pc.Releasing? { assert k'.th[t].pc == Releasing(k'.th[t].pc.lock); }
  }

  /** The fields that donations depend on. */
  ghost predicate SameDonor(a: Thread, b: Thread) {
    a.priority == b.priority && a.waiting_lock == b.waiting_lock && a.donations == b.donations
  }

  /** `t` may change its status or its place unless it is a blocked donor. */
  lemma DonateKeep(k: State, k': State, t: Tid, pending: Option<Tid>, pending': Option<Tid>)
    requires OneThread(k, k', t) && DonateOk(k, pending) && k'.holder == k.holder
    requires SameDonor(k.th[t], k'.th[t])
    requires pending == None || pending == Some(t)
    requires pending' == None || pending' == pending
    requires var b := k'.th[t];
             b.waiting_lock.Some? && pending' != Some(t) ==>
               || (pending == None && b.pc == k.th[t].pc && (k.th[t].status.Blocked? ==> b.status.Blocked?))
               || (b.pc == Downing(OfLock(b.waiting_lock.value)) && b.status.Blocked?)
               || (b.pc == GotLock(b.waiting_lock.value) && !k.th[t].status.Blocked? && pending == None)
    ensures DonateOk(k', pending')
  {
    forall u | u in k'.th ensures DonorsOk(k', u, pending', Ceiling(k', u, None, 0)) {
      assert DonorsOk(k, u, pending, Ceiling(k, u, None, 0));
      forall d | d in k'.th[u].donations ensures Registered(k', d, u, pending') && Pri(k'.th, d) <= Ceiling(k', u, None, 0) {
        assert d in k.th[u].donations;
        assert Registered(k, d, u, pending);
        assert Pri(k.th, d) <= Ceiling(k, u, None, 0);
      }
    }
    forall u | u in k'.th ensures WaitingLockOk(k', u, pending') {
      assert WaitingLockOk(k, u, pending);
    }
  }

  // ----- priority changes under way

  /** The two threads agree on all that a priority change under way depends on. */
  ghost predicate SamePlan(a: Thread, b: Thread) {
    && a.priority == b.priority && a.base_priority == b.base_priority
    && a.waiting_lock == b.waiting_lock && a.donations == b.donations
    && (b.pc == a.pc || (!InWindow(a.pc) && !InWindow(b.pc)))
  }

  ghost predicate SamePlans(th: Threads, th': Threads) {
    th'.Keys == th.Keys && forall t :: t in th ==> SamePlan(th[t], th'[t])
  }

  /** What the two thread maps say about priority changes under way is the same. */
  ghost predicate PlansAgree(th: Threads, th': Threads) {
    (WindowsOk(th) <==> WindowsOk(th')) && (PlansOk(th) <==> PlansOk(th'))
  }

  lemma PlansTransfer(th: Threads, th': Threads)
    requires SamePlans(th, th')
    ensures PlansAgree(th, th')
  {
    forall t | t in th' ensures SamePlan(th'[t], th[t]) { assert SamePlan(th[t], th'[t]); }
    PlansGoOver(th, th');
    PlansGoOver(th', th);
  }

  lemma PlansGoOver(th: Threads, th': Threads)
    requires SamePlans(th, th')
    ensures WindowsOk(th) ==> WindowsOk(th')
    ensures PlansOk(th) ==> PlansOk(th')
  {
    if PlansOk(th) {
      forall t | t in th' ensures PlanOk(th'[t]) { assert SamePlan(th[t], th'[t]) && PlanOk(th[t]); }
    }
    if WindowsOk(th) {
      forall t, d | t in th' && d in th'[t].donations ensures Fits(th', th'[t], d) {
        assert SamePlan(th[t], th'[t]) && Fits(th, th[t], d);
        assert d in th ==> SamePlan(th[d], th'[d]);
      }
    }
  }

  /** From `k` to `k'` nothing is lost of what donors are promised. */
  ghost predicate DonorsCarry(k: State, pending: Option<Tid>, k': State) {
    (DonateOk(k, pending) ==> DonateOk(k', None)) && (WindowsOk(k.th) ==> WindowsOk(k'.th))
  }

  // ----- a thread that joins or leaves a list

  lemma ReadyJoins(k: State, k': State, t: Tid)
    requires OneThread(k, k', t) && ReadyOk(k) && t != k.idle && !k.th[t].status.Ready?
    requires k'.th[t].status.Ready? && PRI_MIN <= k'.th[t].priority <= PRI_MAX
    requires var p := k'.th[t].priority; p < |k.ready| && k'.ready == k.ready[p := k.ready[p] + [t]]
    ensures ReadyOk(k')
  {
    forall p | 0 <= p <= PRI_MAX ensures QueueOk(k', p) {
      assert QueueOk(k, p);
      assert !BelongsReady(k, t, p);
      if p == k'.th[t].priority { AppendMembers(k.ready[p], t); }
      assert forall u :: BelongsReady(k', u, p) <==> BelongsReady(k, u, p) || (u == t && p == k'.th[t].priority);
    }
  }

  lemma WaitJoins(k: State, k': State, t: Tid, s: Sema)
    requires OneThread(k, k', t) && WaitOk(k) && s in k.waiters && k'.value.Keys == k.value.Keys
    requires k'.waiters == k.waiters[s := k.waiters[s] + [t]]
    requires !k.th[t].status.Blocked? && k'.th[t].status.Blocked? && k'.th[t].pc == Downing(s)
    ensures WaitOk(k')
  {
    forall s' | s' in k'.waiters ensures WaitersOk(k', s') {
      assert WaitersOk(k, s');
      assert !BelongsWaiting(k, t, s');
      if s' == s { AppendMembers(k.waiters[s], t); }
      assert forall u :: BelongsWaiting(k', u, s') <==> BelongsWaiting(k, u, s') || (u == t && s' == s);
    }
  }

  lemma WaitLeaves(k: State, k': State, t: Tid, s: Sema)
    requires OneThread(k, k', t) && WaitOk(k) && s in k.waiters && k'.value.Keys == k.value.Keys
    requires k'.waiters == k.waiters[s := Without(k.waiters[s], t)]
    requires k.th[t].pc == Downing(s) && k'.th[t].pc == k.th[t].pc && !k'.th[t].status.Blocked?
    ensures WaitOk(k')
  {
    forall s' | s' in k'.waiters ensures WaitersOk(k', s') {
      assert WaitersOk(k, s');
      if s' == s { WithoutMembers(k.waiters[s], t); }
      assert forall u :: BelongsWaiting(k', u, s') <==> BelongsWaiting(k, u, s') && u != t;
    }
  }

  lemma SleepJoins(k: State, k': State, t: Tid, from: int)
    requires OneThread(k, k', t) && SleepFrom(k, from) && !k.th[t].status.Blocked?
    requires k'.th[t].status.Blocked? && k'.th[t].pc.Sleeping? && k'.th[t].wakeup_tick >= from
    requires k'.sleepers == InsertByTick(k.th, k.sleepers, t, k'.th[t].wakeup_tick)
    ensures SleepFrom(k', from)
  {
    assert !BelongsSleeping(k, t);
    InsertByTickMembers(k.th, k.sleepers, t, k'.th[t].wakeup_tick);
    InsertByTickOrdered(k.th, k.sleepers, t, k'.th[t]);
    assert forall u :: BelongsSleeping(k', u) <==> BelongsSleeping(k, u) || u == t;
  }

  lemma SleepLeaves(k: State, k': State, from: int)
    requires SleepFrom(k, from) && k.sleepers != [] && OneThread(k, k', k.sleepers[0])
    requires k'.sleepers == k.sleepers[1..] && !k'.th[k.sleepers[0]].status.Blocked?
    ensures SleepFrom(k', from)
  {
    var t := k.sleepers[0];
    TailMembers(k.sleepers);
    assert forall u :: BelongsSleeping(k', u) <==> BelongsSleeping(k, u) && u != t;
    assert forall i :: 0 <= i < |k'.sleepers| ==> k'.sleepers[i] == k.sleepers[i + 1];
    assert forall u :: u != t ==> WakeupTick(k'.th, u) == WakeupTick(k.th, u);
  }

  // ----- counting

  lemma CountBlocks(k: State, k': State, t: Tid, s: Sema)
    requires OneThread(k, k', t) && CountOk(k) && s in k.waiters && k.value[s] == 0 && k'.value == k.value
    requires k'.waiters == k.waiters[s := k.waiters[s] + [t]]
    requires forall s' :: s' != s ==> (IsWoken(k.th[t], s') <==> IsWoken(k'.th[t], s'))
    ensures CountOk(k')
  {
    forall s' | s' in k'.waiters ensures NothingLost(k', s') {
      assert NothingLost(k, s');
      WokenAfter(k.th, k'.th, t, s');
      if s' != s { assert Woken(k'.th, s') == Woken(k.th, s'); }
    }
  }

  lemma CountTakes(k: State, k': State, t: Tid, s: Sema)
    requires OneThread(k, k', t) && CountOk(k) && s in k.waiters && k.value[s] > 0 && k'.waiters == k.waiters
    requires k'.value == k.value[s := k.value[s] - 1]
    requires forall s' :: s' != s ==> (IsWoken(k.th[t], s') <==> IsWoken(k'.th[t], s'))
    ensures CountOk(k')
  {
    forall s' | s' in k'.waiters ensures NothingLost(k', s') {
      assert NothingLost(k, s');
      WokenAfter(k.th, k'.th, t, s');
      if s' != s { assert Woken(k'.th, s') == Woken(k.th, s'); }
    }
  }

  /** There is room for one more: nobody waits, or one more thread has been woken than the value shows. */
  ghost predicate Surplus(k: State, s: Sema) {
    s in k.waiters && s in k.value && (k.waiters[s] == [] || k.value[s] + 1 <= |Woken(k.th, s)|)
  }

  lemma CountWakes(k: State, k': State, t: Tid, s: Sema)
    requires OneThread(k, k', t) && CountOk(k) && s in k.waiters && k.waiters[s] != [] && k'.value == k.value
    requires k'.waiters == k.waiters[s := Without(k.waiters[s], t)]
    requires k.th[t].pc == Downing(s) && k.th[t].status.Blocked? && k'.th[t].pc == k.th[t].pc && !k'.th[t].status.Blocked?
    ensures CountOk(k') && Surplus(k', s)
  {
    forall s' | s' in k'.waiters ensures NothingLost(k', s') && (s' == s ==> Surplus(k', s)) {
      assert NothingLost(k, s');
      WokenAfter(k.th, k'.th, t, s');
      if s' != s { assert Woken(k'.th, s') == Woken(k.th, s'); }
    }
  }

  lemma CountRises(k: State, k': State, t: Tid, s: Sema)
    requires OneThread(k, k', t) && CountOk(k) && Surplus(k, s) && k'.waiters == k.waiters
    requires k'.value == k.value[s := k.value[s] + 1]
    requires forall s' :: IsWoken(k.th[t], s') <==> IsWoken(k'.th[t], s')
    ensures CountOk(k')
  {
    forall s' | s' in k'.waiters ensures NothingLost(k', s') {
      assert NothingLost(k, s');
      WokenAfter(k.th, k'.th, t, s');
      assert Woken(k'.th, s') == Woken(k.th, s');
    }
  }
}
