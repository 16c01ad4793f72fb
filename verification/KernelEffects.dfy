module KernelEffects {
  // What the calls of the threads subsystem do, told by the lists and the records of the threads before and
  // after: who leaves a list and from where, who joins one, and who runs.

  import opened KernelLists
  import opened KernelState
  import opened KernelKeep
  import opened KernelSwitch
  import opened KernelSync
  import opened KernelDonate
  import opened KernelRelease
  import opened KernelAcquire
  import opened KernelTimer
  import opened KernelSteps

  // ----- schedule

  /** No ready thread outranks the running one. */
  ghost predicate TopRuns(k: State) {
    k.current in k.th && NoneReadyAbove(k, k.th[k.current].priority)
  }

  ghost predicate NoneReadyAbove(k: State, p: int) {
    forall t :: t in k.th && k.th[t].status.Ready? && t != k.idle ==> k.th[t].priority <= p
  }

  /** A switch: a ready thread that no ready thread outranks, and that has been ready longest of those of its
      priority, leaves its queue and runs; or the idle thread, when no other is ready. */
  ghost predicate Switches(k: State, k': State) {
    && k'.current in k.th && k'.th == k.th[k'.current := k.th[k'.current].(status := Running)]
    && k' == k.(th := k'.th, current := k'.current, ready := k'.ready, thread_ticks := 0)
    && NoneReadyAbove(k, k.th[k'.current].priority)
    && if k'.current == k.idle then k'.ready == k.ready && forall t :: t in k.th && t != k.idle ==> !k.th[t].status.Ready?
       else LeavesFront(k.ready, k'.ready, k.th[k'.current].priority, k'.current)
  }

  ghost predicate LeavesFront(ready: seq<seq<Tid>>, ready': seq<seq<Tid>>, p: int, t: Tid) {
    0 <= p < |ready| == |ready'| && ready[p] == [t] + ready'[p] && forall q :: 0 <= q < |ready| && q != p ==> ready'[q] == ready[q]
  }

  lemma SwitchDoes(k: State, from: int)
    requires SoundFrom(k, false, from)
    ensures ReadyOk(k) && k.idle in k.th && Switches(k, Dispatched(k)) && TopRuns(Dispatched(k))
  {
    hide WaitOk, CountOk, LockOk, SleepFrom, PlansOk, BlockOk;
    DispatchShape(k);
    SwitchChooses(k);
    SwitchQueues(k);
    hide ReadyOk, TopQueue, NextThread;
  }

  lemma SwitchChooses(k: State)
    requires BaseOk(k, false)
    ensures var c := NextThread(k); c in k.th && NoneReadyAbove(k, k.th[c].priority)
    ensures NextThread(k) == k.idle ==> forall t :: t in k.th && t != k.idle ==> !k.th[t].status.Ready?
  {
    NextIsKnown(k);
    hide WaitOk, CountOk, LockOk, BlockOk;
    forall t | t in k.th && k.th[t].status.Ready? && t != k.idle
      ensures NextThread(k) != k.idle && k.th[t].priority <= k.th[NextThread(k)].priority
    {
      NextIsHighest(k, false, t);
    }
  }

  lemma SwitchQueues(k: State)
    requires ReadyOk(k) && k.idle in k.th
    ensures var k' := Dispatched(k);
            if k'.current == k.idle then k'.ready == k.ready
            else k'.current in k.th && LeavesFront(k.ready, k'.ready, k.th[k'.current].priority, k'.current)
  {
    TopQueueIsTop(k.ready, PRI_MAX);
    var p := TopQueue(k.ready, PRI_MAX);
    if p >= 0 {
      assert QueueOk(k, p) && k.ready[p][0] in k.ready[p];
      assert BelongsReady(k, k.ready[p][0], p);
      assert k.ready[p] == [k.ready[p][0]] + k.ready[p][1..];
    }
  }

  // ----- thread_unblock and thread_yield

  /** `t` gets ready, last of the queue of its priority. */
  ghost predicate GetsReady(k: State, k': State, t: Tid) {
    && t in k.th && k'.th == k.th[t := k.th[t].(status := Ready)] && Joins(k.ready, k'.ready, k.th[t].priority, t)
  }

  ghost predicate Joins(ready: seq<seq<Tid>>, ready': seq<seq<Tid>>, p: int, t: Tid) {
    0 <= p < |ready| == |ready'| && ready'[p] == ready[p] + [t] && forall q :: 0 <= q < |ready| && q != p ==> ready'[q] == ready[q]
  }

  /** The running thread steps down: it gets ready, and unless it is the idle one joins its queue. */
  ghost predicate StepsDown(k: State, m: State) {
    && m == k.(th := m.th, ready := m.ready)
    && if k.current == k.idle then k.current in k.th && m.th == k.th[k.current := k.th[k.current].(status := Ready)] && m.ready == k.ready
       else GetsReady(k, m, k.current)
  }

  ghost predicate Yields(k: State, k': State) {
    exists m :: StepsDown(k, m) && Switches(m, k')
  }

  lemma YieldDoes(k: State)
    requires Sound(k, true)
    ensures Yields(k, Yielded(k)) && TopRuns(Yielded(k))
  {
    hide BaseOk, SleepFrom, PlansOk;
    ParkKeeps(k, k.ticks + 1);
    SwitchDoes(Parked(k), k.ticks + 1);
    StepsDownAsParked(k);
    hide Switches, Dispatched, Parked, StepsDown;
  }

  lemma StepsDownAsParked(k: State)
    requires QueuesExist(k)
    ensures StepsDown(k, Parked(k))
  {
  }

  /** A switch or a yield changes no priority. */
  lemma YieldKeepsPriorities(k: State, k': State)
    requires Yields(k, k')
    ensures k'.th.Keys == k.th.Keys && k'.waiters == k.waiters && k'.value == k.value && k'.holder == k.holder
    ensures forall t :: Pri(k'.th, t) == Pri(k.th, t)
    ensures forall t :: t in k.th && k.th[t].status.Ready? && t != k.current ==> k'.th[t].status.Ready? || t == k'.current
  {
  }

  // ----- sema_up

  /** Place `i` of a list holds the earliest of its threads of greatest priority. */
  ghost predicate EarliestTop(th: Threads, s: seq<Tid>, i: int) {
    && 0 <= i < |s| && (forall j :: 0 <= j < |s| ==> Pri(th, s[j]) <= Pri(th, s[i]))
    && forall j :: 0 <= j < i ==> Pri(th, s[j]) < Pri(th, s[i])
  }

  /** Exactly the earliest of the waiters of greatest priority leaves the list; the others keep their order. */
  ghost predicate TopLeaves(th: Threads, s: seq<Tid>, s': seq<Tid>, t: Tid) {
    exists i :: EarliestTop(th, s, i) && s[i] == t && s' == s[..i] + s[i + 1..]
  }

  /** `sema_up` but for its yield: the value rises by one, and `woken`, if anybody waits, gets ready. */
  ghost predicate UpDoes(k: State, k': State, s: Sema, woken: Option<Tid>) {
    && s in k.waiters && s in k.value && k'.value == k.value[s := k.value[s] + 1]
    && (woken.None? <==> k.waiters[s] == [])
    && k' == k.(value := k'.value, waiters := k'.waiters, th := k'.th, ready := k'.ready)
    && match woken
       case None => k'.waiters == k.waiters && k'.th == k.th && k'.ready == k.ready
       case Some(t) => s in k'.waiters && k'.waiters == k.waiters[s := k'.waiters[s]]
                       && TopLeaves(k.th, k.waiters[s], k'.waiters[s], t) && GetsReady(k, k', t)
  }

  lemma {:induction false} WithoutAt(s: seq<Tid>, i: int)
    requires 0 <= i < |s| && forall j :: 0 <= j < i ==> s[j] != s[i]
    ensures Without(s, s[i]) == s[..i] + s[i + 1..]
  {
    if i > 0 {
      WithoutAt(s[1..], i - 1);
      assert s[..i] + s[i + 1..] == [s[0]] + (s[1..][..i - 1] + s[1..][i..]);
    }
  }

  lemma TopLeavesAs(th: Threads, s: seq<Tid>)
    requires s != []
    ensures TopLeaves(th, s, Without(s, FirstMax(th, s)), FirstMax(th, s))
  {
    FirstMaxIsFirst(th, s);
    hide FirstMax;
    var i :| 0 <= i < |s| && s[i] == FirstMax(th, s) && forall j :: 0 <= j < i ==> Pri(th, s[j]) < Pri(th, s[i]);
    WithoutAt(s, i);
    assert EarliestTop(th, s, i);
  }

  /** The thread that `sema_up` wakes. */
  ghost function WokenBy(k: State, s: Sema): Option<Tid>
    requires s in k.waiters
  {
    if k.waiters[s] == [] then None else Some(FirstMax(k.th, k.waiters[s]))
  }

  lemma UpDoesAs(k: State, s: Sema)
    requires MayUp(k, s)
    ensures UpDoes(k, Upped(k, s), s, WokenBy(k, s))
  {
    if k.waiters[s] != [] { TopLeavesAs(k.th, k.waiters[s]); }
    hide FirstMax, TopLeaves;
  }

  ghost predicate Outranks(k: State, t: Option<Tid>) {
    t.Some? && Pri(k.th, t.value) > Pri(k.th, k.current)
  }

  /** A yield if and only if the thread woken outranks the running one. Either way it is ready or runs
      afterwards, and is not outranking whoever runs. */
  ghost predicate YieldsTo(m: State, k': State, woken: Option<Tid>) {
    && (if Outranks(m, woken) then Yields(m, k') else k' == m)
    && (woken.Some? ==> woken.value in k'.th && !Outranks(k', woken) && (k'.th[woken.value].status.Ready? || woken.value == k'.current))
  }

  lemma YieldsToAs(m: State, woken: Option<Tid>)
    requires Sound(m, true) && (woken.Some? ==> woken.value in m.th && m.th[woken.value].status.Ready? && woken.value != m.idle)
    ensures YieldsTo(m, YieldIf(m, Outranks(m, woken)), woken)
    ensures TopRuns(m) || Outranks(m, woken) <==> TopRuns(YieldIf(m, Outranks(m, woken)))
  {
    YieldDoes(m);
    hide Sound, Yields;
    YieldKeepsPriorities(m, Yielded(m));
    CurrentIsRunning(m);
    if Outranks(m, woken) && woken.value != Yielded(m).current {
      assert Yielded(m).th[woken.value].status.Ready?;
      SameIdle(m);
    }
    hide TopRuns;
  }

  lemma CurrentIsRunning(k: State)
    requires Sound(k, true)
    ensures k.current in k.th && k.th[k.current].status.Running?
  {
  }

  lemma SameIdle(k: State)
    requires Sound(k, true)
    ensures Yielded(k).idle == k.idle
  {
    hide SoundFrom, TopQueue, NextThread;
    ParkKeeps(k, k.ticks + 1);
  }

  /** All of `sema_up`. */
  ghost predicate UpWakes(k: State, k': State, s: Sema) {
    exists m, woken :: UpDoes(k, m, s, woken) && YieldsTo(m, k', woken)
  }

  lemma UpHasEffect(k: State, s: Sema)
    requires Sound(k, true) && s in k.waiters && s.Plain?
    ensures UpWakes(k, AfterUp(k, s), s) && (TopRuns(k) ==> TopRuns(AfterUp(k, s)))
  {
    hide SoundFrom, YieldIf, UpDoes, YieldsTo;
    UppedIsSafe(k, s);
    var m, woken := Upped(k, s), WokenBy(k, s);
    UpDoesAs(k, s);
    WokenIsReady(k, m, s, woken);
    YieldsToAs(m, woken);
    assert UpDoes(k, m, s, woken) && YieldsTo(m, AfterUp(k, s), woken);
    hide TopRuns, Upped;
  }

  lemma UppedIsSafe(k: State, s: Sema)
    requires Sound(k, true) && s in k.waiters && s.Plain?
    ensures MayUp(k, s) && Sound(Upped(k, s), true) && UppedSafely(k, s) == Upped(k, s)
  {
    hide BaseOk, SleepFrom, PlansOk, FirstMax, Without;
    UpKeeps(k, s, k.ticks + 1);
  }

  /** The thread woken is ready and not the idle one; waking it puts it above the running thread if and only
      if the test for the yield says so. */
  lemma WokenIsReady(k: State, m: State, s: Sema, woken: Option<Tid>)
    requires Sound(k, true) && UpDoes(k, m, s, woken)
    ensures woken.Some? ==> woken.value in m.th && m.th[woken.value].status.Ready? && woken.value != k.idle && k.th[woken.value].status.Blocked?
    ensures Outranks(m, woken) <==> woken.Some? && Pri(k.th, woken.value) > Pri(k.th, k.current)
    ensures TopRuns(k) ==> TopRuns(m) || Outranks(m, woken)
    ensures TopRuns(m) && !Outranks(m, woken) ==> TopRuns(k)
  {
    if woken.Some? {
      assert WaitersOk(k, s);
      assert woken.value in k.waiters[s];
      assert BelongsWaiting(k, woken.value, s);
    }
    WakingTops(k, m, s, woken);
    hide ReadyOk, CountOk, LockOk, SleepFrom, PlansOk, TopRuns;
  }

  /** A thread that is ready after a `sema_up` was ready before it or is the one woken. */
  lemma WakingTops(k: State, m: State, s: Sema, woken: Option<Tid>)
    requires UpDoes(k, m, s, woken) && k.current in k.th && k.th[k.current].status.Running?
    requires woken.Some? ==> woken.value in k.th && k.th[woken.value].status.Blocked?
    ensures TopRuns(k) ==> TopRuns(m) || Outranks(m, woken)
    ensures TopRuns(m) && !Outranks(m, woken) ==> TopRuns(k)
  {
    hide Joins, TopLeaves;
    var p := k.th[k.current].priority;
    assert m.current == k.current && m.th[m.current] == k.th[k.current];
    if NoneReadyAbove(m, p) && !Outranks(m, woken) {
      forall t | t in k.th && k.th[t].status.Ready? && t != k.idle ensures k.th[t].priority <= p { assert m.th[t] == k.th[t]; }
    }
    if NoneReadyAbove(k, p) && !Outranks(m, woken) {
      forall t | t in m.th && m.th[t].status.Ready? && t != m.idle ensures m.th[t].priority <= p {
        if woken != Some(t) { assert m.th[t] == k.th[t]; }
      }
    }
  }

  /** The `sema_up` that ends `lock_release`, but for its yield: the releasing thread is then past the call. */
  ghost predicate LockUpDoes(k: State, k': State, l: Lock, woken: Option<Tid>) {
    exists m :: UpDoes(k, m, OfLock(l), woken) && m.current in m.th
                && k' == m.(owner := m.owner[l := None], th := m.th[m.current := m.th[m.current].(pc := Normal)])
  }

  ghost predicate LockUpWakes(k: State, k': State, l: Lock) {
    exists m, woken :: LockUpDoes(k, m, l, woken) && YieldsTo(m, k', woken)
  }

  lemma LockUpDoesAs(k: State, l: Lock)
    requires MayUp(k, OfLock(l))
    ensures LockUpDoes(k, LockUpped(k, l), l, WokenBy(k, OfLock(l)))
  {
    UpDoesAs(k, OfLock(l));
    hide FirstMax, UpDoes;
    assert UpDoes(k, Upped(k, OfLock(l)), OfLock(l), WokenBy(k, OfLock(l)));
  }

  lemma LockUpHasEffect(k: State, l: Lock)
    requires Sound(k, true) && k.th[k.current].pc == Releasing(l)
    ensures LockUpWakes(k, AfterLockUp(k, l), l) && OfLock(l) in k.waiters
    ensures TopRuns(AfterLockUp(k, l)) <==> WakesHigher(k, OfLock(l)) || TopRuns(k)
  {
    hide SoundFrom, YieldIf, UpDoes, YieldsTo;
    LockUppedIsSafe(k, l);
    var s := OfLock(l);
    var m1, m, woken := Upped(k, s), LockUpped(k, l), WokenBy(k, s);
    UpDoesAs(k, s);
    LockUpDoesAs(k, l);
    WokenIsReady(k, m1, s, woken);
    CurrentIsRunning(k);
    Leaves(m1, m, woken);
    YieldsToAs(m, woken);
    assert LockUpDoes(k, m, l, woken) && YieldsTo(m, AfterLockUp(k, l), woken);
    hide TopRuns, Upped, LockUpped, LockUpDoes;
  }

  lemma LockUppedIsSafe(k: State, l: Lock)
    requires Sound(k, true) && k.th[k.current].pc == Releasing(l)
    ensures OfLock(l) in k.waiters && MayUp(k, OfLock(l)) && Sound(LockUpped(k, l), true) && LockUppedSafely(k, l) == LockUpped(k, l)
    ensures var m := Upped(k, OfLock(l)); k.current in m.th && m.current == k.current && m.idle == k.idle
    ensures LockUpped(k, l) == Upped(k, OfLock(l)).(owner := Upped(k, OfLock(l)).owner[l := None],
                                 th := Upped(k, OfLock(l)).th[k.current := Upped(k, OfLock(l)).th[k.current].(pc := Normal)])
  {
    hide BaseOk, SleepFrom, PlansOk, FirstMax, Without;
    LockUpKeeps(k, l, k.ticks + 1);
    CurrentIsRunning(k);
  }

  /** The releasing thread's own step past the call changes no priority and no status. */
  lemma Leaves(m1: State, m: State, woken: Option<Tid>)
    requires m1.current in m1.th && m.current == m1.current && m.idle == m1.idle
    requires m.th == m1.th[m1.current := m1.th[m1.current].(pc := Normal)]
    ensures Outranks(m, woken) <==> Outranks(m1, woken)
    ensures TopRuns(m1) <==> TopRuns(m)
    ensures woken.Some? && woken.value in m1.th && m1.th[woken.value].status.Ready? ==> woken.value in m.th && m.th[woken.value].status.Ready?
  {
    forall p ensures NoneReadyAbove(m1, p) <==> NoneReadyAbove(m, p) {
      forall t ensures t in m1.th <==> t in m.th { }
      forall t | t in m1.th ensures m.th[t].status == m1.th[t].status && m.th[t].priority == m1.th[t].priority { }
    }
  }

  // ----- sema_down, timer_sleep, thread_create, thread_exit

  /** The running thread joins the waiters at the end of the list, and another one runs. */
  ghost predicate WaitsOn(k: State, k': State, s: Sema) {
    exists m :: JoinsWaiters(k, m, s) && Switches(m, k')
  }

  ghost predicate JoinsWaiters(k: State, m: State, s: Sema) {
    && s in k.waiters && k.current in k.th && m == k.(waiters := m.waiters, th := m.th)
    && m.waiters == k.waiters[s := k.waiters[s] + [k.current]]
    && m.th == k.th[k.current := k.th[k.current].(status := Blocked, pc := Downing(s))]
  }

  /** One pass of `sema_down`: it waits if the value is 0, and else takes one. */
  lemma DownHasEffect(k: State, s: Sema)
    requires Sound(k, true) && MayDown(k, s)
    ensures k.value[s] == 0 ==> WaitsOn(k, AfterDown(k, s, None), s) && TopRuns(AfterDown(k, s, None))
    ensures k.value[s] != 0 ==> var k' := AfterDown(k, s, None);
              && k'.value == k.value[s := k.value[s] - 1] && k'.waiters == k.waiters && k'.ready == k.ready && k'.current == k.current
              && k'.th == k.th[k.current := k'.th[k.current]] && k'.th[k.current] == k.th[k.current].(pc := k'.th[k.current].pc)
  {
    hide BaseOk, SleepFrom, PlansOk, Dispatched, Switches, TopRuns;
    if k.value[s] == 0 {
      BlockOnKeeps(k, s, None, k.ticks + 1);
      SwitchDoes(BlockedOn(k, s), k.ticks + 1);
      assert JoinsWaiters(k, BlockedOn(k, s), s);
    }
  }

  /** `t` stands in the list behind those that wake no later, and before those that wake later. */
  ghost predicate InsertedAt(th: Threads, s: seq<Tid>, s': seq<Tid>, t: Tid, tick: int, i: int) {
    && 0 <= i <= |s| && s' == s[..i] + [t] + s[i..]
    && (forall j :: 0 <= j < i ==> WakeupTick(th, s[j]) <= tick) && forall j :: i <= j < |s| ==> WakeupTick(th, s[j]) > tick
  }

  lemma {:induction false} InsertedByTick(th: Threads, s: seq<Tid>, t: Tid, tick: int) returns (i: int)
    requires WakesInOrder(th, s)
    ensures InsertedAt(th, s, InsertByTick(th, s, t, tick), t, tick, i)
  {
    if s == [] || tick < WakeupTick(th, s[0]) {
      i := 0;
      assert forall j :: 0 <= j < |s| ==> WakeupTick(th, s[0]) <= WakeupTick(th, s[j]);
    } else {
      var rest := InsertedByTick(th, s[1..], t, tick);
      i := rest + 1;
      assert [s[0]] + (s[1..][..rest] + [t] + s[1..][rest..]) == s[..i] + [t] + s[i..];
      forall j | 0 <= j < |s| ensures if j < i then WakeupTick(th, s[j]) <= tick else WakeupTick(th, s[j]) > tick {
        assert j > 0 ==> s[j] == s[1..][j - 1];
      }
    }
  }

  ghost predicate FallsAsleep(k: State, m: State, n: int) {
    && k.current in k.th && m == k.(sleepers := m.sleepers, th := m.th)
    && m.th == k.th[k.current := k.th[k.current].(status := Blocked, pc := Sleeping, wakeup_tick := k.ticks + n)]
    && exists i :: InsertedAt(k.th, k.sleepers, m.sleepers, k.current, m.th[k.current].wakeup_tick, i)
  }

  ghost predicate SleepsFor(k: State, k': State, n: int) {
    exists m :: FallsAsleep(k, m, n) && Switches(m, k')
  }

  lemma FallsAsleepAs(k: State, n: int)
    requires k.current in k.th && WakesInOrder(k.th, k.sleepers)
    ensures FallsAsleep(k, Asleep(k, n), n)
  {
    hide InsertByTick;
    var i := InsertedByTick(k.th, k.sleepers, k.current, k.ticks + n);
    var m := Asleep(k, n);
    assert InsertedAt(k.th, k.sleepers, m.sleepers, k.current, m.th[k.current].wakeup_tick, i);
    hide InsertedAt, WakesInOrder;
  }

  lemma SleepHasEffect(k: State, n: int)
    requires Sound(k, true) && k.current != k.idle && k.th[k.current].pc.Normal?
    ensures if n <= 0 then AfterSleep(k, n) == k else SleepsFor(k, AfterSleep(k, n), n) && TopRuns(AfterSleep(k, n))
  {
    hide BaseOk, PlansOk, Dispatched, Switches, TopRuns;
    if n > 0 {
      CurrentIsRunning(k);
      SleepKeepsAll(k, n);
      SwitchDoes(Asleep(k, n), k.ticks + 1);
      FallsAsleepAs(k, n);
    }
  }

  /** The new thread has its priority for base, no donors, and is ready, last of its queue. */
  ghost predicate CreateDoes(k: State, m: State, t: Tid, p: int) {
    && m == k.(th := m.th, ready := m.ready) && t !in k.th && t in m.th && m.th == k.th[t := m.th[t]]
    && m.th[t].status.Ready? && m.th[t].priority == p && m.th[t].base_priority == p && m.th[t].donations == []
    && m.th[t].waiting_lock == None && m.th[t].pc.Normal? && Joins(k.ready, m.ready, p, t)
  }

  ghost predicate Creates(k: State, k': State, t: Tid, p: int) {
    exists m :: CreateDoes(k, m, t, p) && YieldsTo(m, k', Some(t))
  }

  lemma CreateHasEffect(k: State, t: Tid, p: int)
    requires Sound(k, true) && PRI_MIN <= p <= PRI_MAX && t !in k.th
    ensures Creates(k, AfterCreate(k, t, p), t, p) && (TopRuns(k) ==> TopRuns(AfterCreate(k, t, p)))
  {
    hide SoundFrom, YieldIf, YieldsTo;
    CreatedIsSafe(k, t, p);
    CurrentIsRunning(k);
    var m := Created(k, t, p);
    YieldsToAs(m, Some(t));
    assert CreateDoes(k, m, t, p);
    CreatedTops(k, m, t, p);
    hide TopRuns;
  }

  lemma CreatedIsSafe(k: State, t: Tid, p: int)
    requires Sound(k, true) && PRI_MIN <= p <= PRI_MAX && t !in k.th
    ensures QueuesExist(k) && Sound(Created(k, t, p), true) && CreatedSafely(k, t, p) == Created(k, t, p) && k.idle in k.th
  {
    CreateKeeps(k, t, p, k.ticks + 1);
    hide ReadyOk, WaitOk, CountOk, LockOk, SleepFrom, PlansOk;
  }

  lemma CreatedTops(k: State, m: State, t: Tid, p: int)
    requires CreateDoes(k, m, t, p) && k.current in k.th
    ensures TopRuns(k) ==> TopRuns(m) || Outranks(m, Some(t))
    ensures Outranks(m, Some(t)) <==> p > Pri(k.th, k.current)
  {
    assert forall u :: u in k.th ==> m.th[u] == k.th[u];
  }

  /** The running thread stops, and another one runs. */
  ghost predicate Stops(k: State, k': State) {
    exists m :: k.current in k.th && Switches(m, k')
                && m == k.(th := k.th[k.current := k.th[k.current].(status := if k.current == k.idle then Blocked else Dying)])
  }

  lemma StopHasEffect(k: State)
    requires Sound(k, true) && k.th[k.current].pc.Normal?
    ensures Stops(k, AfterStop(k)) && TopRuns(AfterStop(k))
  {
    hide BaseOk, SleepFrom, PlansOk, Dispatched, Switches, TopRuns;
    CurrentIsRunning(k);
    var status := if k.current == k.idle then Blocked else Dying;
    StopKeeps(k, status, k.ticks + 1);
    SwitchDoes(Stopped(k, status), k.ticks + 1);
  }

  // ----- timer_interrupt

  /** The threads of a list that have priority `p`, in order. */
  ghost function Those(th: Threads, s: seq<Tid>, p: int): seq<Tid> {
    if s == [] then [] else (if Pri(th, s[0]) == p then [s[0]] else []) + Those(th, s[1..], p)
  }

  /** The first `n` sleepers are those due at `now`. */
  ghost predicate FirstDue(th: Threads, s: seq<Tid>, n: int, now: int) {
    && 0 <= n <= |s| && (forall j :: 0 <= j < n ==> WakeupTick(th, s[j]) == now) && forall j :: n <= j < |s| ==> WakeupTick(th, s[j]) > now
  }

  /** Each queue has grown by those of the list that have its priority, in order. */
  ghost predicate QueuesGrow(ready: seq<seq<Tid>>, ready': seq<seq<Tid>>, th: Threads, s: seq<Tid>) {
    |ready'| == |ready| && forall p :: 0 <= p < |ready| ==> ready'[p] == ready[p] + Those(th, s, p)
  }

  /** Exactly those of the list have become ready, past their `timer_sleep`. */
  ghost predicate GotReady(th: Threads, th': Threads, s: seq<Tid>) {
    && th'.Keys == th.Keys
    && forall t :: t in th ==> th'[t] == if t in s then th[t].(status := Ready, pc := Normal) else th[t]
  }

  ghost predicate OneOutranks(th: Threads, s: seq<Tid>, p: int) {
    exists t :: t in s && Pri(th, t) > p
  }

  /** The first `n` sleepers, which are those due, get ready, each queue growing by those of its priority. */
  ghost predicate WakesDue(k: State, m: State, n: int) {
    && FirstDue(k.th, k.sleepers, n, m.ticks) && m.sleepers == k.sleepers[n..]
    && QueuesGrow(k.ready, m.ready, k.th, k.sleepers[..n]) && GotReady(k.th, m.th, k.sleepers[..n])
    && m == k.(sleepers := m.sleepers, th := m.th, ready := m.ready, ticks := m.ticks, thread_ticks := m.thread_ticks,
               yield_on_return := m.yield_on_return)
  }

  /** And a yield is asked for if one of them outranks the running thread. */
  ghost predicate WakesAndAsks(k: State, m: State, n: int) {
    && WakesDue(k, m, n) && m.ticks == k.ticks && m.thread_ticks == k.thread_ticks
    && (m.yield_on_return <==> k.yield_on_return || OneOutranks(k.th, k.sleepers[..n], Pri(k.th, k.current)))
  }

  lemma {:induction false} ThoseSame(th: Threads, th': Threads, s: seq<Tid>, p: int)
    requires forall t :: t in s ==> Pri(th', t) == Pri(th, t)
    ensures Those(th', s, p) == Those(th, s, p)
  {
    if s != [] {
      assert s[0] in s;
      ThoseSame(th, th', s[1..], p);
    }
  }

  /** `k1` is `k` with its first sleeper woken. */
  ghost predicate OneWoken(k: State, k1: State) {
    && k.sleepers != [] && k.current in k.th
    && var t := k.sleepers[0];
       && t in k.th && WakeupTick(k.th, t) == k.ticks && t !in k.sleepers[1..] && k1.sleepers == k.sleepers[1..]
       && k1.th == k.th[t := k.th[t].(status := Ready, pc := Normal)] && Joins(k.ready, k1.ready, k.th[t].priority, t)
       && k1 == k.(sleepers := k1.sleepers, th := k1.th, ready := k1.ready, yield_on_return := k1.yield_on_return)
       && (k1.yield_on_return <==> k.yield_on_return || Pri(k.th, t) > Pri(k.th, k.current))
  }

  lemma OneDue(k: State)
    requires BaseOk(k, true) && SleepFrom(k, k.ticks) && HeadIsDue(k) && QueuesExist(k) && k.sleepers[0] in k.th
    ensures OneWoken(k, WokeSleeper(k))
  {
    WokeSleeperShape(k);
    TailMembers(k.sleepers);
    hide WaitOk, CountOk, LockOk;
  }

  lemma NoneDue(k: State)
    requires SleepFrom(k, k.ticks) && !HeadIsDue(k)
    ensures WakesAndAsks(k, k, 0)
  {
    NothingDue(k);
    hide SleepFrom;
    forall j | 0 <= j < |k.sleepers| ensures WakeupTick(k.th, k.sleepers[j]) > k.ticks { assert k.sleepers[j] in k.sleepers; }
  }

  lemma DueAgain(k: State, k1: State, m: State, n: int)
    requires OneWoken(k, k1) && WakesAndAsks(k1, m, n)
    ensures WakesAndAsks(k, m, n + 1)
  {
    var s, t := k.sleepers, k.sleepers[0];
    hide QueuesGrow, GotReady, FirstDue, OneOutranks, Joins;
    assert s[..n + 1] == [t] + s[1..][..n] && s[n + 1..] == s[1..][n..] by { FirstBound(k1.th, k1.sleepers, n, m.ticks); }
    DueQueues(k, k1, m, n);
    DueFirst(k, k1, n);
    DueReady(k, k1, m, n);
    DueYield(k, k1, n);
  }

  lemma FirstBound(th: Threads, s: seq<Tid>, n: int, now: int)
    requires FirstDue(th, s, n, now)
    ensures 0 <= n <= |s|
  {
  }

  lemma DueFirst(k: State, k1: State, n: int)
    requires OneWoken(k, k1) && FirstDue(k1.th, k1.sleepers, n, k1.ticks)
    ensures FirstDue(k.th, k.sleepers, n + 1, k.ticks)
  {
    var s := k.sleepers;
    forall j | 0 <= j < |s| ensures if j < n + 1 then WakeupTick(k.th, s[j]) == k.ticks else WakeupTick(k.th, s[j]) > k.ticks {
      if j > 0 { assert s[j] == k1.sleepers[j - 1]; }
    }
    hide Joins;
  }

  lemma DueReady(k: State, k1: State, m: State, n: int)
    requires OneWoken(k, k1) && 0 <= n <= |k1.sleepers| && GotReady(k1.th, m.th, k1.sleepers[..n])
    ensures GotReady(k.th, m.th, [k.sleepers[0]] + k1.sleepers[..n])
  {
    hide Joins;
  }

  lemma DueQueues(k: State, k1: State, m: State, n: int)
    requires OneWoken(k, k1) && 0 <= n <= |k1.sleepers| && QueuesGrow(k1.ready, m.ready, k1.th, k1.sleepers[..n])
    ensures QueuesGrow(k.ready, m.ready, k.th, [k.sleepers[0]] + k1.sleepers[..n])
  {
    var rest, t := k1.sleepers[..n], k.sleepers[0];
    forall p | 0 <= p < |k.ready| ensures m.ready[p] == k.ready[p] + Those(k.th, [t] + rest, p) {
      ThoseSame(k.th, k1.th, rest, p);
      assert ([t] + rest)[1..] == rest;
    }
  }

  lemma DueYield(k: State, k1: State, n: int)
    requires OneWoken(k, k1) && 0 <= n <= |k1.sleepers|
    ensures OneOutranks(k.th, [k.sleepers[0]] + k1.sleepers[..n], Pri(k.th, k.current)) <==>
              Pri(k.th, k.sleepers[0]) > Pri(k.th, k.current) || OneOutranks(k1.th, k1.sleepers[..n], Pri(k1.th, k1.current))
  {
    assert forall u :: Pri(k1.th, u) == Pri(k.th, u);
    assert k.sleepers[0] in [k.sleepers[0]] + k1.sleepers[..n];
    assert forall u :: u in k1.sleepers[..n] ==> u in [k.sleepers[0]] + k1.sleepers[..n];
    hide Joins;
  }

  lemma {:induction false} WakingDoes(k: State) returns (n: int)
    requires BaseOk(k, true) && SleepFrom(k, k.ticks)
    ensures WakesAndAsks(k, AllWoken(k), n)
    decreases |k.sleepers|
  {
    hide BaseOk;
    if HeadIsDue(k) {
      WakeSleeperKeeps(k, k.ticks);
      WokeSleeperShape(k);
      var k1 := WokeSleeper(k);
      OneDue(k);
      n := WakingDoes(k1);
      hide SleepFrom;
      DueAgain(k, k1, AllWoken(k1), n);
      n := n + 1;
    } else {
      n := 0;
      NoneDue(k);
    }
  }

  /** A timer interrupt: time and the running thread's time slice advance by one tick, the sleepers due get
      ready, and the running thread yields if one of them outranks it or its time slice is used up. */
  ghost predicate Ticks(k: State, k': State) {
    exists m, n :: TickDoes(k, m, n) && if m.yield_on_return then Yields(m, k') else k' == m
  }

  ghost predicate TickDoes(k: State, m: State, n: int) {
    && m.ticks == k.ticks + 1 && m.thread_ticks == k.thread_ticks + 1 && WakesDue(k, m, n)
    && (m.yield_on_return <==> m.thread_ticks >= TIME_SLICE || OneOutranks(k.th, k.sleepers[..n], Pri(k.th, k.current)))
  }

  lemma TickedDoes(k: State) returns (n: int)
    requires Sound(k, true)
    ensures TickDoes(k, Ticked(k), n)
  {
    hide BaseOk, SleepFrom, AllWoken, PlansOk, QueuesGrow, GotReady, FirstDue, OneOutranks;
    TickStarts(k);
    n := WakingDoes(k.(ticks := k.ticks + 1, yield_on_return := false));
  }

  lemma TickHasEffect(k: State)
    requires Sound(k, true)
    ensures Ticks(k, AfterTick(k)) && (TopRuns(k) ==> TopRuns(AfterTick(k)))
  {
    hide SoundFrom, TickDoes, WakesDue, Ticked, Yields;
    CurrentIsRunning(k);
    var n := TickedDoes(k);
    TickKeeps(k);
    YieldDoes(Ticked(k));
    TickTops(k, Ticked(k), n);
    hide TopRuns, YieldIf;
  }

  lemma TickTops(k: State, m: State, n: int)
    requires TickDoes(k, m, n) && k.current in k.th && k.th[k.current].status.Running?
    ensures TopRuns(k) && !m.yield_on_return ==> TopRuns(m)
  {
    hide QueuesGrow;
    if TopRuns(k) && !m.yield_on_return {
      forall t | t in m.th && m.th[t].status.Ready? && t != m.idle ensures m.th[t].priority <= Pri(k.th, k.current) {
        if t !in k.sleepers[..n] { assert k.th[t].status.Ready?; }
      }
      assert m.th[m.current].priority == Pri(k.th, k.current);
    }
  }

  // ----- thread_update_priority and thread_set_priority

  /** A thread that is ready leaves its place and joins the queue of its new priority at the end; any other
      only changes its priority. */
  ghost predicate Moves(k: State, k': State, t: Tid, p: int) {
    && t in k.th && k' == k.(th := k.th[t := k.th[t].(priority := p)], ready := k'.ready)
    && if k.th[t].status.Ready? then exists i :: MovesFrom(k.ready, k'.ready, k.th[t].priority, i, p, t) else k'.ready == k.ready
  }

  ghost predicate MovesFrom(ready: seq<seq<Tid>>, ready': seq<seq<Tid>>, from: int, i: int, to: int, t: Tid) {
    && 0 <= from < |ready| == |ready'| && 0 <= i < |ready[from]| && ready[from][i] == t
    && Joins(ready[from := ready[from][..i] + ready[from][i + 1..]], ready', to, t)
  }

  lemma UpdateMoves(k: State, running: bool, t: Tid, p: int)
    requires BaseOk(k, running) && t in k.th && t != k.idle && PRI_MIN <= p <= PRI_MAX
    ensures QueuesExist(k) && Moves(k, Updated(k, t, p), t, p)
  {
    hide WaitOk, CountOk, LockOk, BlockOk;
    QueuesDoExist(k, running);
    if k.th[t].status.Ready? {
      var from := k.th[t].priority;
      assert QueueOk(k, from) && BelongsReady(k, t, from);
      var i :| 0 <= i < |k.ready[from]| && k.ready[from][i] == t;
      WithoutAt(k.ready[from], i);
      assert MovesFrom(k.ready, Updated(k, t, p).ready, from, i, p, t);
    }
  }

  /** `thread_set_priority` but for its yield. */
  ghost predicate SetsPriority(k: State, m: State, n: int) {
    && k.current in k.th && m == k.(th := m.th) && m.current in m.th && m.th == k.th[k.current := m.th[k.current]]
    && var a := k.th[k.current];
       m.th[k.current] == a.(base_priority := n, priority := if a.donations == [] || n > a.priority then n else a.priority)
  }

  /** The running thread gives way if and only if a ready thread now outranks it. */
  ghost predicate SetsAndYields(k: State, k': State, n: int) {
    exists m :: SetsPriority(k, m, n) && if TopRuns(m) then k' == m else Yields(m, k')
  }

  lemma SetHasEffect(k: State, n: int)
    requires Sound(k, true) && k.th[k.current].pc.Normal? && PRI_MIN <= n <= PRI_MAX
    ensures SetsAndYields(k, AfterSetPriority(k, n), n) && TopRuns(AfterSetPriority(k, n))
  {
    hide SoundFrom, Yields, TopRuns;
    CurrentIsRunning(k);
    PrioritySetShape(k, n);
    SetPriorityKeeps(k, n);
    var m := PrioritySet(k, n);
    hide PrioritySet;
    YieldDoes(m);
    HigherIsReady(m);
    assert SetsPriority(k, m, n);
    hide YieldIf;
  }

  lemma HigherIsReady(k: State)
    requires Sound(k, true)
    ensures HigherReady(k) <==> !TopRuns(k)
  {
    hide WaitOk, CountOk, LockOk, SleepFrom, PlansOk, BlockOk;
    if HigherReady(k) {
      var p :| 0 <= p < |k.ready| && k.th[k.current].priority < p && k.ready[p] != [];
      assert QueueOk(k, p) && k.ready[p][0] in k.ready[p];
      assert BelongsReady(k, k.ready[p][0], p);
    }
    if !TopRuns(k) {
      var t :| t in k.th && k.th[t].status.Ready? && t != k.idle && k.th[t].priority > k.th[k.current].priority;
      assert QueueOk(k, k.th[t].priority) && BelongsReady(k, t, k.th[t].priority);
      assert t in k.ready[k.th[t].priority];
    }
  }

  // ----- lock_acquire of a lock that is held

  /** The holder of `l`, the holder of the lock that it waits for, and so on. */
  ghost predicate HolderPath(k: State, l: Lock, path: seq<Tid>) {
    && |path| > 0 && l in k.holder && k.holder[l] == Some(path[0])
    && forall i :: 0 <= i < |path| - 1 ==> NextHolder(k, path[i], path[i + 1])
  }

  ghost predicate NextHolder(k: State, t: Tid, u: Tid) {
    && t in k.th && k.th[t].waiting_lock.Some? && k.th[t].waiting_lock.value in k.holder
    && k.holder[k.th[t].waiting_lock.value] == Some(u)
  }

  ghost predicate Reaches(k: State, l: Lock, t: Tid) {
    exists path :: HolderPath(k, l, path) && path[|path| - 1] == t
  }

  lemma {:induction false} ChainIsReached(k: State, l: Lock, n: nat, t: Tid)
    requires ChainEnds(k, l, n)
    ensures t in Chain(k, l, n) <==> Reaches(k, l, t)
    decreases n
  {
    var h := k.holder[l].value;
    if t == h {
      assert HolderPath(k, l, [h]);
      assert [h][|[h]| - 1] == t;
    } else if k.th[h].waiting_lock.Some? {
      var next := k.th[h].waiting_lock.value;
      ChainIsReached(k, next, n - 1, t);
      if Reaches(k, next, t) {
        var path :| HolderPath(k, next, path) && path[|path| - 1] == t;
        PathGrows(k, l, h, path);
      }
      if Reaches(k, l, t) {
        var path :| HolderPath(k, l, path) && path[|path| - 1] == t;
        PathShrinks(k, l, h, path);
      }
    } else {
      forall path | HolderPath(k, l, path) ensures path[|path| - 1] == h {
        if |path| > 1 { FirstGoesOn(k, l, path); }
      }
    }
  }

  lemma FirstGoesOn(k: State, l: Lock, path: seq<Tid>)
    requires HolderPath(k, l, path) && |path| > 1
    ensures path[0] in k.th && k.th[path[0]].waiting_lock.Some?
  {
    var i := 0;
    assert NextHolder(k, path[i], path[i + 1]);
  }

  lemma PathGrows(k: State, l: Lock, h: Tid, path: seq<Tid>)
    requires l in k.holder && k.holder[l] == Some(h) && h in k.th && k.th[h].waiting_lock.Some?
    requires HolderPath(k, k.th[h].waiting_lock.value, path)
    ensures HolderPath(k, l, [h] + path) && ([h] + path)[|[h] + path| - 1] == path[|path| - 1]
  {
    var longer := [h] + path;
    forall i | 0 <= i < |longer| - 1 ensures NextHolder(k, longer[i], longer[i + 1]) {
      if i > 0 { assert longer[i] == path[i - 1] && longer[i + 1] == path[i - 1 + 1]; }
    }
  }

  lemma PathShrinks(k: State, l: Lock, h: Tid, path: seq<Tid>)
    requires HolderPath(k, l, path) && path[0] == h && path[|path| - 1] != h && h in k.th && k.th[h].waiting_lock.Some?
    ensures HolderPath(k, k.th[h].waiting_lock.value, path[1..]) && path[1..][|path[1..]| - 1] == path[|path| - 1]
  {
    assert NextHolder(k, path[0], path[1]);
    var rest := path[1..];
    forall i | 0 <= i < |rest| - 1 ensures NextHolder(k, rest[i], rest[i + 1]) {
      var j := i + 1;
      assert NextHolder(k, path[j], path[j + 1]);
    }
  }

  /** The thread names the lock it waits for, joins the donors of its holder as the last, and raises every
      thread on the way along holders and the locks they wait for to its own priority. */
  ghost predicate Registers(k: State, m: State, l: Lock) {
    && k.current in k.th && l in k.holder && k.holder[l].Some? && m == k.(th := m.th, ready := m.ready) && m.th.Keys == k.th.Keys
    && forall t :: t in k.th ==>
         m.th[t] == k.th[t].(priority := if Reaches(m, l, t) then Max(k.th[t].priority, k.th[k.current].priority) else k.th[t].priority,
                             waiting_lock := if t == k.current then Some(l) else k.th[t].waiting_lock,
                             donations := if k.holder[l] == Some(t) then k.th[t].donations + [k.current] else k.th[t].donations)
  }

  lemma DonatedRegisters(k: State, l: Lock)
    requires QueuesExist(k) && CanDonate(k, l) && k.holder[l].value != k.current
    ensures Registers(k, Donated(k, l), l)
  {
    var m0, n := Donating(k, l), WalkLength(k, l);
    var m := Donated(k, l);
    hide QueuesExist, Chain, ChainEnds, Raised, Reaches;
    QueuesStillExist(k, m0);
    WalkRaises(m0, l, k.th[k.current].priority, n);
    ChainSame(m0, m, l, n);
    forall t ensures t in Chain(m0, l, n) <==> Reaches(m, l, t) { ChainIsReached(m, l, n, t); }
  }

  lemma QueuesStillExist(k: State, m: State)
    requires QueuesExist(k) && m.ready == k.ready && m.current == k.current && m.idle == k.idle && m.th.Keys == k.th.Keys
    requires forall t :: t in k.th ==> m.th[t].priority == k.th[t].priority
    ensures QueuesExist(m)
  {
  }

  ghost predicate AcquireWaits(k: State, k': State, l: Lock) {
    exists m :: Registers(k, m, l) && WaitsOn(m, k', OfLock(l))
  }

  lemma AcquireHasEffect(k: State, l: Lock)
    requires Sound(k, true) && MayAcquire(k, l) && k.holder[l] != None
    ensures AcquireWaits(k, AfterAcquire(k, l), l) && TopRuns(AfterAcquire(k, l))
  {
    hide SoundFrom, DonorsSafe, CanDonate, Donated, Disturbs, Registers, AfterDown, WaitsFor, TopRuns;
    HeldReachesDown(k, l);
    DonatedRegisters(k, l);
    PendingWaits(Donated(k, l), OfLock(l), Some(k.current));
  }

  lemma PendingWaits(k: State, s: Sema, pending: Option<Tid>)
    requires Sound(k, true) && MayDown(k, s) && PendingFor(k, s, pending) && k.value[s] == 0
    ensures WaitsOn(k, AfterDown(k, s, pending), s) && TopRuns(AfterDown(k, s, pending))
  {
    hide BaseOk, SleepFrom, PlansOk, Dispatched, Switches, TopRuns;
    BlockOnKeeps(k, s, pending, k.ticks + 1);
    SwitchDoes(BlockedOn(k, s), k.ticks + 1);
    assert JoinsWaiters(k, BlockedOn(k, s), s);
  }

  // ----- lock_release

  /** An uninterrupted `lock_release` leaves the running thread outranked if and only if it wakes nobody who
      outranks it while some ready thread does: it gives way to the thread it wakes, and to no other. */
  lemma ReleaseTops(k: State, l: Lock)
    requires Sound(k, true) && k.current != k.idle && k.th[k.current].pc.Normal? && HoldsStill(k, k.current, l)
    ensures var m := AfterRelease(k, l);
            && m.current in m.th && m.th[m.current].pc == Releasing(l) && OfLock(l) in m.waiters
            && (TopRuns(AfterLockUp(m, l)) <==> WakesHigher(m, OfLock(l)) || TopRuns(m))
  {
    hide SoundFrom, Released, AfterLockUp, TopRuns, WakesHigher;
    ReleasedAt(k, l);
    LockUpHasEffect(AfterRelease(k, l), l);
  }

  lemma ReleasedAt(k: State, l: Lock)
    requires Sound(k, true) && k.current != k.idle && k.th[k.current].pc.Normal? && HoldsStill(k, k.current, l)
    ensures var m := AfterRelease(k, l); m.current in m.th && m.th[m.current].pc == Releasing(l) && OfLock(l) in m.waiters
  {
    hide SoundFrom, OtherDonors, SortedByPriority, Refreshed;
    CurrentIsRunning(k);
    var m := AfterRelease(k, l);
    assert m.th[m.current].pc == Releasing(l);
    LockUppedIsSafe(m, l);
  }
}
