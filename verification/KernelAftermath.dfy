/** What becomes of a thread that an acquisition has disturbed: nothing that others do puts it right, and its
    own next steps break the rule that threads cover their donors. */
module KernelAftermath {
  import opened KernelLists
  import opened KernelState
  import opened KernelKeep
  import opened KernelSwitch
  import opened KernelSync
  import opened KernelDonate
  import opened KernelRelease
  import opened KernelAcquire
  import opened KernelTimer
  import opened KernelSteps
  import opened KernelRuns

  // ----- what a step leaves of the threads that do not take it

  predicate LockWait(v: Thread) {
    v.status.Blocked? && v.pc.Downing? && v.pc.sema.OfLock?
  }

  /** Thread `x` goes on where it was, runs no lower, loses no donor, and if it waits for a lock, still does. */
  ghost predicate Standing(k: State, k': State, x: Tid)
    requires x in k.th
  {
    && x in k'.th
    && var a, b := k.th[x], k'.th[x];
       && b.pc == a.pc && b.waiting_lock == a.waiting_lock && a.priority <= b.priority
       && (forall y :: y in a.donations ==> y in b.donations)
       && (LockWait(a) ==> LockWait(b))
  }

  lemma StandingThen(k: State, k1: State, k2: State, x: Tid)
    requires x in k.th && Standing(k, k1, x) && Standing(k1, k2, x)
    ensures Standing(k, k2, x)
  {
  }

  lemma OneStands(k: State, k': State, t: Tid, x: Tid)
    requires OneThread(k, k', t) && x in k.th && x != t
    ensures Standing(k, k', x)
  {
  }

  lemma DispatchStands(k: State, x: Tid)
    requires ReadyOk(k) && BlockOk(k) && x in k.th
    ensures Standing(k, Dispatched(k), x)
  {
    hide ReadyOk, TopQueue, NextThread;
    DispatchShape(k);
  }

  lemma YieldStands(k: State, x: Tid)
    requires Sound(k, true) && x in k.th
    ensures Standing(k, YieldIf(k, true), x)
  {
    ParkKeeps(k, k.ticks + 1);
    DispatchStands(Parked(k), x);
    hide ReadyOk, WaitOk, CountOk, LockOk, SleepFrom, PlansOk, DonateBut, WindowsOk, Dispatched;
    StandingThen(k, Parked(k), Dispatched(Parked(k)), x);
  }

  lemma TickStands(k: State, x: Tid)
    requires Sound(k, true) && x in k.th && !k.th[x].pc.Sleeping?
    ensures Standing(k, AfterTick(k), x)
  {
    TickedStands(k, x);
    hide Sound, DonorsSafe, Ticked;
    TickKeeps(k);
    YieldStands(Ticked(k), x);
    hide YieldIf, Standing;
    if Ticked(k).yield_on_return { StandingThen(k, Ticked(k), YieldIf(Ticked(k), true), x); }
  }

  lemma TickedStands(k: State, x: Tid)
    requires Sound(k, true) && x in k.th && !k.th[x].pc.Sleeping?
    ensures Standing(k, Ticked(k), x)
  {
    hide BaseOk, SleepFrom, PlansOk, DonateBut, WindowsOk, AllWoken;
    TickStarts(k);
    var k0 := k.(ticks := k.ticks + 1, yield_on_return := false);
    SleepersSleep(k0);
    WakingIsExact(k0);
  }

  lemma WakingStands(k: State, s: Sema, x: Tid)
    requires BaseOk(k, true) && s in k.waiters && MayUp(k, s) && x in k.th && (LockWait(k.th[x]) ==> k.th[x].pc != Downing(s))
    ensures Standing(k, Upped(k, s), x)
  {
    if k.waiters[s] != [] {
      FirstMaxIsFirst(k.th, k.waiters[s]);
      assert WaitersOk(k, s) && BelongsWaiting(k, FirstMax(k.th, k.waiters[s]), s);
    }
    hide ReadyOk, WaitOk, CountOk, LockOk, FirstMax;
  }

  lemma LockUpStands(k: State, l: Lock, x: Tid)
    requires Sound(k, true) && k.th[k.current].pc == Releasing(l) && x in k.th && x != k.current
    requires LockWait(k.th[x]) ==> k.th[x].pc != Downing(OfLock(l))
    ensures Standing(k, LockUppedSafely(k, l), x)
  {
    LockUpKeeps(k, l, k.ticks + 1);
    WakingStands(k, OfLock(l), x);
    hide BaseOk, SleepFrom, PlansOk, DonateBut, WindowsOk, Upped;
    CurrentStaysThere(k, OfLock(l));
  }

  lemma CurrentStaysThere(k: State, s: Sema)
    requires MayUp(k, s)
    ensures Upped(k, s).current == k.current
  {
    hide FirstMax;
  }

  lemma DownStands(k: State, s: Sema, pending: Option<Tid>, x: Tid)
    requires Sound(k, true) && MayDown(k, s) && PendingFor(k, s, pending) && (pending.Some? ==> k.value[s] == 0)
    requires x in k.th && x != k.current
    ensures Standing(k, AfterDown(k, s, pending), x)
  {
    if k.value[s] == 0 { WaitStands(k, s, x); }
    hide Sound, DonorsSafe, Dispatched, BlockedOn;
  }

  lemma WaitStands(k: State, s: Sema, x: Tid)
    requires Sound(k, true) && MayDown(k, s) && k.value[s] == 0 && x in k.th && x != k.current
    ensures SoundFrom(BlockedOn(k, s), false, k.ticks + 1) && Standing(k, Switch(BlockedOn(k, s)), x)
  {
    BlockOnKeeps(k, s, None, k.ticks + 1);
    SwitchStands(k, BlockedOn(k, s), x);
    hide SoundFrom;
  }

  /** The running thread changes its own record and gives up the processor. */
  lemma SwitchStands(k: State, k1: State, x: Tid)
    requires SoundFrom(k1, false, k1.ticks + 1) && OneThread(k, k1, k.current) && x in k.th && x != k.current
    ensures Standing(k, Switch(k1), x)
  {
    OneStands(k, k1, k.current, x);
    DispatchStands(k1, x);
    StandingThen(k, k1, Dispatched(k1), x);
    hide Standing, Dispatched, BaseOk;
  }

  lemma AcquireStands(k: State, l: Lock, x: Tid)
    requires Sound(k, true) && MayAcquire(k, l) && x in k.th && x != k.current
    ensures Standing(k, AfterAcquire(k, l), x)
  {
    if k.holder[l] == None {
      DownStands(k, OfLock(l), None, x);
    } else {
      HeldReachesDown(k, l);
      DonatedStands(k, l, x);
      DownStands(Donated(k, l), OfLock(l), Some(k.current), x);
      StandingThen(k, Donated(k, l), AfterDown(Donated(k, l), OfLock(l), Some(k.current)), x);
    }
    hide Sound, DonorsSafe, Standing, CanDonate, Donated, AfterDown, Disturbs;
  }

  lemma DonatedStands(k: State, l: Lock, x: Tid)
    requires QueuesExist(k) && MayAcquire(k, l) && k.holder[l] != None && x in k.th && x != k.current
    ensures Standing(k, Donated(k, l), x) && Donated(k, l).current == k.current
  {
    DonatedShape(k, l);
    WalkRaises(Donating(k, l), l, k.th[k.current].priority, WalkLength(k, l));
    hide Raised, Chain, ChainEnds, WalkLength, CanDonate, QueuesExist;
  }

  lemma StopStands(k: State, x: Tid)
    requires Sound(k, true) && k.th[k.current].pc.Normal? && x in k.th && x != k.current
    ensures Standing(k, AfterStop(k), x)
  {
    var status := if k.current == k.idle then Blocked else Dying;
    StopKeeps(k, status, k.ticks + 1);
    SwitchStands(k, Stopped(k, status), x);
    hide SoundFrom, Standing, Dispatched;
  }

  lemma StandsStill(k: State, x: Tid)
    requires x in k.th
    ensures Standing(k, k, x)
  {
  }

  lemma SleepStands(k: State, n: int, x: Tid)
    requires Sound(k, true) && k.current != k.idle && k.th[k.current].pc.Normal? && x in k.th && x != k.current
    ensures Standing(k, AfterSleep(k, n), x)
  {
    CurrentIsKnown(k);
    hide SoundFrom, DonorsSafe, Standing, Dispatched, InsertByTick;
    if n > 0 {
      SleepKeepsAll(k, n);
      SwitchStands(k, Asleep(k, n), x);
    } else {
      StandsStill(k, x);
    }
  }

  lemma CreateStands(k: State, t: Tid, p: int, x: Tid)
    requires Sound(k, true) && PRI_MIN <= p <= PRI_MAX && t !in k.th && x in k.th
    ensures Standing(k, CreatedSafely(k, t, p), x)
  {
    CreateKeeps(k, t, p, k.ticks + 1);
    hide SoundFrom;
  }

  lemma ClockStands(k: State, e: Event, x: Tid)
    requires Sound(k, true) && Enabled(k, e) && OnClock(e) && x in k.th && !k.th[x].pc.Sleeping?
    requires x != k.current || e.Yield? || e.Tick?
    ensures Standing(k, ClockResult(k, e), x)
  {
    hide Sound, DonorsSafe, Standing, AfterTick, YieldIf, AfterStop, AfterSleep, CreatedSafely;
    match e
    case Yield => YieldStands(k, x);
    case Tick => TickStands(k, x);
    case Create(t, p) => CreateStands(k, t, p, x);
    case Stop => StopStands(k, x);
    case Sleep(n) => SleepStands(k, n, x);
    case _ =>
  }

  lemma TakeStands(k: State, s: Sema, x: Tid)
    requires Sound(k, true) && MayDown(k, s) && x in k.th && x != k.current
    ensures Standing(k, TryDownResult(k, s), x)
  {
    hide Sound, DonorsSafe;
  }

  lemma UpStands(k: State, s: Sema, x: Tid)
    requires Sound(k, true) && s in k.waiters && s.Plain? && x in k.th
    ensures Standing(k, UppedSafely(k, s), x)
  {
    UpKeeps(k, s, k.ticks + 1);
    WakingStands(k, s, x);
    hide Sound, Standing, Upped, DonorsSafe;
  }

  lemma GotStands(k: State, l: Lock, x: Tid)
    requires Sound(k, true) && k.th[k.current].pc == GotLock(l) && x in k.th && x != k.current
    ensures Standing(k, AfterGot(k, l), x)
  {
    CurrentIsKnown(k);
    hide Sound, DonorsSafe;
  }

  /** The thread waits for a lock that the running thread is just giving back. */
  ghost predicate WokenBy(k: State, e: Event, x: Tid)
    requires x in k.th
  {
    e.FinishRelease? && k.current in k.th && k.th[k.current].pc.Releasing? && k.th[x].pc == Downing(OfLock(k.th[k.current].pc.lock))
  }

  lemma SemaStands(k: State, e: Event, x: Tid)
    requires Sound(k, true) && Enabled(k, e) && OnSema(e) && x in k.th && x != k.current && !WokenBy(k, e, x)
    ensures Standing(k, SemaResult(k, e), x)
  {
    CurrentIsKnown(k);
    hide Sound, DonorsSafe, DonateBut, WindowsOk, Standing, AfterDown, TryDownResult, UppedSafely, AfterGot, LockUppedSafely;
    match e
    case Down(s) => DownStands(k, s, None, x);
    case TryDown(s) => TakeStands(k, s, x);
    case TryAcquire(l) => TakeStands(k, OfLock(l), x);
    case Up(s) => UpStands(k, s, x);
    case Finish => GotStands(k, k.th[k.current].pc.lock, x);
    case FinishRelease => LockUpStands(k, k.th[k.current].pc.lock, x);
    case _ =>
  }

  lemma OwnStands(k: State, e: Event, x: Tid)
    requires Sound(k, true) && Enabled(k, e) && x in k.th && x != k.current
    ensures Standing(k, OwnResult(k, e), x)
  {
    CurrentIsKnown(k);
    hide Sound, DonorsSafe, OtherDonors, SortedByPriority, Refreshed;
  }

  /** No step of others moves a thread on, lowers it, takes a donor from it, or wakes it while it waits for a
      lock that is not given back. */
  lemma StepStands(k: State, e: Event, x: Tid)
    requires Sound(k, true) && Enabled(k, e) && x in k.th && !k.th[x].pc.Sleeping? && !WokenBy(k, e, x)
    requires x != k.current || e.Yield? || e.Tick?
    ensures Standing(k, Apply(k, e), x)
  {
    hide Sound, DonorsSafe, Standing, Enabled, AfterAcquire, ClockResult, SemaResult, OwnResult, WokenBy;
    if e.Acquire? { MayAcquireIs(k, e.lock); AcquireStands(k, e.lock, x); }
    else if OnClock(e) { ClockStands(k, e, x); }
    else if OnSema(e) { SemaStands(k, e, x); }
    else { OwnStands(k, e, x); }
  }

  lemma MayAcquireIs(k: State, l: Lock)
    requires Sound(k, true) && Enabled(k, Acquire(l))
    ensures MayAcquire(k, l)
  {
    hide Sound;
  }

  /** No step of others takes a lock from its holder. */
  lemma HolderStays(k: State, e: Event, t: Tid, l: Lock)
    requires Sound(k, true) && Enabled(k, e) && HoldsStill(k, t, l) && (t != k.current || !e.LetGo?)
    ensures HoldsStill(Apply(k, e), t, l)
  {
    if e.Finish? {
      FinishKeepsHolders(k, t, l);
    } else if e.LetGo? {
      LetGoKeepsHolders(k, t, l);
    } else {
      OthersKeepHolders(k, e);
    }
    hide Sound, DonorsSafe, Apply;
  }

  lemma FinishKeepsHolders(k: State, t: Tid, l: Lock)
    requires Sound(k, true) && Enabled(k, Finish) && HoldsStill(k, t, l)
    ensures HoldsStill(Apply(k, Finish), t, l)
  {
    GotLocks(k, k.th[k.current].pc.lock);
    hide Sound, DonorsSafe;
  }

  lemma LetGoKeepsHolders(k: State, t: Tid, l: Lock)
    requires Sound(k, true) && Enabled(k, LetGo) && HoldsStill(k, t, l) && t != k.current
    ensures HoldsStill(Apply(k, LetGo), t, l)
  {
    HolderClearedLocks(k);
    hide Sound, DonorsSafe;
  }

  lemma OthersKeepHolders(k: State, e: Event)
    requires Sound(k, true) && Enabled(k, e) && !e.Finish? && !e.LetGo?
    ensures Apply(k, e).holder == k.holder
  {
    hide Sound, DonorsSafe, DonateBut, WindowsOk, Enabled, AfterAcquire, ClockResult, SemaResult, OwnResult;
    if e.Acquire? { MayAcquireIs(k, e.lock); AcquireKeepsHolders(k, e.lock); }
    else if OnClock(e) { ClockKeepsHolders(k, e); }
    else if OnSema(e) { SemaKeepsHolders(k, e); }
    else { OwnKeepsHolders(k, e); }
  }

  lemma OwnKeepsHolders(k: State, e: Event)
    requires Sound(k, true) && Enabled(k, e) && !e.LetGo?
    ensures OwnResult(k, e).holder == k.holder
  {
    CurrentIsKnown(k);
    hide Sound, DonorsSafe, OtherDonors, SortedByPriority, Refreshed;
  }

  lemma AcquireKeepsHolders(k: State, l: Lock)
    requires Sound(k, true) && MayAcquire(k, l)
    ensures AfterAcquire(k, l).holder == k.holder
  {
    if k.holder[l] != None {
      HeldReachesDown(k, l);
      DonatedShape(k, l);
      DownKeepsHolders(Donated(k, l), OfLock(l), Some(k.current));
    } else {
      DownKeepsHolders(k, OfLock(l), None);
    }
    hide Sound, DonorsSafe, CanDonate, Donated, AfterDown, Disturbs;
  }

  lemma DownKeepsHolders(k: State, s: Sema, pending: Option<Tid>)
    requires Sound(k, true) && MayDown(k, s) && PendingFor(k, s, pending) && (pending.Some? ==> k.value[s] == 0)
    ensures AfterDown(k, s, pending).holder == k.holder
  {
    hide Sound, DonorsSafe, DonateBut, WindowsOk, TopQueue, NextThread;
  }

  lemma ClockKeepsHolders(k: State, e: Event)
    requires Sound(k, true) && Enabled(k, e) && OnClock(e)
    ensures ClockResult(k, e).holder == k.holder
  {
    hide Sound, DonorsSafe, DonateBut, WindowsOk, TopQueue, NextThread, AfterTick, AfterSleep, AfterStop, YieldIf;
    match e
    case Yield => YieldKeepsHolders(k);
    case Tick => TickKeepsHolders(k);
    case Stop => StopKeepsHolders(k);
    case Sleep(n) => SleepKeepsHolders(k, n);
    case _ =>
  }

  lemma YieldKeepsHolders(k: State)
    requires Sound(k, true)
    ensures YieldIf(k, true).holder == k.holder
  {
    hide Sound, DonorsSafe, TopQueue, NextThread;
  }

  lemma StopKeepsHolders(k: State)
    requires Sound(k, true) && k.th[k.current].pc.Normal?
    ensures AfterStop(k).holder == k.holder
  {
    hide Sound, DonorsSafe, DonateBut, WindowsOk, TopQueue, NextThread;
  }

  lemma SleepKeepsHolders(k: State, n: int)
    requires Sound(k, true) && k.current != k.idle && k.th[k.current].pc.Normal?
    ensures AfterSleep(k, n).holder == k.holder
  {
    hide Sound, DonorsSafe, DonateBut, WindowsOk, TopQueue, NextThread, InsertByTick;
  }

  lemma TickKeepsHolders(k: State)
    requires Sound(k, true)
    ensures AfterTick(k).holder == k.holder
  {
    hide BaseOk, SleepFrom, PlansOk, DonateBut, WindowsOk, TopQueue, NextThread, AllWoken;
    TickStarts(k);
    WakingKeepsHolders(k.(ticks := k.ticks + 1, yield_on_return := false));
  }

  lemma {:induction false} WakingKeepsHolders(k: State)
    requires BaseOk(k, true) && SleepFrom(k, k.ticks)
    ensures AllWoken(k).holder == k.holder
    decreases |k.sleepers|
  {
    hide BaseOk, SleepFrom;
    if HeadIsDue(k) {
      WakeSleeperKeeps(k, k.ticks);
      WakingKeepsHolders(WokeSleeper(k));
    }
  }

  lemma SemaKeepsHolders(k: State, e: Event)
    requires Sound(k, true) && Enabled(k, e) && OnSema(e) && !e.Finish?
    ensures SemaResult(k, e).holder == k.holder
  {
    CurrentIsKnown(k);
    hide Sound, DonorsSafe, DonateBut, WindowsOk, AfterDown, UppedSafely, LockUppedSafely;
    match e
    case Down(s) => DownKeepsHolders(k, s, None);
    case Up(s) => UpKeepsHolders(k, s);
    case FinishRelease => LockUpKeepsHolders(k, k.th[k.current].pc.lock);
    case _ =>
  }

  lemma UpKeepsHolders(k: State, s: Sema)
    requires Sound(k, true) && s in k.waiters && s.Plain?
    ensures UppedSafely(k, s).holder == k.holder
  {
    UpKeeps(k, s, k.ticks + 1);
    hide Sound, DonorsSafe, FirstMax;
  }

  lemma LockUpKeepsHolders(k: State, l: Lock)
    requires Sound(k, true) && k.th[k.current].pc == Releasing(l)
    ensures LockUppedSafely(k, l).holder == k.holder
  {
    LockUpKeeps(k, l, k.ticks + 1);
    hide Sound, DonorsSafe, FirstMax;
  }

  // ----- a thread about to assign itself too low a priority

  /** `d` is on the donations of `t` and waits for a lock that `t` holds. */
  ghost predicate WaitsOn(k: State, d: Tid, t: Tid) {
    && t in k.th && d in k.th && d in k.th[t].donations && LockWait(k.th[d])
    && k.th[d].waiting_lock == Some(k.th[d].pc.sema.lock) && HoldsStill(k, t, k.th[d].pc.sema.lock)
  }

  /** Such a donor outranks the priority that `t` is about to assign to itself. */
  ghost predicate Overtaken(k: State, t: Tid, d: Tid) {
    WaitsOn(k, d, t) && Aim(k.th[t].pc).Some? && Aim(k.th[t].pc).value < k.th[d].priority
  }

  /** Thread `t` runs below a thread that is on its donations and waits for a lock that it holds. */
  ghost predicate Undercuts(k: State, t: Tid, d: Tid) {
    && t in k.th && d in k.th[t].donations && DonorWaits(k, d, t) && k.th[t].priority < k.th[d].priority
  }

  /** A donor goes on waiting through every step, but for those that the other thread takes on its way. */
  lemma WaitsOnStays(k: State, e: Event, t: Tid, d: Tid)
    requires Sound(k, true) && Enabled(k, e) && WaitsOn(k, d, t) && InWindow(k.th[t].pc)
    requires t != k.current || e.Yield? || e.Tick?
    ensures WaitsOn(Apply(k, e), d, t) && Standing(k, Apply(k, e), t) && Standing(k, Apply(k, e), d)
  {
    WaiterRests(k, d);
    NotWokenBy(k, e, d, t);
    WindowNotWoken(k, e, t);
    WaitsOnIs(k, t, d);
    hide Sound, DonorsSafe, Apply, Enabled, WokenBy, Standing, WaitsOn;
    HolderStays(k, e, t, k.th[d].pc.sema.lock);
    StepStands(k, e, t);
    StepStands(k, e, d);
    StandingWaits(k, Apply(k, e), t, d);
  }

  lemma WaitsOnIs(k: State, t: Tid, d: Tid)
    requires WaitsOn(k, d, t)
    ensures k.th[d].pc.Downing? && k.th[d].pc.sema.OfLock? && HoldsStill(k, t, k.th[d].pc.sema.lock)
  {
  }

  lemma StandingWaits(k: State, k': State, t: Tid, d: Tid)
    requires WaitsOn(k, d, t) && Standing(k, k', t) && Standing(k, k', d) && HoldsStill(k', t, k.th[d].pc.sema.lock)
    ensures WaitsOn(k', d, t)
  {
  }

  lemma WindowNotWoken(k: State, e: Event, t: Tid)
    requires t in k.th && InWindow(k.th[t].pc)
    ensures !k.th[t].pc.Sleeping? && !WokenBy(k, e, t)
  {
  }

  lemma WaiterRests(k: State, d: Tid)
    requires Sound(k, true) && d in k.th && LockWait(k.th[d])
    ensures d != k.current
  {
    hide ReadyOk, WaitOk, CountOk, LockOk, SleepFrom;
  }

  /** Nobody but its holder gives back the lock that a thread waits for. */
  lemma NotWokenBy(k: State, e: Event, d: Tid, t: Tid)
    requires Sound(k, true) && WaitsOn(k, d, t) && (t != k.current || !e.FinishRelease?)
    ensures !WokenBy(k, e, d)
  {
    var l := k.th[d].pc.sema.lock;
    assert LockFacts(k, l) && InsideLock(k, t, l);
    assert k.th[k.current].pc == Releasing(l) ==> InsideLock(k, k.current, l);
    hide WaitOk, CountOk, SleepFrom;
  }

  /** As long as `t` does not take its next step, whatever others do, it stays overtaken; and its next step is
      the assignment, after which it runs below its donor. */
  lemma OvertakenStep(k: State, e: Event, t: Tid, d: Tid)
    requires Sound(k, true) && Enabled(k, e) && Overtaken(k, t, d)
    ensures if e.Assign? && t == k.current then Undercuts(Apply(k, e), t, d) else Overtaken(Apply(k, e), t, d)
  {
    if e.Assign? && t == k.current {
      AssignUndercuts(k, t, d);
    } else {
      if t == k.current { NextIsAssign(k, e, t); }
      WaitsOnStays(k, e, t, d);
    }
    hide Sound, DonorsSafe, Apply, Enabled;
  }

  lemma NextIsAssign(k: State, e: Event, t: Tid)
    requires Sound(k, true) && Enabled(k, e) && t in k.th && Aim(k.th[t].pc).Some? && t == k.current
    ensures e.Assign? || e.Yield? || e.Tick?
  {
    hide Sound;
  }

  lemma AssignUndercuts(k: State, t: Tid, d: Tid)
    requires Sound(k, true) && Enabled(k, Assign) && Overtaken(k, t, d) && t == k.current
    ensures Undercuts(Apply(k, Assign), t, d)
  {
    WaiterRests(k, d);
    hide Sound, DonorsSafe;
  }

  /** At some point of the run `t` runs below its donor. */
  ghost predicate UndercutsOn(k: State, es: seq<Event>, t: Tid, d: Tid)
    requires Sound(k, true) && Possible(k, es)
    decreases |es|
  {
    Undercuts(k, t, d) || (es != [] && UndercutsOn(Apply(k, es[0]), es[1..], t, d))
  }

  /** On every run, `t` stays overtaken to the end or runs below its donor on the way. */
  lemma {:induction false} OvertakenToTheEnd(k: State, es: seq<Event>, t: Tid, d: Tid)
    requires Sound(k, true) && Possible(k, es) && Overtaken(k, t, d)
    ensures Overtaken(Run(k, es), t, d) || UndercutsOn(k, es, t, d)
    decreases |es|
  {
    hide Sound, Apply, Enabled, Overtaken, Undercuts;
    if es != [] {
      OvertakenStep(k, es[0], t, d);
      if Overtaken(Apply(k, es[0]), t, d) { OvertakenToTheEnd(Apply(k, es[0]), es[1..], t, d); }
    }
  }

  // ----- a thread about to give up the lock that a donor waits for

  /** `d` is on the donations of `t` and waits for the lock that `t` is about to give up. */
  ghost predicate Awaited(k: State, t: Tid, d: Tid) {
    WaitsOn(k, d, t) && GivingUp(k.th[t].pc) == k.th[d].waiting_lock
  }

  /** A thread on the donations of `t` waits for lock `l`, which nobody holds. */
  ghost predicate KeepsDonor(k: State, t: Tid, d: Tid, l: Lock) {
    && t in k.th && d in k.th && d in k.th[t].donations && k.th[d].waiting_lock == Some(l)
    && l in k.holder && k.holder[l] == None
  }

  /** Until `t` clears the holder, whatever it and others do, the donor stays; and then `t` keeps it. */
  lemma AwaitedStep(k: State, e: Event, t: Tid, d: Tid)
    requires Sound(k, true) && Enabled(k, e) && Awaited(k, t, d)
    ensures if e.LetGo? && t == k.current then KeepsDonor(Apply(k, e), t, d, k.th[d].waiting_lock.value)
            else Awaited(Apply(k, e), t, d) && Apply(k, e).th[d].waiting_lock == k.th[d].waiting_lock
  {
    if t != k.current || e.Yield? || e.Tick? {
      WaitsOnStays(k, e, t, d);
    } else {
      NextOfRelease(k, e, t);
      if e.LetGo? { LetGoKeepsDonor(k, t, d); }
      else if e.Compute? { ComputeKeepsDonor(k, t, d); }
      else { AssignKeepsDonor(k, t, d); }
    }
    hide Sound, DonorsSafe, Apply, Enabled;
  }

  lemma NextOfRelease(k: State, e: Event, t: Tid)
    requires Sound(k, true) && Enabled(k, e) && t in k.th && GivingUp(k.th[t].pc).Some? && t == k.current
    ensures e.Compute? || e.Assign? || e.LetGo? || e.Yield? || e.Tick?
  {
    hide Sound;
  }

  lemma LetGoKeepsDonor(k: State, t: Tid, d: Tid)
    requires Sound(k, true) && Enabled(k, LetGo) && Awaited(k, t, d) && t == k.current
    ensures KeepsDonor(Apply(k, LetGo), t, d, k.th[d].waiting_lock.value)
  {
    WaiterRests(k, d);
    hide Sound, DonorsSafe;
  }

  lemma ComputeKeepsDonor(k: State, t: Tid, d: Tid)
    requires Sound(k, true) && Enabled(k, Compute) && Awaited(k, t, d) && t == k.current
    ensures Awaited(Apply(k, Compute), t, d) && Apply(k, Compute).th[d].waiting_lock == k.th[d].waiting_lock
  {
    WaiterRests(k, d);
    SortingKeeps(k.th, k.th[t].donations, d);
    hide Sound, DonorsSafe, SortedByPriority, Refreshed;
  }

  lemma AssignKeepsDonor(k: State, t: Tid, d: Tid)
    requires Sound(k, true) && Enabled(k, Assign) && Awaited(k, t, d) && t == k.current
    ensures Awaited(Apply(k, Assign), t, d) && Apply(k, Assign).th[d].waiting_lock == k.th[d].waiting_lock
  {
    WaiterRests(k, d);
    hide Sound, DonorsSafe;
  }

  /** Sorting loses nobody, even if a thread is there twice. */
  lemma {:induction false} SortingKeeps(th: Threads, s: seq<Tid>, d: Tid)
    requires d in s
    ensures d in SortedByPriority(th, s)
  {
    if d != s[0] { SortingKeeps(th, s[1..], d); }
    InsertingKeeps(th, s[0], SortedByPriority(th, s[1..]), d);
  }

  lemma {:induction false} InsertingKeeps(th: Threads, t: Tid, s: seq<Tid>, d: Tid)
    requires d in s || d == t
    ensures d in InsertByPriority(th, t, s)
  {
    if s != [] && Pri(th, t) < Pri(th, s[0]) && d != s[0] { InsertingKeeps(th, t, s[1..], d); }
  }

  /** At some point of the run `t` keeps a donor for a lock without a holder. */
  ghost predicate KeepsDonorOn(k: State, es: seq<Event>, t: Tid, d: Tid, l: Lock)
    requires Sound(k, true) && Possible(k, es)
    decreases |es|
  {
    KeepsDonor(k, t, d, l) || (es != [] && KeepsDonorOn(Apply(k, es[0]), es[1..], t, d, l))
  }

  /** On every run, the donor stays to the end with `t` still about to give the lock up, or `t` keeps it on the
      way. */
  lemma {:induction false} AwaitedToTheEnd(k: State, es: seq<Event>, t: Tid, d: Tid)
    requires Sound(k, true) && Possible(k, es) && Awaited(k, t, d)
    ensures Awaited(Run(k, es), t, d) || KeepsDonorOn(k, es, t, d, k.th[d].waiting_lock.value)
    decreases |es|
  {
    hide Sound, Apply, Enabled, KeepsDonor, WaitsOn;
    AwaitedIs(k, t, d);
    if es != [] {
      AwaitedStep(k, es[0], t, d);
      if Awaited(Apply(k, es[0]), t, d) { AwaitedToTheEnd(Apply(k, es[0]), es[1..], t, d); }
    }
  }

  lemma AwaitedIs(k: State, t: Tid, d: Tid)
    requires Awaited(k, t, d)
    ensures t in k.th && d in k.th && k.th[d].waiting_lock.Some?
  {
  }

  // ----- the acquisition that disturbs

  /** The thread that acquires now waits for the holder. */
  lemma CurrentWaits(k: State, l: Lock)
    requires Sound(k, true) && MayAcquire(k, l) && k.holder[l] != None
    ensures var k', c := AfterAcquire(k, l), k.current;
            WaitsOn(k', c, k.holder[l].value) && k'.th[c].waiting_lock == Some(l) && k'.th[c].priority >= k.th[c].priority
  {
    var k1, h := Donated(k, l), k.holder[l].value;
    HeldReachesDown(k, l);
    DonatedCurrent(k, l);
    AcquireKeepsHolders(k, l);
    hide Sound, DonorsSafe, DonateBut, WindowsOk, CanDonate, Donated, Disturbs;
    BlockedWaits(k1, OfLock(l));
    DownStands(k1, OfLock(l), Some(k.current), h);
  }

  lemma DonatedCurrent(k: State, l: Lock)
    requires QueuesExist(k) && MayAcquire(k, l) && k.holder[l] != None
    ensures var k1, c, h := Donated(k, l), k.current, k.holder[l].value;
            && k1.current == c && c in k1.th && h in k1.th && h != c && k1.th[c].waiting_lock == Some(l)
            && k1.th[c].priority >= k.th[c].priority && c in k1.th[h].donations
  {
    DonatedShape(k, l);
    WalkRaises(Donating(k, l), l, k.th[k.current].priority, WalkLength(k, l));
    hide Raised, Chain, ChainEnds, WalkLength, CanDonate, QueuesExist;
  }

  lemma BlockedWaits(k: State, s: Sema)
    requires Sound(k, true) && MayDown(k, s) && k.value[s] == 0 && s.OfLock?
    ensures SoundFrom(BlockedOn(k, s), false, k.ticks + 1)
    ensures var th', c := Switch(BlockedOn(k, s)).th, k.current;
            && c in th' && LockWait(th'[c]) && th'[c].pc == Downing(s)
            && th'[c].waiting_lock == k.th[c].waiting_lock && th'[c].priority >= k.th[c].priority
  {
    BlockOnKeeps(k, s, None, k.ticks + 1);
    DispatchStands(BlockedOn(k, s), k.current);
    hide ReadyOk, WaitOk, CountOk, LockOk, SleepFrom, PlansOk, DonateBut, WindowsOk, Dispatched;
  }

  /** A donor raised by the walk goes on waiting, at the priority of the acquiring thread at least. */
  lemma RaisedDonorWaits(k: State, l: Lock, t: Tid, d: Tid)
    requires Sound(k, true) && MayAcquire(k, l) && k.holder[l] != None
    requires WaitsOn(k, d, t) && t != k.current && d in Chain(Donating(k, l), l, WalkLength(k, l))
    ensures var k' := AfterAcquire(k, l);
            WaitsOn(k', d, t) && k'.th[t].pc == k.th[t].pc && k'.th[d].priority >= k.th[k.current].priority
  {
    WaiterRests(k, d);
    HeldReachesDown(k, l);
    DonatedShape(k, l);
    AcquireKeepsHolders(k, l);
    hide Sound, DonorsSafe, DonateBut, WindowsOk, CanDonate, Donated, Disturbs, Chain;
    AcquireStands(k, l, t);
    AcquireStands(k, l, d);
    DonatedStands(k, l, d);
    DownStands(Donated(k, l), OfLock(l), Some(k.current), d);
  }

  lemma RegisteredWaits(k: State, t: Tid, d: Tid)
    requires DonateOk(k, None) && t in k.th && d in k.th[t].donations
    ensures WaitsOn(k, d, t)
  {
    assert DonorsOk(k, t, None, Ceiling(k, t, None, 0));
    assert Registered(k, d, t, None);
  }

  /** A disturbing acquisition overtakes a thread, or leaves one that gives up its lock awaited. */
  lemma DisturbanceLeaves(k: State, l: Lock) returns (t: Tid, d: Tid)
    requires Inv(k, true) && MayAcquire(k, l) && Disturbs(k, l)
    ensures var k' := AfterAcquire(k, l); Overtaken(k', t, d) || (Awaited(k', t, d) && k'.th[d].waiting_lock == Some(l))
  {
    t, d := Disturbed(k, l);
    DisturbedOther(k, l, t, d);
    hide Sound, DonorsSafe, DonateBut, CanDonate, AfterAcquire, Disturbs, Chain, WalkLength;
    if d == k.current {
      CurrentWaits(k, l);
      HolderKeepsPlace(k, l);
    } else {
      RaisedDonorWaits(k, l, t, d);
    }
  }

  lemma HolderKeepsPlace(k: State, l: Lock)
    requires Sound(k, true) && MayAcquire(k, l) && k.holder[l] != None
    ensures var h := k.holder[l].value; h in AfterAcquire(k, l).th && AfterAcquire(k, l).th[h].pc == k.th[h].pc
  {
    hide Sound, ChainEnds;
    AcquireStands(k, l, k.holder[l].value);
    hide AfterAcquire;
  }

  lemma DisturbedOther(k: State, l: Lock, t: Tid, d: Tid)
    requires Inv(k, true) && MayAcquire(k, l) && k.holder[l] != None && t in k.th
    requires Donating(k, l).th.Keys == k.th.Keys && d in Donating(k, l).th[t].donations
    requires Outdates(k, l, t, d) || (d == k.current && GivingUp(k.th[t].pc) == Some(l))
    ensures d == k.current ==> k.holder[l] == Some(t)
    ensures d != k.current ==> WaitsOn(k, d, t) && t != k.current && Aim(k.th[t].pc).Some? && Aim(k.th[t].pc).value < k.th[k.current].priority
                               && d in Chain(Donating(k, l), l, WalkLength(k, l))
    ensures d == k.current ==> GivingUp(k.th[t].pc) == Some(l) || (Aim(k.th[t].pc).Some? && Aim(k.th[t].pc).value < k.th[k.current].priority)
  {
    DonorsAreOthers(k);
    hide Sound, DonateBut, CanDonate, Chain, WalkLength;
    FirstHolderOnly(k, l, t, d);
    if d != k.current {
      assert d in k.th[t].donations;
      RegisteredWaits(k, t, d);
    }
  }

  /** Nothing puts a disturbance right: on every run that follows it, the disturbed thread stays about to act,
      or has come to run below a donor, or to keep a donor for a lock without a holder. */
  lemma DisturbanceTells(k: State, l: Lock, es: seq<Event>) returns (t: Tid, d: Tid)
    requires Inv(k, true) && Enabled(k, Acquire(l)) && Disturbs(k, l) && Possible(Apply(k, Acquire(l)), es)
    ensures var k1 := Apply(k, Acquire(l));
            || Overtaken(Run(k1, es), t, d) || UndercutsOn(k1, es, t, d)
            || Awaited(Run(k1, es), t, d) || KeepsDonorOn(k1, es, t, d, l)
  {
    MayAcquireIs(k, l);
    t, d := DisturbanceLeaves(k, l);
    hide Sound, DonorsSafe, Enabled, AfterAcquire, Disturbs, Overtaken, Awaited;
    var k1 := Apply(k, Acquire(l));
    if Overtaken(k1, t, d) {
      OvertakenToTheEnd(k1, es, t, d);
    } else {
      AwaitedToTheEnd(k1, es, t, d);
    }
  }
}
