module KernelRuns {
  // Whole runs of the threads subsystem: every step the running thread or the timer can take, and what holds
  // after any number of them.

  import opened KernelLists
  import opened KernelState
  import opened KernelKeep
  import opened KernelSwitch
  import opened KernelSync
  import opened KernelDonate
  import opened KernelRelease
  import opened KernelTimer
  import opened KernelAcquire
  import opened KernelMeaning
  import opened KernelSteps

  // ----- the initial state

  /** The state after `thread_start`: the first thread runs, the idle thread is blocked, every list is
      empty, no lock is held, and semaphores have any initial value. */
  ghost predicate Booted(k: State) {
    && k.current != k.idle
    && k.th == map[k.current := NewThread(PRI_DEFAULT).(status := Running), k.idle := NewThread(PRI_MIN)]
    && |k.ready| == PRI_MAX + 1 && (forall p :: 0 <= p <= PRI_MAX ==> k.ready[p] == [])
    && k.sleepers == []
    && k.waiters.Keys == k.value.Keys && (forall s :: s in k.waiters ==> k.waiters[s] == [] && k.value[s] >= 0)
    && k.holder.Keys == k.owner.Keys && (forall l :: l in k.holder ==> k.holder[l] == None && k.owner[l] == None)
    && (forall l :: l in k.holder <==> OfLock(l) in k.value) && (forall l :: l in k.holder ==> k.value[OfLock(l)] == 1)
  }

  lemma BootIsSafe(k: State)
    requires Booted(k)
    ensures Inv(k, true)
  {
    BootQueues(k);
    BootLists(k);
    BootDonates(k);
    hide ReadyOk, DonateBut, WaitOk, CountOk, LockOk, WindowsOk;
  }

  lemma BootQueues(k: State)
    requires Booted(k)
    ensures ReadyOk(k)
  {
    forall p | 0 <= p <= PRI_MAX ensures QueueOk(k, p) { assert k.ready[p] == []; }
  }

  lemma BootDonates(k: State)
    requires Booted(k)
    ensures DonateOk(k, None) && WindowsOk(k.th)
  {
    forall t | t in k.th ensures DonorsOk(k, t, None, Ceiling(k, t, None, 0)) && WaitingLockOk(k, t, None) {
      assert k.th[t].donations == [];
    }
  }

  lemma BootLists(k: State)
    requires Booted(k)
    ensures WaitOk(k) && CountOk(k) && LockOk(k)
  {
    forall s | s in k.waiters ensures WaitersOk(k, s) && NothingLost(k, s) { assert k.waiters[s] == []; }
    BootLocks(k);
    hide LockOk;
  }

  lemma BootLocks(k: State)
    requires Booted(k)
    ensures LockOk(k)
  {
    forall s | s in k.value && s.OfLock? ensures s.lock in k.holder { assert s == OfLock(s.lock); }
    forall l | l in k.holder ensures LockFacts(k, l) { assert k.value[OfLock(l)] == 1; }
  }

  // ----- steps and runs

  /** A step of the running thread, or a timer interrupt. `Down` is a pass of the loop of `sema_down`, the
      first or a later one. `SetBase`, `Decide`, `Assign` are `thread_set_priority`; `Clear` and `Finish`
      end `lock_acquire`; `Drop`, `Compute`, `Assign`, `LetGo`, `FinishRelease` are `lock_release`. Calls
      end in a test for a yield, which may come later than the rest: a `Yield` is possible at any time. */
  datatype Event = Yield | Tick | Create(thread: Tid, priority: int) | Stop | Sleep(n: int)
                 | SetBase(priority: int) | Decide | Assign
                 | Down(sema: Sema) | TryDown(sema: Sema) | Up(sema: Sema)
                 | Acquire(lock: Lock) | TryAcquire(lock: Lock) | Clear | Finish
                 | Drop(lock: Lock) | Compute | LetGo | FinishRelease

  ghost predicate AtCall(k: State) {
    k.current in k.th && k.th[k.current].pc.Normal?
  }

  /** What the source demands of the caller of each operation. */
  ghost predicate Enabled(k: State, e: Event)
    requires Sound(k, true)
  {
    match e
    case Yield => true
    case Tick => true
    case Create(t, p) => AtCall(k) && PRI_MIN <= p <= PRI_MAX && t !in k.th
    case Stop => AtCall(k)
    case Sleep(n) => AtCall(k) && k.current != k.idle
    case SetBase(n) => AtCall(k) && PRI_MIN <= n <= PRI_MAX
    case Decide => k.th[k.current].pc.BaseSet?
    case Assign => Aim(k.th[k.current].pc).Some?
    case Down(s) => MayDown(k, s) && (s.Plain? || k.th[k.current].pc == Downing(s))
    case TryDown(s) => AtCall(k) && s.Plain? && MayDown(k, s)
    case Up(s) => AtCall(k) && s.Plain? && s in k.waiters
    case Acquire(l) => MayAcquire(k, l)
    case TryAcquire(l) => AtCall(k) && MayDown(k, OfLock(l)) && l in k.holder && k.holder[l] != Some(k.current)
    case Clear => k.th[k.current].pc.GotLock?
    case Finish => k.th[k.current].pc.GotLock? && k.th[k.current].waiting_lock == None
    case Drop(l) => AtCall(k) && k.current != k.idle && l in k.holder && k.holder[l] == Some(k.current)
    case Compute => k.th[k.current].pc.Dropped?
    case LetGo => k.th[k.current].pc.Letting?
    case FinishRelease => k.th[k.current].pc.Releasing?
  }

  /** The step does not upset a thread preempted inside `thread_set_priority` or `lock_release`. */
  ghost predicate Undisturbing(k: State, e: Event)
    requires Sound(k, true) && Enabled(k, e)
  {
    e.Acquire? ==> !Disturbs(k, e.lock)
  }

  ghost function TryDownResult(k: State, s: Sema): (r: State)
    requires Sound(k, true) && MayDown(k, s)
    ensures Sound(r, true) && (DonorsSafe(k) ==> DonorsSafe(r))
  {
    TakeKeepsIfPositive(k, s);
    if k.value[s] > 0 then Took(k, s) else k
  }

  lemma TakeKeepsIfPositive(k: State, s: Sema)
    requires Sound(k, true) && MayDown(k, s)
    ensures k.value[s] > 0 ==> Sound(Took(k, s), true) && (DonorsSafe(k) ==> DonorsSafe(Took(k, s)))
  {
    hide BaseOk, SleepFrom, PlansOk, DonateBut, WindowsOk;
    if k.value[s] > 0 { TakeKeeps(k, s, k.ticks + 1); }
  }

  /** The steps of `thread_set_priority` and `lock_release` before its `sema_up`. */
  ghost function OwnResult(k: State, e: Event): (r: State)
    requires Sound(k, true) && Enabled(k, e)
    ensures Sound(r, true) && (DonorsSafe(k) ==> DonorsSafe(r))
  {
    hide SoundFrom, DonorsSafe;
    match e
    case SetBase(n) => BaseWrittenKeeps(k, n); BaseWritten(k, n)
    case Decide => DecidedKeeps(k); Decided(k)
    case Assign => AssignedKeeps(k); Assigned(k)
    case Clear => WaitClearedKeeps(k); WaitCleared(k)
    case Drop(l) => DonorsDroppedKeeps(k, l); DonorsDropped(k, l)
    case Compute => ComputedKeeps(k); Computed(k)
    case LetGo => HolderClearedKeeps(k); HolderCleared(k)
    case _ => k
  }

  /** Steps of the scheduler and the timer. */
  ghost function ClockResult(k: State, e: Event): (r: State)
    requires Sound(k, true) && Enabled(k, e)
    ensures Sound(r, true) && (DonorsSafe(k) ==> DonorsSafe(r))
  {
    hide SoundFrom, DonorsSafe;
    match e
    case Yield => YieldIf(k, true)
    case Tick => AfterTick(k)
    case Create(t, p) => CreatedSafely(k, t, p)
    case Stop => AfterStop(k)
    case Sleep(n) => AfterSleep(k, n)
    case _ => k
  }

  /** Steps that work on a semaphore, but for an acquisition. */
  ghost function SemaResult(k: State, e: Event): (r: State)
    requires Sound(k, true) && Enabled(k, e)
    ensures Sound(r, true) && (DonorsSafe(k) ==> DonorsSafe(r))
  {
    hide SoundFrom, WindowsOk, DonateBut;
    match e
    case Down(s) => AfterDown(k, s, None)
    case TryDown(s) => TryDownResult(k, s)
    case TryAcquire(l) => TryDownResult(k, OfLock(l))
    case Up(s) => UppedSafely(k, s)
    case Finish => AfterGot(k, k.th[k.current].pc.lock)
    case FinishRelease => LockUppedSafely(k, k.th[k.current].pc.lock)
    case _ => k
  }

  predicate OnClock(e: Event) {
    e.Yield? || e.Tick? || e.Create? || e.Stop? || e.Sleep?
  }

  predicate OnSema(e: Event) {
    e.Down? || e.TryDown? || e.TryAcquire? || e.Up? || e.Finish? || e.FinishRelease?
  }

  /** Every step keeps lists, semaphores, locks and sleepers in order. It keeps what donors are promised, but
      for an acquisition, which does if and only if it disturbs no preempted thread. */
  ghost function Apply(k: State, e: Event): (r: State)
    requires Sound(k, true) && Enabled(k, e)
    ensures Sound(r, true)
    ensures DonorsSafe(k) ==> (DonorsSafe(r) <==> Undisturbing(k, e))
  {
    hide SoundFrom, DonorsSafe;
    if e.Acquire? then AfterAcquire(k, e.lock)
    else if OnClock(e) then ClockResult(k, e)
    else if OnSema(e) then SemaResult(k, e)
    else OwnResult(k, e)
  }

  /** Every step of the sequence is possible when its turn comes. */
  ghost predicate Possible(k: State, es: seq<Event>)
    requires Sound(k, true)
    decreases |es|
  {
    es != [] ==> Enabled(k, es[0]) && Possible(Apply(k, es[0]), es[1..])
  }

  ghost function Run(k: State, es: seq<Event>): (r: State)
    requires Sound(k, true) && Possible(k, es)
    ensures Sound(r, true)
    decreases |es|
  {
    if es == [] then k else Run(Apply(k, es[0]), es[1..])
  }

  /** No acquisition of the run upsets a preempted thread. */
  ghost predicate Calm(k: State, es: seq<Event>)
    requires Sound(k, true) && Possible(k, es)
    decreases |es|
  {
    es != [] ==> Undisturbing(k, es[0]) && Calm(Apply(k, es[0]), es[1..])
  }

  /** A calm run keeps the whole invariant. */
  lemma {:induction false} CalmRunKeeps(k: State, es: seq<Event>)
    requires Inv(k, true) && Possible(k, es) && Calm(k, es)
    ensures Inv(Run(k, es), true)
    decreases |es|
  {
    hide Apply, Sound, DonorsSafe, Enabled, Undisturbing;
    if es != [] { CalmRunKeeps(Apply(k, es[0]), es[1..]); }
  }

  // ----- what a step does to the clock and to the counters

  /** Nothing about the sleepers changes. */
  ghost predicate SameClock(k: State, k': State) {
    k'.sleepers == k.sleepers && k'.ticks == k.ticks && forall t :: t in k.sleepers ==> WakeupTick(k'.th, t) == WakeupTick(k.th, t)
  }

  lemma DispatchFrame(k: State)
    requires ReadyOk(k) && k.idle in k.th
    ensures SameClock(k, Dispatched(k)) && Dispatched(k).value == k.value
  {
    DispatchShape(k);
    hide ReadyOk, TopQueue, NextThread;
  }

  lemma YieldFrame(k: State, condition: bool)
    requires Sound(k, true)
    ensures SameClock(k, YieldIf(k, condition)) && YieldIf(k, condition).value == k.value
  {
    hide WaitOk, CountOk, LockOk, SleepFrom, DonateBut, WindowsOk, Dispatched;
    ParkKeeps(k, k.ticks + 1);
    DispatchFrame(Parked(k));
    hide ReadyOk;
  }

  lemma WakingFrame(k: State, s: Sema)
    requires MayUp(k, s)
    ensures SameClock(k, AfterWaking(k, s)) && AfterWaking(k, s).value == k.value
  {
  }

  lemma DownFrame(k: State, s: Sema, pending: Option<Tid>)
    requires Sound(k, true) && MayDown(k, s) && PendingFor(k, s, pending) && (pending.Some? ==> k.value[s] == 0)
    ensures SameClock(k, AfterDown(k, s, pending))
    ensures k.value[s] >= 0 && AfterDown(k, s, pending).value == k.value[s := if k.value[s] > 0 then k.value[s] - 1 else 0]
  {
    hide SoundFrom, Dispatched;
    CountsAreNatural(k, s);
    if k.value[s] == 0 {
      BlockFrame(k, s);
      assert k.value == k.value[s := 0];
    }
  }

  lemma BlockFrame(k: State, s: Sema)
    requires Sound(k, true) && MayDown(k, s) && k.value[s] == 0
    ensures SoundFrom(BlockedOn(k, s), false, k.ticks + 1)
    ensures SameClock(k, Dispatched(BlockedOn(k, s))) && Dispatched(BlockedOn(k, s)).value == k.value
  {
    hide SleepFrom, PlansOk, DonateBut, ReadyOk, WaitOk, CountOk, LockOk, Dispatched;
    BlockOnKeeps(k, s, None, k.ticks + 1);
    DispatchFrame(BlockedOn(k, s));
  }

  lemma UpFrame(k: State, s: Sema)
    requires Sound(k, true) && s in k.waiters && s.Plain?
    ensures SameClock(k, UppedSafely(k, s)) && s in k.value && UppedSafely(k, s).value == k.value[s := k.value[s] + 1]
  {
    hide BaseOk, SleepFrom, PlansOk, DonateBut, WindowsOk;
    UpKeeps(k, s, k.ticks + 1);
    WakingFrame(k, s);
    hide AfterWaking;
  }

  lemma LockUpFrame(k: State, l: Lock)
    requires Sound(k, true) && k.th[k.current].pc == Releasing(l)
    ensures SameClock(k, LockUppedSafely(k, l))
    ensures OfLock(l) in k.value && LockUppedSafely(k, l).value == k.value[OfLock(l) := k.value[OfLock(l)] + 1]
  {
    hide BaseOk, SleepFrom, PlansOk, DonateBut, WindowsOk;
    LockUpKeeps(k, l, k.ticks + 1);
    WakingFrame(k, OfLock(l));
    hide AfterWaking;
  }

  lemma AcquireFrame(k: State, l: Lock)
    requires Sound(k, true) && MayAcquire(k, l)
    ensures SameClock(k, AfterAcquire(k, l)) && OfLock(l) in k.value && k.value[OfLock(l)] >= 0
    ensures AfterAcquire(k, l).value == k.value[OfLock(l) := if k.value[OfLock(l)] > 0 then k.value[OfLock(l)] - 1 else 0]
  {
    hide SoundFrom, DonorsSafe, CanDonate, Donated, Disturbs, AfterDown;
    if k.holder[l] == None {
      DownFrame(k, OfLock(l), None);
    } else {
      HeldReachesDown(k, l);
      DownFrame(Donated(k, l), OfLock(l), Some(k.current));
      DonatedFrame(k, l);
    }
  }

  lemma DonatedFrame(k: State, l: Lock)
    requires Sound(k, true) && MayAcquire(k, l) && k.holder[l] != None
    ensures QueuesExist(k) && SameClock(k, Donated(k, l)) && Donated(k, l).value == k.value
  {
    BaseHasQueues(k, true);
    hide BaseOk, SleepFrom, PlansOk, DonateBut, WindowsOk;
    WalkRaises(Donating(k, l), l, k.th[k.current].priority, WalkLength(k, l));
    hide Raised, Chain, ChainEnds;
  }

  lemma StopFrame(k: State)
    requires Sound(k, true) && k.th[k.current].pc.Normal?
    ensures SameClock(k, AfterStop(k)) && AfterStop(k).value == k.value
  {
    var status := if k.current == k.idle then Blocked else Dying;
    StopKeeps(k, status, k.ticks + 1);
    DispatchFrame(Stopped(k, status));
    hide SleepFrom, PlansOk, DonateBut, ReadyOk, WaitOk, CountOk, LockOk, Dispatched;
  }

  lemma OwnFrame(k: State, e: Event)
    requires Sound(k, true) && Enabled(k, e)
    ensures SameClock(k, OwnResult(k, e)) && OwnResult(k, e).value == k.value
  {
    hide Sound, SameClock, OwnResult;
    if e.Drop? || e.Compute? || e.LetGo? { ReleaseFrame(k, e); } else { SetPriorityFrame(k, e); }
  }

  lemma ReleaseFrame(k: State, e: Event)
    requires Sound(k, true) && Enabled(k, e) && (e.Drop? || e.Compute? || e.LetGo?)
    ensures SameClock(k, OwnResult(k, e)) && OwnResult(k, e).value == k.value
  {
    CurrentIsKnown(k);
    hide Sound, SameClock, OwnStep, OtherDonors, SortedByPriority, Refreshed, Distinct;
    OwnStepFrame(k, OwnResult(k, e).th[k.current]);
  }

  lemma OwnStepFrame(k: State, v: Thread)
    requires k.current in k.th && v.wakeup_tick == k.th[k.current].wakeup_tick
    ensures SameClock(k, OwnStep(k, v)) && OwnStep(k, v).value == k.value
    ensures forall h :: SameClock(k, OwnStep(k, v).(holder := h))
  {
  }

  lemma SetPriorityFrame(k: State, e: Event)
    requires Sound(k, true) && Enabled(k, e) && !(e.Drop? || e.Compute? || e.LetGo?)
    ensures SameClock(k, OwnResult(k, e)) && OwnResult(k, e).value == k.value
  {
    CurrentIsKnown(k);
    hide Sound;
  }

  lemma CreateFrame(k: State, t: Tid, p: int)
    requires Sound(k, true) && PRI_MIN <= p <= PRI_MAX && t !in k.th
    ensures SameClock(k, CreatedSafely(k, t, p)) && CreatedSafely(k, t, p).value == k.value
  {
    SleepersExist(k);
    hide BaseOk, SleepFrom, PlansOk, DonateBut, WindowsOk;
    CreateKeeps(k, t, p, k.ticks + 1);
  }

  lemma SleepersExist(k: State)
    requires Sound(k, true)
    ensures forall t :: t in k.sleepers ==> t in k.th && t != k.current
  {
    assert forall t :: t in k.sleepers ==> BelongsSleeping(k, t);
  }

  lemma SleepFrame(k: State, n: int)
    requires Sound(k, true) && k.current != k.idle && k.th[k.current].pc.Normal?
    ensures AfterSleep(k, n).value == k.value && AfterSleep(k, n).ticks == k.ticks
    ensures forall t :: t in k.sleepers ==> t in AfterSleep(k, n).sleepers && WakeupTick(AfterSleep(k, n).th, t) == WakeupTick(k.th, t)
  {
    SleepersExist(k);
    hide DonateBut, ReadyOk, WaitOk, CountOk, LockOk;
    if n > 0 {
      AsleepFrame(k, n);
      hide SleepFrom;
      DispatchFrame(Asleep(k, n));
    }
    hide Dispatched;
  }

  lemma AsleepFrame(k: State, n: int)
    requires Sound(k, true) && n > 0 && k.current != k.idle && k.th[k.current].pc.Normal?
    ensures SoundFrom(Asleep(k, n), false, k.ticks + 1)
    ensures forall t :: t in Asleep(k, n).sleepers <==> t in k.sleepers || t == k.current
  {
    SleepKeepsAll(k, n);
    SleepersExist(k);
    InsertByTickMembers(k.th, k.sleepers, k.current, k.ticks + n);
    hide DonateBut, ReadyOk, WaitOk, CountOk, LockOk, InsertByTick;
  }

  lemma TickFrame(k: State)
    requires Sound(k, true)
    ensures AfterTick(k).value == k.value && AfterTick(k).ticks == k.ticks + 1
    ensures forall t :: t in AfterTick(k).sleepers <==> t in k.sleepers && WakeupTick(k.th, t) != k.ticks + 1
    ensures forall t :: t in AfterTick(k).sleepers ==> WakeupTick(AfterTick(k).th, t) == WakeupTick(k.th, t)
  {
    hide BaseOk, SleepFrom, PlansOk, DonateBut;
    TickKeeps(k);
    YieldFrame(Ticked(k), Ticked(k).yield_on_return);
    hide YieldIf, Ticked;
  }

  /** How much a step adds to the value of a semaphore: a completed `up` is one, a completed `down` minus
      one, and everything else nothing. */
  ghost function Gain(k: State, e: Event, s: Sema): int
    requires Sound(k, true) && Enabled(k, e) && s in k.value
  {
    match e
    case Up(s') => if s' == s then 1 else 0
    case FinishRelease => if s == OfLock(k.th[k.current].pc.lock) then 1 else 0
    case Down(s') => if s' == s && k.value[s] > 0 then -1 else 0
    case TryDown(s') => if s' == s && k.value[s] > 0 then -1 else 0
    case Acquire(l) => if s == OfLock(l) && k.value[s] > 0 then -1 else 0
    case TryAcquire(l) => if s == OfLock(l) && k.value[s] > 0 then -1 else 0
    case _ => 0
  }

  /** The effect of a step on semaphores and sleepers. */
  ghost predicate HasEffect(k: State, e: Event, k': State)
    requires Sound(k, true) && Enabled(k, e)
  {
    && k'.value.Keys == k.value.Keys && (forall s :: s in k.value ==> k'.value[s] == k.value[s] + Gain(k, e, s))
    && k'.ticks == k.ticks + (if e.Tick? then 1 else 0)
    && (forall t :: t in k.sleepers ==> (t in k'.sleepers <==> !(e.Tick? && WakeupTick(k.th, t) == k'.ticks)))
    && (forall t :: t in k.sleepers && t in k'.sleepers ==> WakeupTick(k'.th, t) == WakeupTick(k.th, t))
  }

  lemma StepEffect(k: State, e: Event)
    requires Sound(k, true) && Enabled(k, e)
    ensures HasEffect(k, e, Apply(k, e))
  {
    hide Sound, Enabled, AfterAcquire, ClockResult, SemaResult, OwnResult;
    if e.Acquire? { AcquireEffect(k, e); }
    else if OnClock(e) { ClockEffect(k, e); }
    else if OnSema(e) { SemaEffect(k, e); }
    else { OwnEffect(k, e); }
    hide HasEffect;
  }

  /** A step that touches no sleeper and takes one semaphore if it can. */
  lemma SemaChange(k: State, e: Event, k': State, s: Sema)
    requires Sound(k, true) && Enabled(k, e) && SameClock(k, k') && !e.Tick? && s in k.value
    requires s.OfLock? && e == Acquire(s.lock) && k'.value == k.value[s := if k.value[s] > 0 then k.value[s] - 1 else 0] && k.value[s] >= 0
    ensures HasEffect(k, e, k')
  {
    hide Sound, CanDonate;
  }

  lemma AcquireEffect(k: State, e: Event)
    requires Sound(k, true) && Enabled(k, e) && e.Acquire?
    ensures HasEffect(k, e, AfterAcquire(k, e.lock))
  {
    hide Sound, CanDonate, AfterAcquire, SameClock;
    AcquireFrame(k, e.lock);
    SemaChange(k, e, AfterAcquire(k, e.lock), OfLock(e.lock));
  }

  lemma SemaEffect(k: State, e: Event)
    requires Sound(k, true) && Enabled(k, e) && OnSema(e)
    ensures HasEffect(k, e, SemaResult(k, e))
  {
    hide Sound, HasEffect, SemaResult, Enabled;
    if e.Down? || e.TryDown? || e.TryAcquire? { DownEffect(k, e); } else { UpEffect(k, e); }
  }

  lemma DownEffect(k: State, e: Event)
    requires Sound(k, true) && Enabled(k, e) && (e.Down? || e.TryDown? || e.TryAcquire?)
    ensures HasEffect(k, e, SemaResult(k, e))
  {
    hide Sound, AfterDown, SoundFrom, TryDownResult;
    match e {
      case Down(s) => DownFrame(k, s, None);
      case TryDown(s) => TryFrame(k, s);
      case TryAcquire(l) => TryFrame(k, OfLock(l));
      case _ =>
    }
  }

  lemma UpEffect(k: State, e: Event)
    requires Sound(k, true) && Enabled(k, e) && (e.Up? || e.Finish? || e.FinishRelease?)
    ensures HasEffect(k, e, SemaResult(k, e))
  {
    hide Sound, UppedSafely, AfterGot, LockUppedSafely, SoundFrom;
    CurrentIsKnown(k);
    match e {
      case Up(s) => UpFrame(k, s);
      case Finish => GotFrame(k);
      case FinishRelease => LockUpFrame(k, k.th[k.current].pc.lock);
      case _ =>
    }
  }

  lemma OwnEffect(k: State, e: Event)
    requires Sound(k, true) && Enabled(k, e) && !OnSema(e) && !OnClock(e) && !e.Acquire?
    ensures HasEffect(k, e, OwnResult(k, e))
  {
    hide Sound;
    OwnFrame(k, e);
    hide OwnResult;
  }

  lemma ClockEffect(k: State, e: Event)
    requires Sound(k, true) && Enabled(k, e) && OnClock(e)
    ensures HasEffect(k, e, ClockResult(k, e))
  {
    hide Sound, AfterSleep, AfterTick, CreatedSafely, AfterStop, YieldIf;
    match e {
      case Yield => YieldFrame(k, true);
      case Create(t, p) => CreateFrame(k, t, p);
      case Stop => StopFrame(k);
      case Sleep(n) => SleepFrame(k, n);
      case Tick => TickFrame(k);
      case _ =>
    }
  }

  lemma CurrentIsKnown(k: State)
    requires Sound(k, true)
    ensures k.current in k.th
  {
  }

  lemma TryFrame(k: State, s: Sema)
    requires Sound(k, true) && MayDown(k, s)
    ensures SameClock(k, TryDownResult(k, s))
    ensures k.value[s] >= 0 && TryDownResult(k, s).value == k.value[s := if k.value[s] > 0 then k.value[s] - 1 else 0]
  {
    CountsAreNatural(k, s);
    hide BaseOk, SleepFrom, PlansOk, DonateBut;
    assert k.value[s] == 0 ==> k.value == k.value[s := 0];
  }

  lemma GotFrame(k: State)
    requires Sound(k, true) && k.th[k.current].pc.GotLock?
    ensures SameClock(k, AfterGot(k, k.th[k.current].pc.lock)) && AfterGot(k, k.th[k.current].pc.lock).value == k.value
  {
    hide ReadyOk, WaitOk, CountOk, LockOk, SleepFrom, PlansOk, DonateBut;
  }

  // ----- what holds after any run

  /** The completed `up`s of a run minus its completed `down`s. */
  ghost function Gained(k: State, es: seq<Event>, s: Sema): int
    requires Sound(k, true) && Possible(k, es) && s in k.value
    decreases |es|
  {
    if es == [] then 0
    else
      StepEffect(k, es[0]);
      Gain(k, es[0], s) + Gained(Apply(k, es[0]), es[1..], s)
  }

  /** After any run a semaphore's value is its old value plus the `up`s minus the completed `down`s, and it
      is never negative. */
  lemma {:induction false} ValueIsConserved(k: State, es: seq<Event>, s: Sema)
    requires Sound(k, true) && Possible(k, es) && s in k.value
    ensures s in Run(k, es).value && Run(k, es).value[s] == k.value[s] + Gained(k, es, s) && Run(k, es).value[s] >= 0
    decreases |es|
  {
    hide Apply, Gain, Enabled;
    if es == [] {
      CountsAreNatural(k, s);
    } else {
      StepEffect(k, es[0]);
      hide Sound;
      ValueIsConserved(Apply(k, es[0]), es[1..], s);
    }
  }

  /** A thread that sleeps until `w` is still asleep after any run that ends before tick `w`. */
  lemma {:induction false} NeverWokenEarly(k: State, es: seq<Event>, t: Tid)
    requires Sound(k, true) && Possible(k, es) && t in k.sleepers && Run(k, es).ticks < WakeupTick(k.th, t)
    ensures t in Run(k, es).sleepers && WakeupTick(Run(k, es).th, t) == WakeupTick(k.th, t)
    decreases |es|
  {
    hide Apply, Gain, Sound, Enabled;
    if es != [] {
      StepEffect(k, es[0]);
      TimeNeverRunsBack(Apply(k, es[0]), es[1..]);
      NeverWokenEarly(Apply(k, es[0]), es[1..], t);
    }
  }

  lemma {:induction false} TimeNeverRunsBack(k: State, es: seq<Event>)
    requires Sound(k, true) && Possible(k, es)
    ensures Run(k, es).ticks >= k.ticks
    decreases |es|
  {
    hide Apply, Gain, Sound, Enabled;
    if es != [] {
      StepEffect(k, es[0]);
      TimeNeverRunsBack(Apply(k, es[0]), es[1..]);
    }
  }

  /** `t` sleeps through the run step by step until a tick takes it off the sleep list, at time `w`. */
  ghost predicate SleepsUntil(k: State, es: seq<Event>, t: Tid, w: int)
    requires Sound(k, true) && Possible(k, es)
    decreases |es|
  {
    && es != [] && t in k.sleepers
    && var k1 := Apply(k, es[0]);
       if t in k1.sleepers then SleepsUntil(k1, es[1..], t, w) else es[0].Tick? && k1.ticks == w
  }

  /** And it does not oversleep: in a run that reaches its tick, exactly that tick wakes it. */
  lemma {:induction false} WokenAtItsTick(k: State, es: seq<Event>, t: Tid)
    requires Sound(k, true) && Possible(k, es) && t in k.sleepers && Run(k, es).ticks >= WakeupTick(k.th, t)
    ensures SleepsUntil(k, es, t, WakeupTick(k.th, t))
    decreases |es|
  {
    StillToCome(k, t);
    hide Apply, Gain, Sound, Enabled;
    if es != [] {
      StepEffect(k, es[0]);
      var k1 := Apply(k, es[0]);
      if t in k1.sleepers { WokenAtItsTick(k1, es[1..], t); }
    }
  }

  lemma StillToCome(k: State, t: Tid)
    requires Sound(k, true) && t in k.sleepers
    ensures WakeupTick(k.th, t) > k.ticks
  {
  }

  /** The events are a run from an initial state. */
  ghost predicate CanRun(k: State, es: seq<Event>) {
    Booted(k) && (BootIsSafe(k); Possible(k, es))
  }

  ghost function Reached(k: State, es: seq<Event>): (r: State)
    requires CanRun(k, es)
    ensures Sound(r, true)
  {
    BootIsSafe(k);
    Run(k, es)
  }

  /** What a reachable state promises about locks `l`, threads `t` and `u`, and semaphores `s`: a lock has at
      most one thread inside; every thread runs at its base priority or above (but inside
      `thread_set_priority`); every ready thread is on the queue of its priority; every sleeper has its tick
      ahead of it; a thread stands on at most one list, and on one unless it runs, is idle or has ended; and
      while threads wait for a semaphore, its value does not exceed the number of threads woken to take it. */
  ghost predicate Safe(k: State, t: Tid, u: Tid, l: Lock, s: Sema) {
    && (InsideLock(k, t, l) && InsideLock(k, u, l) ==> t == u)
    && (t in k.th ==> PRI_MIN <= k.th[t].priority <= PRI_MAX && (!Raising(k.th[t].pc) ==> k.th[t].base_priority <= k.th[t].priority))
    && (t in k.th && k.th[t].status.Ready? && t != k.idle ==> OnList(k, t, ReadyQueue(k.th[t].priority)))
    && (t in k.sleepers ==> t in k.th && k.th[t].wakeup_tick > k.ticks)
    && (forall n1, n2 :: OnList(k, t, n1) && OnList(k, t, n2) ==> n1 == n2)
    && (t in k.th && t != k.current && t != k.idle && !k.th[t].status.Dying? ==> exists n :: OnList(k, t, n))
    && (s in k.value ==> s in k.waiters && 0 <= k.value[s] && (k.waiters[s] == [] || k.value[s] <= |Woken(k.th, s)|))
  }

  /** After any run from the initial state, whatever the interleaving. */
  lemma EveryRunIsSafe(k: State, es: seq<Event>, t: Tid, u: Tid, l: Lock, s: Sema)
    requires CanRun(k, es)
    ensures Safe(Reached(k, es), t, u, l, s)
  {
    hide Sound, Run, Possible, Booted, Safe;
    ReadsSafe(Reached(k, es), t, u, l, s);
  }

  lemma ReadsSafe(k: State, t: Tid, u: Tid, l: Lock, s: Sema)
    requires Sound(k, true)
    ensures Safe(k, t, u, l, s)
  {
    hide OnList;
    ReadsLocks(k, t, u, l);
    ReadsLists(k, t, s);
    hide Sound, InsideLock;
  }

  lemma ReadsLocks(k: State, t: Tid, u: Tid, l: Lock)
    requires Sound(k, true)
    ensures InsideLock(k, t, l) && InsideLock(k, u, l) ==> t == u
    ensures t in k.th ==> PRI_MIN <= k.th[t].priority <= PRI_MAX && (!Raising(k.th[t].pc) ==> k.th[t].base_priority <= k.th[t].priority)
  {
    hide WaitOk, CountOk, SleepFrom;
    assert l in k.holder ==> LockFacts(k, l);
    if t in k.th { assert PlanOk(k.th[t]); }
  }

  lemma ReadsLists(k: State, t: Tid, s: Sema)
    requires Sound(k, true)
    ensures t in k.th && k.th[t].status.Ready? && t != k.idle ==> OnList(k, t, ReadyQueue(k.th[t].priority))
    ensures t in k.sleepers ==> t in k.th && k.th[t].wakeup_tick > k.ticks
    ensures forall n1, n2 :: OnList(k, t, n1) && OnList(k, t, n2) ==> n1 == n2
    ensures t in k.th && t != k.current && t != k.idle && !k.th[t].status.Dying? ==> exists n :: OnList(k, t, n)
    ensures s in k.value ==> s in k.waiters && 0 <= k.value[s] && (k.waiters[s] == [] || k.value[s] <= |Woken(k.th, s)|)
  {
    forall n1, n2 | OnList(k, t, n1) && OnList(k, t, n2) ensures n1 == n2 { ElemOnOneList(k, true, t, n1, n2); }
    if t in k.th && t != k.current && t != k.idle && !k.th[t].status.Dying? { NobodyIsForgotten(k, t); }
    ReadyIsQueued(k, t);
    SleeperIsEarly(k, t);
    NoWakeupIsLost(k, s);
    hide Sound;
  }

  lemma ReadyIsQueued(k: State, t: Tid)
    requires Sound(k, true)
    ensures t in k.th && k.th[t].status.Ready? && t != k.idle ==> OnList(k, t, ReadyQueue(k.th[t].priority))
  {
    hide WaitOk, CountOk, LockOk, SleepFrom, PlansOk;
    if t in k.th && k.th[t].status.Ready? && t != k.idle {
      assert QueueOk(k, k.th[t].priority) && BelongsReady(k, t, k.th[t].priority);
    }
  }

  lemma SleeperIsEarly(k: State, t: Tid)
    requires Sound(k, true)
    ensures t in k.sleepers ==> t in k.th && k.th[t].wakeup_tick > k.ticks
  {
    assert t in k.sleepers ==> BelongsSleeping(k, t) && WakeupTick(k.th, t) == k.th[t].wakeup_tick;
  }

  // ----- donors

  /** A registered donor is blocked on a lock that the other thread holds. */
  ghost predicate DonorWaits(k: State, d: Tid, t: Tid) {
    && d in k.th && k.th[d].status.Blocked? && k.th[d].waiting_lock.Some?
    && HoldsStill(k, t, k.th[d].waiting_lock.value)
  }

  /** `d` waits for a lock that `t` holds, and does not outrank it. */
  ghost predicate IsCovered(k: State, d: Tid, t: Tid) {
    t in k.th && DonorWaits(k, d, t) && k.th[d].priority <= k.th[t].priority
  }

  /** After any run in which no acquisition disturbs a preempted thread, every donor waits for a lock that the
      other thread holds, and runs no higher than it. */
  lemma EveryDonorIsCovered(k: State, es: seq<Event>, t: Tid, d: Tid)
    requires CanRun(k, es) && (BootIsSafe(k); Calm(k, es))
    ensures var k' := Reached(k, es); t in k'.th && d in k'.th[t].donations ==> IsCovered(k', d, t)
  {
    BootIsSafe(k);
    hide Sound, DonorsSafe, Run, Possible, Calm, Booted, IsCovered;
    CalmRunKeeps(k, es);
    ReadsDonors(Reached(k, es), t, d);
  }

  lemma ReadsDonors(k: State, t: Tid, d: Tid)
    requires DonateOk(k, None)
    ensures t in k.th && d in k.th[t].donations ==> IsCovered(k, d, t)
  {
    if t in k.th && d in k.th[t].donations {
      assert DonorsOk(k, t, None, Ceiling(k, t, None, 0));
      assert Registered(k, d, t, None) && Pri(k.th, d) <= k.th[t].priority;
    }
  }
}
