/** The Pintos threads subsystem as it runs: the scheduler, semaphores, locks with priority donation, and
    the timer. Sections with interrupts off are methods; `thread_set_priority` and `lock_release`, which run
    with interrupts on, are a method for each step between which a preemption matters, and a method for
    the whole call when nothing preempts it. */
module Kernel {
  import opened KernelLists
  import opened KernelState
  import opened KernelKeep
  import opened KernelSwitch
  import opened KernelSync
  import opened KernelDonate
  import opened KernelRelease
  import opened KernelAcquire
  import opened KernelTimer
  import opened KernelSteps
  import opened KernelEffects
  import opened KernelRuns
  import opened KernelScenarios

  /** The values given to `sema_init`; those of locks are 1. */
  function InitialValues(semaphores: map<int, nat>, locks: set<Lock>): (r: map<Sema, int>)
    ensures forall s :: s in r ==> r[s] >= 0
    ensures forall l :: l in locks <==> OfLock(l) in r
    ensures forall l :: l in locks ==> r[OfLock(l)] == 1
    ensures forall i :: i in semaphores ==> Plain(i) in r && r[Plain(i)] == semaphores[i]
  {
    var names := (set i | i in semaphores :: Plain(i)) + (set l | l in locks :: OfLock(l));
    map s | s in names :: match s case Plain(i) => (if i in semaphores then semaphores[i] else 0) case OfLock(_) => 1
  }

  class Machine {
    var th: Threads
    var idle_thread: Tid
    var current: Tid
    var ready_queues: seq<seq<Tid>>
    var waiters: map<Sema, seq<Tid>>
    var value: map<Sema, int>
    var sleep_list: seq<Tid>
    var ticks: int
    var thread_ticks: int
    var yield_on_return: bool
    var holder: map<Lock, Option<Tid>>
    ghost var owner: map<Lock, Option<Tid>>

    ghost function S(): State
      reads this
    {
      State(th, idle_thread, current, ready_queues, waiters, value, sleep_list, ticks, thread_ticks,
            yield_on_return, holder, owner)
    }

    /** `thread_init` and `thread_start`, with semaphores and locks already initialised. */
    constructor (main: Tid, idle: Tid, semaphores: map<int, nat>, locks: set<Lock>)
      requires main != idle
      ensures Booted(S()) && Inv(S(), true)
    {
      th := map[main := NewThread(PRI_DEFAULT).(status := Running), idle := NewThread(PRI_MIN)];
      idle_thread := idle;
      current := main;
      ready_queues := seq(PRI_MAX + 1, _ => []);
      value := InitialValues(semaphores, locks);
      waiters := map s | s in InitialValues(semaphores, locks) :: [];
      sleep_list := [];
      ticks, thread_ticks, yield_on_return := 0, 0, false;
      holder := map l | l in locks :: None;
      owner := map l | l in locks :: None;
      new;
      hide Sound, InitialValues;
      BootIsSafe(S());
    }

    // ----- thread.c

    method NextThreadToRun() returns (next: Tid)
      requires |ready_queues| == PRI_MAX + 1
      modifies this`ready_queues
      ensures next == NextThread(old(S()))
      ensures var p := TopQueue(old(ready_queues), PRI_MAX);
              -1 <= p <= PRI_MAX && (p >= 0 ==> old(ready_queues)[p] != [])
              && ready_queues == if p < 0 then old(ready_queues) else old(ready_queues)[p := old(ready_queues)[p][1..]]
    {
      TopQueueIsTop(ready_queues, PRI_MAX);
      var priority := PRI_MAX;
      while priority >= PRI_MIN
        invariant -1 <= priority <= PRI_MAX && ready_queues == old(ready_queues)
        invariant TopQueue(ready_queues, PRI_MAX) == TopQueue(ready_queues, priority)
      {
        if ready_queues[priority] != [] {
          next := ready_queues[priority][0];
          ready_queues := ready_queues[priority := ready_queues[priority][1..]];
          return;
        }
        priority := priority - 1;
      }
      next := idle_thread;
    }

    method Schedule()
      requires ReadyOk(S()) && idle_thread in th
      modifies this
      ensures S() == Dispatched(old(S()))
    {
      NextIsKnown(S());
      DispatchShape(S());
      hide ReadyOk;
      var next := NextThreadToRun();
      th := th[next := th[next].(status := Running)];
      thread_ticks := 0;
      current := next;
    }

    method ThreadUnblock(t: Tid)
      requires QueuesExist(S()) && t in th
      modifies this`ready_queues, this`th
      ensures S() == Unblocked(old(S()), t) && GetsReady(old(S()), S(), t)
    {
      var p := th[t].priority;
      ready_queues := ready_queues[p := ready_queues[p] + [t]];
      th := th[t := th[t].(status := Ready)];
    }

    method ThreadYield()
      requires Sound(S(), true)
      modifies this
      ensures Sound(S(), true) && DonorsKept(old(S()), S()) && S() == Yielded(old(S()))
      ensures Yields(old(S()), S()) && TopRuns(S())
    {
      ghost var k := S();
      hide Sound, Yields, TopRuns;
      YieldDoes(k);
      CurrentRuns(k);
      ParkedIsReady(k);
      if current != idle_thread {
        var p := th[current].priority;
        ready_queues := ready_queues[p := ready_queues[p] + [current]];
      }
      th := th[current := th[current].(status := Ready)];
      assert S() == Parked(k);
      hide Parked, QueuesExist;
      Schedule();
      hide Dispatched;
    }

    /** The idle thread calls `thread_block`; another thread reaches the end of `thread_exit`. */
    method ThreadStop()
      requires Sound(S(), true) && th[current].pc.Normal?
      modifies this
      ensures Sound(S(), true) && DonorsKept(old(S()), S()) && S() == AfterStop(old(S()))
      ensures Stops(old(S()), S()) && TopRuns(S())
    {
      ghost var k := S();
      hide Stops, TopRuns;
      StopHasEffect(k);
      CurrentExists(k);
      var status := if current == idle_thread then Blocked else Dying;
      hide Sound, Dispatched;
      StoppedIsReady(k, status);
      th := th[current := th[current].(status := status)];
      Schedule();
      assert S() == AfterStop(k);
    }

    method HasHigherReadyThread() returns (found: bool)
      requires QueuesExist(S())
      ensures found == HigherReady(S())
    {
      var current_priority := th[current].priority;
      var priority := PRI_MAX;
      while priority > current_priority
        invariant current_priority <= priority <= PRI_MAX
        invariant forall p :: priority < p <= PRI_MAX ==> ready_queues[p] == []
      {
        if ready_queues[priority] != [] { return true; }
        priority := priority - 1;
      }
      return false;
    }

    method ThreadUpdatePriority(t: Tid, new_priority: int)
      requires QueuesExist(S()) && t in th && PRI_MIN <= new_priority <= PRI_MAX
      modifies this`ready_queues, this`th
      ensures S() == Updated(old(S()), t, new_priority)
    {
      if th[t].status.Ready? {
        var p := th[t].priority;
        ready_queues := ready_queues[p := Without(ready_queues[p], t)];
        th := th[t := th[t].(priority := new_priority)];
        ready_queues := ready_queues[new_priority := ready_queues[new_priority] + [t]];
      } else {
        th := th[t := th[t].(priority := new_priority)];
      }
    }

    /** `thread_set_priority`, first step. */
    method SetBasePriority(new_priority: int)
      requires Sound(S(), true) && th[current].pc.Normal? && PRI_MIN <= new_priority <= PRI_MAX
      modifies this`th
      ensures Sound(S(), true) && DonorsKept(old(S()), S()) && S() == BaseWritten(old(S()), new_priority)
    {
      BaseWrittenKeeps(S(), new_priority);
      hide Sound;
      th := th[current := th[current].(base_priority := new_priority, pc := BaseSet(new_priority))];
    }

    /** Second step: whether the new priority is to be assigned. */
    method DecidePriority() returns (assigns: bool)
      requires Sound(S(), true) && th[current].pc.BaseSet?
      modifies this`th
      ensures Sound(S(), true) && DonorsKept(old(S()), S()) && S() == Decided(old(S()))
      ensures assigns <==> th[current].pc.Setting?
      ensures !assigns ==> th[current].pc.Normal?
    {
      DecidedKeeps(S());
      hide Sound;
      var c := th[current];
      if c.donations == [] {
        assigns := true;
      } else {
        assigns := c.pc.n > c.priority;
      }
      th := th[current := c.(pc := if assigns then Setting(c.pc.n) else Normal)];
    }

    /** Last step, and the one of `refresh_priority`: `thread_update_priority` of the running thread with the
        priority decided on before. */
    method AssignPriority()
      requires Sound(S(), true) && Aim(th[current].pc).Some?
      modifies this`th, this`ready_queues
      ensures Sound(S(), true) && DonorsKept(old(S()), S()) && S() == Assigned(old(S()))
    {
      ghost var k := S();
      hide Sound;
      AimInRange(k);
      var pc := th[current].pc;
      ThreadUpdatePriority(current, Aim(pc).value);
      th := th[current := th[current].(pc := if pc.Setting? then Normal else Letting(pc.lock))];
      AssignedAs(k);
      AssignedKeeps(k);
    }

    method SetWhole(new_priority: int)
      requires Sound(S(), true) && th[current].pc.Normal? && PRI_MIN <= new_priority <= PRI_MAX
      modifies this
      ensures Sound(S(), true) && DonorsKept(old(S()), S()) && S() == PrioritySet(old(S()), new_priority)
    {
      ghost var k := S();
      hide Sound, Decided, Assigned;
      CurrentExists(k);
      SetBasePriority(new_priority);
      CurrentExists(S());
      var assigns := DecidePriority();
      CurrentExists(S());
      if assigns { AssignPriority(); }
    }

    /** All of `thread_set_priority`, when nothing preempts it before its yield. */
    method ThreadSetPriority(new_priority: int)
      requires Sound(S(), true) && th[current].pc.Normal? && PRI_MIN <= new_priority <= PRI_MAX
      modifies this
      ensures Sound(S(), true) && DonorsKept(old(S()), S()) && S() == AfterSetPriority(old(S()), new_priority)
      ensures SetsAndYields(old(S()), S(), new_priority) && TopRuns(S())
    {
      ghost var k := S();
      hide Sound, SetsAndYields, TopRuns;
      SetHasEffect(k, new_priority);
      CurrentExists(k);
      SetWhole(new_priority);
      SetPriorityKeeps(k, new_priority);
      hide PrioritySet, Yielded;
      CurrentRuns(S());
      var higher := HasHigherReadyThread();
      if higher { ThreadYield(); }
    }

    /** The new thread is ready, last of the queue of its priority, and runs at once if it outranks its creator. */
    method ThreadCreate(t: Tid, priority: int)
      requires Sound(S(), true) && PRI_MIN <= priority <= PRI_MAX && t !in th
      modifies this
      ensures Sound(S(), true) && DonorsKept(old(S()), S()) && S() == AfterCreate(old(S()), t, priority)
      ensures Creates(old(S()), S(), t, priority) && (TopRuns(old(S())) ==> TopRuns(S()))
    {
      ghost var k := S();
      hide Sound, Yielded, DonorsSafe, Creates, TopRuns;
      CreateHasEffect(k, t, priority);
      CurrentRuns(k);
      th := th[t := NewThread(priority)];
      ThreadUnblock(t);
      assert S() == CreatedSafely(k, t, priority);
      if th[t].priority > th[current].priority { ThreadYield(); }
    }

    // ----- synch.c

    /** One pass of the loop of `sema_down`. */
    method DownPass(s: Sema, ghost pending: Option<Tid>) returns (done: bool)
      requires Sound(S(), true) && MayDown(S(), s) && PendingFor(S(), s, pending) && (pending.Some? ==> value[s] == 0)
      modifies this
      ensures done == (old(value[s]) > 0) && S() == AfterDown(old(S()), s, pending)
    {
      hide Sound, Took, Dispatched, BlockedOn;
      CountsAreNatural(S(), s);
      if value[s] == 0 {
        WaitOn(s);
        done := false;
      } else {
        Take(s);
        done := true;
      }
    }

    /** The body of the loop of `sema_down`. */
    method WaitOn(s: Sema)
      requires Sound(S(), true) && MayDown(S(), s) && value[s] == 0
      modifies this
      ensures SoundFrom(BlockedOn(old(S()), s), false, old(ticks) + 1)
      ensures S() == Dispatched(BlockedOn(old(S()), s))
    {
      ghost var k := S();
      hide SoundFrom, Dispatched, DonateBut, WindowsOk;
      BlockOnKeeps(k, s, None, ticks + 1);
      waiters := waiters[s := waiters[s] + [current]];
      th := th[current := th[current].(status := Blocked, pc := Downing(s))];
      assert S() == BlockedOn(k, s);
      ReadyToSwitch(S(), k.ticks + 1);
      hide BlockedOn;
      Schedule();
    }

    /** The decrement of `sema_down` and `sema_try_down`. */
    method Take(s: Sema)
      requires current in th && s in value
      modifies this`value, this`owner, this`th
      ensures S() == Took(old(S()), s)
    {
      value := value[s := value[s] - 1];
      match s {
        case Plain(_) =>
          th := th[current := th[current].(pc := Normal)];
        case OfLock(l) =>
          owner := owner[l := Some(current)];
          th := th[current := th[current].(pc := GotLock(l))];
      }
    }

    method SemaDown(s: Sema) returns (done: bool)
      requires Sound(S(), true) && MayDown(S(), s)
      modifies this
      ensures Sound(S(), true) && DonorsKept(old(S()), S()) && done == (old(value[s]) > 0) && S() == AfterDown(old(S()), s, None)
      ensures done ==> value == old(value)[s := old(value)[s] - 1] && waiters == old(waiters) && ready_queues == old(ready_queues) && current == old(current)
      ensures !done ==> WaitsOn(old(S()), S(), s) && TopRuns(S())
    {
      hide Sound, AfterDown, WaitsOn, TopRuns;
      CountsAreNatural(S(), s);
      DownHasEffect(S(), s);
      done := DownPass(s, None);
    }

    method SemaTryDown(s: Sema) returns (success: bool)
      requires Sound(S(), true) && MayDown(S(), s)
      modifies this
      ensures Sound(S(), true) && DonorsKept(old(S()), S()) && success == (old(value[s]) > 0) && S() == if success then Took(old(S()), s) else old(S())
      ensures success ==> value == old(value)[s := old(value)[s] - 1] && waiters == old(waiters) && ready_queues == old(ready_queues) && current == old(current)
    {
      hide Sound;
      TryTakes(S(), s);
      if value[s] > 0 {
        Take(s);
        success := true;
      } else {
        success := false;
      }
    }

    /** `sema_up` up to its yield: the first of the waiters with the greatest priority gets ready. */
    method UpCore(s: Sema) returns (unblocked: Option<Tid>)
      requires MayUp(S(), s)
      modifies this`waiters, this`value, this`ready_queues, this`th
      ensures S() == Upped(old(S()), s) && UpDoes(old(S()), S(), s, unblocked)
      ensures unblocked == if old(waiters[s]) == [] then None else Some(FirstMax(old(th), old(waiters[s])))
      ensures unblocked.Some? ==> unblocked.value in th && th[unblocked.value].priority == Pri(old(th), unblocked.value)
    {
      hide UpDoes;
      UpDoesAs(S(), s);
      unblocked := None;
      if waiters[s] != [] {
        var max := MaxWaiter(waiters[s]);
        waiters := waiters[s := Without(waiters[s], max)];
        unblocked := Some(max);
        ThreadUnblock(max);
      }
      value := value[s := value[s] + 1];
    }

    /** `list_max` with `thread_priority_less`. */
    method MaxWaiter(s: seq<Tid>) returns (max: Tid)
      requires s != []
      ensures max == FirstMax(th, s)
    {
      max := s[0];
      var i := 1;
      assert s[..1] == [s[0]];
      while i < |s|
        invariant 1 <= i <= |s| && max == FirstMax(th, s[..i])
      {
        assert s[..i + 1][..i] == s[..i];
        if Pri(th, max) < Pri(th, s[i]) { max := s[i]; }
        i := i + 1;
      }
      assert s[..|s|] == s;
    }

    /** `sema_up` wakes the earliest of the waiters of greatest priority, and yields if that one outranks the
        running thread. */
    method SemaUp(s: Sema)
      requires Sound(S(), true) && s in waiters && s.Plain?
      modifies this
      ensures Sound(S(), true) && DonorsKept(old(S()), S()) && S() == AfterUp(old(S()), s)
      ensures UpWakes(old(S()), S(), s) && (TopRuns(old(S())) ==> TopRuns(S()))
    {
      ghost var k := S();
      hide Sound, Upped, Yielded, UpWakes, UpDoes, TopRuns;
      UpHasEffect(k, s);
      UpIsSafe(k, s);
      var unblocked := UpCore(s);
      CurrentExists(S());
      UpKeepsPriority(k, s);
      if unblocked.Some? && th[unblocked.value].priority > th[current].priority { ThreadYield(); }
      hide MayUp, YieldIf;
    }

    /** `lock_acquire` up to the end of its first pass through `sema_down`. It faults if and only if its walk
        reads the priority of a NULL holder. Otherwise, what donors are promised stays true if and only if the
        acquisition disturbs no thread that acts on what it read of its donors before. */
    method LockAcquire(l: Lock) returns (done: bool, faults: bool)
      requires Sound(S(), true) && AtAcquire(S(), l) && (holder[l] != None ==> WalkStops(S(), l))
      modifies this
      ensures faults <==> !MayAcquire(old(S()), l)
      ensures !faults ==> S() == AfterAcquire(old(S()), l) && Sound(S(), true) && done == (old(value[OfLock(l)]) > 0)
      ensures !faults && old(holder[l]) != None ==> AcquireWaits(old(S()), S(), l) && TopRuns(S())
      ensures !faults && DonorsSafe(old(S())) ==> (DonorsSafe(S()) <==> !Disturbs(old(S()), l))
    {
      ghost var k := S();
      hide SoundFrom, DonorsSafe, WalkStops, CanDonate, Donated, Disturbs, AfterDown, AcquireWaits, TopRuns;
      if holder[l] != None && MayAcquire(k, l) { AcquireHasEffect(k, l); }
      faults := false;
      if holder[l] != None {
        CurrentRuns(k);
        faults := Donate(l);
        if faults { return false, true; }
        HeldReachesDown(k, l);
        done := DownPass(OfLock(l), Some(current));
      } else {
        done := DownPass(OfLock(l), None);
      }
    }

    /** The donation of `lock_acquire`: the current thread registers with the holder, and the walk along
        holders and the locks they wait for raises each of them. */
    method Donate(l: Lock) returns (faults: bool)
      requires QueuesExist(S()) && WalkStops(S(), l)
      modifies this`th, this`ready_queues
      ensures faults <==> !CanDonate(old(S()), l)
      ensures !faults ==> S() == Donated(old(S()), l)
    {
      ghost var k := S();
      ghost var n := StopLength(k, l);
      var p := th[current].priority;
      th := th[current := th[current].(waiting_lock := Some(l))];
      var h := holder[l].value;
      th := th[h := th[h].(donations := th[h].donations + [current])];
      assert S() == Donating(k, l);
      hide CanDonate, Donating;
      faults := Walk(l, p, n, CanDonate(k, l));
    }

    /** `well` says that the walk meets a holder at every lock, and not one without. */
    method Walk(l: Lock, p: int, ghost n: nat, ghost well: bool) returns (faults: bool)
      requires QueuesExist(S()) && PRI_MIN <= p <= PRI_MAX
      requires if well then ChainEnds(S(), l, n) else MeetsNull(S(), l, n)
      modifies this`th, this`ready_queues
      ensures faults <==> !well
      ensures well ==> S() == Raised(old(S()), l, p, n)
    {
      ghost var k := S();
      ghost var m := n;
      var next_lock := Some(l);
      while next_lock.Some?
        invariant QueuesExist(S())
        invariant well && next_lock.Some? ==> ChainEnds(S(), next_lock.value, m) && Raised(S(), next_lock.value, p, m) == Raised(k, l, p, n)
        invariant well && next_lock.None? ==> S() == Raised(k, l, p, n)
        invariant !well ==> next_lock.Some? && MeetsNull(S(), next_lock.value, m)
        decreases if next_lock.Some? then m + 1 else 0
      {
        if holder[next_lock.value] == None { return true; }
        var next_holder := holder[next_lock.value].value;
        ghost var before := S();
        RaiseOneShape(before, next_holder, p);
        if th[next_holder].priority < p {
          ThreadUpdatePriority(next_holder, p);
        }
        assert S() == RaisedOne(before, next_holder, p);
        hide RaisedOne, QueuesExist;
        assert th[next_holder].waiting_lock == before.th[next_holder].waiting_lock;
        if th[next_holder].waiting_lock.Some? {
          if well { ChainSame(before, S(), th[next_holder].waiting_lock.value, m - 1); }
          else { NullSame(before, S(), th[next_holder].waiting_lock.value, m - 1); }
          m := m - 1;
        }
        next_lock := th[next_holder].waiting_lock;
      }
      return false;
    }

    /** `lock_acquire` past its `sema_down`. */
    method LockAcquired(l: Lock)
      requires Sound(S(), true) && th[current].pc == GotLock(l)
      modifies this`th, this`holder
      ensures Sound(S(), true) && DonorsKept(old(S()), S()) && S() == AfterGot(old(S()), l)
    {
      ghost var k := S();
      hide Sound;
      CurrentExists(k);
      th := th[current := th[current].(waiting_lock := None, pc := Normal)];
      holder := holder[l := Some(current)];
      assert S() == AfterGot(k, l);
    }

    method LockTryAcquire(l: Lock) returns (success: bool)
      requires Sound(S(), true) && MayDown(S(), OfLock(l)) && th[current].pc.Normal?
      modifies this
      ensures Sound(S(), true) && DonorsKept(old(S()), S()) && success == (old(value[OfLock(l)]) > 0)
      ensures success ==> OfLock(l) in value && S() == Got(Took(old(S()), OfLock(l)), l)
      ensures !success ==> S() == old(S())
    {
      ghost var k := S();
      success := SemaTryDown(OfLock(l));
      if success { LockAcquired(l); }
      hide Sound;
    }

    /** `remove_donation_by_lock`. */
    method RemoveDonationByLock(l: Lock) returns (kept: seq<Tid>)
      requires current in th
      ensures kept == OtherDonors(th, th[current].donations, l)
    {
      ghost var all := OtherDonors(th, th[current].donations, l);
      var e := th[current].donations;
      kept := [];
      while e != []
        invariant kept + OtherDonors(th, e, l) == all
        decreases |e|
      {
        var t := e[0];
        ghost var before := kept;
        if !(t in th && th[t].waiting_lock == Some(l)) { kept := kept + [t]; }
        assert before + OtherDonors(th, e, l) == kept + OtherDonors(th, e[1..], l);
        e := e[1..];
      }
    }

    /** `lock_release`, first step. */
    method DropDonations(l: Lock)
      requires Sound(S(), true) && current != idle_thread && th[current].pc.Normal? && HoldsStill(S(), current, l)
      modifies this`th
      ensures Sound(S(), true) && DonorsKept(old(S()), S()) && S() == DonorsDropped(old(S()), l)
    {
      DonorsDroppedKeeps(S(), l);
      CurrentExists(S());
      hide Sound;
      var kept := RemoveDonationByLock(l);
      th := th[current := th[current].(donations := kept, pc := Dropped(l))];
    }

    /** Second step: `refresh_priority` up to its `thread_update_priority`. It sorts the donations. */
    method ComputePriority()
      requires Sound(S(), true) && th[current].pc.Dropped?
      modifies this`th
      ensures Sound(S(), true) && DonorsKept(old(S()), S()) && S() == Computed(old(S()))
    {
      ComputedKeeps(S());
      CurrentExists(S());
      hide Sound;
      var c := th[current];
      SortedNotEmpty(th, c.donations);
      var new_priority := c.base_priority;
      var sorted := c.donations;
      if c.donations != [] {
        sorted := SortedByPriority(th, c.donations);
        if Pri(th, sorted[0]) > new_priority { new_priority := Pri(th, sorted[0]); }
      }
      th := th[current := c.(donations := sorted, pc := Refreshing(c.pc.lock, new_priority))];
    }

    /** The step after `refresh_priority`. */
    method ClearHolder()
      requires Sound(S(), true) && th[current].pc.Letting?
      modifies this`th, this`holder
      ensures Sound(S(), true) && DonorsKept(old(S()), S()) && S() == HolderCleared(old(S()))
    {
      ghost var k := S();
      hide Sound;
      CurrentExists(k);
      var l := th[current].pc.lock;
      th := th[current := th[current].(pc := Releasing(l))];
      holder := holder[l := None];
      HolderClearedKeeps(k);
    }

    /** `lock_release` up to its `sema_up`, when nothing preempts it. */
    method LockRelease(l: Lock)
      requires Sound(S(), true) && current != idle_thread && th[current].pc.Normal? && l in holder && holder[l] == Some(current)
      modifies this
      ensures Sound(S(), true) && DonorsKept(old(S()), S()) && S() == AfterRelease(old(S()), l)
    {
      ghost var k := S();
      hide Sound;
      CurrentExists(k);
      ReleaseAsSteps(k, l);
      hide DonorsDropped, Computed, Assigned, HolderCleared;
      DropDonations(l);
      ComputePriority();
      AssignPriority();
      ClearHolder();
    }

    /** The `sema_up` of `lock_release`. */
    method LockReleaseUp(l: Lock)
      requires Sound(S(), true) && th[current].pc == Releasing(l)
      modifies this
      ensures OfLock(l) in old(waiters)
      ensures Sound(S(), true) && DonorsKept(old(S()), S()) && S() == AfterLockUp(old(S()), l)
      ensures LockUpWakes(old(S()), S(), l) && (TopRuns(old(S())) ==> TopRuns(S()))
    {
      ghost var k := S();
      hide Sound, Yielded, LockUpped, LockUpWakes, TopRuns;
      LockUpHasEffect(k, l);
      LockUpIsSafe(k, l);
      var higher := LockUp(l);
      hide MayUp, WakesHigher;
      if higher { ThreadYield(); }
    }

    method LockUp(l: Lock) returns (higher: bool)
      requires MayUp(S(), OfLock(l))
      modifies this`waiters, this`value, this`ready_queues, this`th, this`owner
      ensures S() == LockUpped(old(S()), l) && higher == WakesHigher(old(S()), OfLock(l))
    {
      hide UpDoes;
      UpKeepsPriority(S(), OfLock(l));
      CurrentStays(S(), l);
      var unblocked := UpCore(OfLock(l));
      hide Upped, FirstMax;
      higher := unblocked.Some? && th[unblocked.value].priority > th[current].priority;
      owner := owner[l := None];
      th := th[current := th[current].(pc := Normal)];
    }

    // ----- timer.c

    method TimerSleep(n: int)
      requires Sound(S(), true) && current != idle_thread && th[current].pc.Normal?
      modifies this
      ensures Sound(S(), true) && DonorsKept(old(S()), S()) && S() == AfterSleep(old(S()), n)
      ensures if n <= 0 then S() == old(S()) else SleepsFor(old(S()), S(), n) && TopRuns(S())
    {
      if n <= 0 { return; }
      hide Sound, Asleep, Dispatched, SleepsFor, TopRuns;
      SleepHasEffect(S(), n);
      CurrentExists(S());
      AsleepIsReady(S(), n);
      FallAsleep(n);
      Schedule();
    }

    method FallAsleep(n: int)
      requires current in th
      modifies this`sleep_list, this`th
      ensures S() == Asleep(old(S()), n)
    {
      sleep_list := InsertByTick(th, sleep_list, current, ticks + n);
      th := th[current := th[current].(wakeup_tick := ticks + n, status := Blocked, pc := Sleeping)];
    }

    /** The loop of `timer_interrupt`. */
    method WakeSleepers()
      requires BaseOk(S(), true) && SleepFrom(S(), ticks)
      modifies this
      ensures S() == AllWoken(old(S()))
    {
      ghost var k := S();
      WakingIsExact(k);
      hide BaseOk, SleepFrom, PlansOk, DonateBut, WokeSleeper;
      while sleep_list != []
        invariant BaseOk(S(), true) && SleepFrom(S(), ticks) && AllWoken(S()) == AllWoken(k)
        decreases |sleep_list|
      {
        WakeSleeperKeeps(S(), ticks);
        if th[sleep_list[0]].wakeup_tick > ticks { break; }
        WakeFirst();
      }
    }

    method WakeFirst()
      requires QueuesExist(S()) && sleep_list != [] && sleep_list[0] in th
      modifies this`sleep_list, this`th, this`yield_on_return, this`ready_queues
      ensures S() == WokeSleeper(old(S())) && sleep_list == old(sleep_list)[1..]
    {
      var t := sleep_list[0];
      sleep_list := sleep_list[1..];
      th := th[t := th[t].(pc := Normal)];
      ThreadUnblock(t);
      if th[t].priority > th[current].priority { yield_on_return := true; }
    }

    /** `timer_interrupt` and `thread_tick`. */
    method Tick()
      requires Sound(S(), true)
      modifies this
      ensures S() == Ticked(old(S()))
    {
      hide SoundFrom, Sound;
      TickStarts(S());
      yield_on_return := false;
      ticks := ticks + 1;
      WakeSleepers();
      thread_ticks := thread_ticks + 1;
      if thread_ticks >= TIME_SLICE { yield_on_return := true; }
      hide AllWoken;
    }

    /** A timer interrupt, and the yield on the way out of it. */
    method TimerInterrupt()
      requires Sound(S(), true)
      modifies this
      ensures Sound(S(), true) && DonorsKept(old(S()), S()) && S() == AfterTick(old(S()))
      ensures Ticks(old(S()), S()) && (TopRuns(old(S())) ==> TopRuns(S()))
    {
      hide Yielded, Sound, DonorsSafe, Ticked, Ticks, TopRuns;
      TickHasEffect(S());
      TickIsSafe(S());
      Tick();
      if yield_on_return { ThreadYield(); }
    }
  }

  lemma TickIsSafe(k: State)
    requires Sound(k, true)
    ensures Sound(Ticked(k), true) && DonorsKept(k, Ticked(k))
  {
    hide Sound, DonorsSafe;
    TickKeeps(k);
  }

  lemma ReadyToSwitch(k: State, from: int)
    requires SoundFrom(k, false, from)
    ensures ReadyOk(k) && k.idle in k.th
  {
    hide WaitOk, CountOk, LockOk, SleepFrom, PlansOk, ReadyOk;
  }

  lemma StoppedIsReady(k: State, status: Status)
    requires Sound(k, true) && k.th[k.current].pc.Normal? && status == (if k.current == k.idle then Blocked else Dying)
    ensures ReadyOk(Stopped(k, status)) && Stopped(k, status).idle in Stopped(k, status).th
    ensures AfterStop(k) == Dispatched(Stopped(k, status))
  {
    StopKeeps(k, status, k.ticks + 1);
    hide WaitOk, CountOk, LockOk, SleepFrom, PlansOk, DonateBut, WindowsOk, ReadyOk, Dispatched;
  }

  lemma TryTakes(k: State, s: Sema)
    requires Sound(k, true) && MayDown(k, s)
    ensures k.value[s] > 0 ==> Sound(Took(k, s), true) && DonorsKept(k, Took(k, s))
  {
    TakeKeepsIfPositive(k, s);
    hide Sound, DonorsSafe;
  }

  lemma CurrentExists(k: State)
    requires Sound(k, true)
    ensures k.current in k.th
  {
  }

  lemma CurrentRuns(k: State)
    requires Sound(k, true)
    ensures QueuesExist(k) && k.th[k.current].status.Running?
  {
    QueuesDoExist(k, true);
  }

  /** Waking somebody changes no priority and not the running thread. */
  lemma UpKeepsPriority(k: State, s: Sema)
    requires MayUp(k, s)
    ensures Upped(k, s).current == k.current && forall t :: Pri(Upped(k, s).th, t) == Pri(k.th, t)
  {
    hide FirstMax;
  }

  lemma ParkedIsReady(k: State)
    requires Sound(k, true)
    ensures QueuesExist(k) && ReadyOk(Parked(k)) && Parked(k).idle in Parked(k).th
    ensures Yielded(k) == Dispatched(Parked(k)) && Sound(Yielded(k), true) && DonorsKept(k, Yielded(k))
  {
    hide WaitOk, CountOk, LockOk, SleepFrom, PlansOk, DonateBut, WindowsOk, ReadyOk, Parked, Dispatched;
    YieldKeeps(k);
    ParkKeeps(k, k.ticks + 1);
  }

  lemma AsleepIsReady(k: State, n: int)
    requires Sound(k, true) && n > 0 && k.current != k.idle && k.th[k.current].pc.Normal?
    ensures ReadyOk(Asleep(k, n)) && Asleep(k, n).idle in Asleep(k, n).th
    ensures AfterSleep(k, n) == Dispatched(Asleep(k, n))
  {
    hide WaitOk, CountOk, LockOk, SleepFrom, PlansOk, DonateBut, WindowsOk;
    SleepKeepsAll(k, n);
    hide Dispatched, Asleep;
  }

  lemma UpIsSafe(k: State, s: Sema)
    requires Sound(k, true) && s in k.waiters && s.Plain?
    ensures MayUp(k, s) && UppedSafely(k, s) == Upped(k, s)
  {
    UpKeeps(k, s, k.ticks + 1);
    hide Sound;
  }

  lemma LockUpIsSafe(k: State, l: Lock)
    requires Sound(k, true) && k.th[k.current].pc == Releasing(l)
    ensures OfLock(l) in k.waiters && MayUp(k, OfLock(l)) && LockUppedSafely(k, l) == LockUpped(k, l)
  {
    LockUpKeeps(k, l, k.ticks + 1);
    hide Sound;
  }

  lemma AssignedAs(k: State)
    requires QueuesExist(k) && k.th[k.current].status.Running? && Aim(k.th[k.current].pc).Some?
    requires PRI_MIN <= Aim(k.th[k.current].pc).value <= PRI_MAX
    ensures var pc, k1 := k.th[k.current].pc, Updated(k, k.current, Aim(k.th[k.current].pc).value);
            Assigned(k) == k1.(th := k1.th[k.current := k1.th[k.current].(pc := if pc.Setting? then Normal else Letting(pc.lock))])
  {
    assert Assigned(k).th.Keys == k.th.Keys;
  }

  /** An uninterrupted release is its four steps. */
  lemma ReleaseAsSteps(k: State, l: Lock)
    requires Sound(k, true) && k.current != k.idle && k.th[k.current].pc.Normal? && HoldsStill(k, k.current, l)
    ensures var k1 := DonorsDropped(k, l);
            && IsAt(k1, Dropped(l)) && var k2 := Computed(k1);
            && k2.current in k2.th && Aim(k2.th[k2.current].pc).Some? && var k3 := Assigned(k2);
            && IsAt(k3, Letting(l)) && AfterRelease(k, l) == HolderCleared(k3)
  {
    hide SoundFrom, DonorsSafe, OtherDonors, SortedByPriority, Refreshed;
    CurrentExists(k);
  }

  lemma AimInRange(k: State)
    requires Sound(k, true) && Aim(k.th[k.current].pc).Some?
    ensures QueuesExist(k) && k.th[k.current].status.Running? && PRI_MIN <= Aim(k.th[k.current].pc).value <= PRI_MAX
  {
    CurrentRuns(k);
    assert PlanOk(k.th[k.current]);
  }

  lemma SortedNotEmpty(th: Threads, s: seq<Tid>)
    ensures s == [] <==> SortedByPriority(th, s) == []
  {
  }

  lemma CurrentStays(k: State, l: Lock)
    requires MayUp(k, OfLock(l))
    ensures Upped(k, OfLock(l)).current in Upped(k, OfLock(l)).th
  {
  }
}
