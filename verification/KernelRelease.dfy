module KernelRelease {
  // `thread_set_priority` and `lock_release` up to its `sema_up`. Both run with interrupts on, so each is
  // several steps, between which the thread can be preempted.

  import opened KernelLists
  import opened KernelState
  import opened KernelKeep
  import opened KernelSwitch
  import opened KernelSync
  import opened KernelDonate

  // ----- a step in which the running thread changes only its own record

  ghost function OwnStep(k: State, v: Thread): State
    requires k.current in k.th
  {
    k.(th := k.th[k.current := v])
  }

  /** At a place where the thread is on no list and past no `sema_down`. */
  predicate OwnPc(pc: Pc) {
    pc.Normal? || InWindow(pc)
  }

  ghost predicate OwnStepOk(k: State, v: Thread)
    requires k.current in k.th
  {
    var a := k.th[k.current];
    && v.status == a.status && v.wakeup_tick == a.wakeup_tick
    && (v.waiting_lock == a.waiting_lock || v.waiting_lock == None)
    && PRI_MIN <= v.priority <= PRI_MAX
    && (v.pc == a.pc || (OwnPc(a.pc) && OwnPc(v.pc)))
    && (k.current == k.idle ==> IdlePc(v.pc))
    && (GivingUp(v.pc).Some? ==> HoldsStill(k, k.current, GivingUp(v.pc).value))
  }

  /** No donor is added. */
  ghost predicate OwnDonors(a: Thread, v: Thread) {
    Distinct(v.donations) && forall d :: d in v.donations ==> d in a.donations
  }

  lemma OwnStepBase(k: State, v: Thread, from: int)
    requires BaseOk(k, true) && SleepFrom(k, from) && k.current in k.th && OwnStepOk(k, v)
    ensures BaseOk(OwnStep(k, v), true) && SleepFrom(OwnStep(k, v), from)
  {
    hide WaitOk, CountOk, LockOk, SleepFrom;
    QueuesDoExist(k, true);
    hide ReadyOk;
    var k', t := OwnStep(k, v), k.current;
    RunKeep(k, k', true, t);
    ReadyKeep(k, k', t);
    WaitKeep(k, k', t);
    SleepKeep(k, k', t, from);
    BlockKeep(k, k', t);
    CountKeep(k, k', t);
    LockKeep(k, k', t);
  }

  ghost predicate Covers(th: Threads, v: Thread) {
    forall d :: d in v.donations ==> Pri(th, d) <= v.priority
  }

  /** Donations stay in order after such a step if and only if the thread then covers its donors. */
  lemma OwnStepDonates(k: State, v: Thread)
    requires DonateOk(k, None) && k.current in k.th && k.th[k.current].status.Running? && OwnStepOk(k, v) && OwnDonors(k.th[k.current], v)
    ensures DonateOk(OwnStep(k, v), None) <==> Covers(k.th, v)
  {
    var k', t := OwnStep(k, v), k.current;
    RunningDonatesNothing(k);
    if Covers(k.th, v) {
      forall u | u in k'.th ensures DonorsOk(k', u, None, Ceiling(k', u, None, 0)) && WaitingLockOk(k', u, None) {
        assert WaitingLockOk(k, u, None);
        assert DonorsOk(k, u, None, Ceiling(k, u, None, 0));
        forall d | d in k'.th[u].donations ensures Registered(k', d, u, None) && Pri(k'.th, d) <= Ceiling(k', u, None, 0) {
          assert Registered(k, d, u, None) && Pri(k.th, d) <= Ceiling(k, u, None, 0);
        }
      }
    }
    if DonateOk(k', None) {
      assert DonorsOk(k', t, None, Ceiling(k', t, None, 0));
      assert forall d :: d in v.donations ==> d != t && Pri(k'.th, d) == Pri(k.th, d);
    }
  }

  lemma RunningDonatesNothing(k: State)
    requires DonateOk(k, None) && k.current in k.th && k.th[k.current].status.Running?
    ensures forall t :: t in k.th ==> k.current !in k.th[t].donations
  {
    forall t | t in k.th ensures k.current !in k.th[t].donations {
      assert DonorsOk(k, t, None, Ceiling(k, t, None, 0));
      assert k.current in k.th[t].donations ==> Registered(k, k.current, t, None);
    }
  }

  ghost predicate PlanFits(th: Threads, v: Thread) {
    forall d :: d in v.donations ==> Fits(th, v, d)
  }

  lemma OwnStepPlans(k: State, v: Thread)
    requires DonateOk(k, None) && WindowsOk(k.th) && k.current in k.th && k.th[k.current].status.Running?
    requires PlanFits(k.th, v) && k.current !in v.donations
    ensures WindowsOk(OwnStep(k, v).th)
  {
    RunningDonatesNothing(k);
    hide DonateBut;
    var th', t := OwnStep(k, v).th, k.current;
    forall u, d | u in th' && d in th'[u].donations ensures Fits(th', th'[u], d) {
      assert if u == t then Fits(k.th, v, d) else Fits(k.th, k.th[u], d);
    }
  }

  /** The step leaves the donors of the running thread covered, and what it has read of them is so. */
  ghost predicate OwnStepSafe(k: State, v: Thread)
    requires k.current in k.th
  {
    OwnDonors(k.th[k.current], v) && Covers(k.th, v) && PlanFits(k.th, v)
  }

  lemma OwnStepKeeps(k: State, v: Thread)
    requires Sound(k, true) && OwnStepOk(k, v) && PlanOk(v) && (DonorsSafe(k) ==> OwnStepSafe(k, v))
    ensures Sound(OwnStep(k, v), true) && (DonorsSafe(k) ==> DonorsSafe(OwnStep(k, v)))
  {
    hide ReadyOk, WaitOk, CountOk, LockOk, SleepFrom, DonorsSafe, OwnStepSafe;
    OwnStepBase(k, v, k.ticks + 1);
    if DonorsSafe(k) { OwnStepIsSafe(k, v); }
    hide OwnStepOk;
  }

  lemma OwnStepIsSafe(k: State, v: Thread)
    requires RunOk(k, true) && DonorsSafe(k) && OwnStepOk(k, v) && OwnStepSafe(k, v)
    ensures DonorsSafe(OwnStep(k, v))
  {
    hide WindowsOk, PlanFits, Covers;
    RunningDonatesNothing(k);
    hide DonateBut;
    OwnStepDonates(k, v);
    OwnStepPlans(k, v);
    hide OwnStepOk;
  }

  /** What the invariants say about the running thread itself. */
  lemma OwnFacts(k: State)
    requires Sound(k, true)
    ensures var a := k.th[k.current];
            && a.status.Running? && PRI_MIN <= a.priority <= PRI_MAX && PlanOk(a)
            && (k.current == k.idle ==> IdlePc(a.pc))
            && (GivingUp(a.pc).Some? ==> HoldsStill(k, k.current, GivingUp(a.pc).value))
            && (DonorsSafe(k) ==> OwnStepSafe(k, a))
  {
    if DonorsSafe(k) { OwnDonorFacts(k); }
    hide WaitOk, CountOk, SleepFrom, DonorsSafe, OwnStepSafe;
  }

  lemma OwnDonorFacts(k: State)
    requires DonorsSafe(k) && k.current in k.th
    ensures OwnStepSafe(k, k.th[k.current])
  {
    assert DonorsOk(k, k.current, None, Ceiling(k, k.current, None, 0));
    forall d | d in k.th[k.current].donations ensures Pri(k.th, d) <= k.th[k.current].priority {
      assert Registered(k, d, k.current, None);
    }
  }

  // ----- thread_set_priority, step by step

  /** The base priority is written. */
  ghost function BaseWritten(k: State, n: int): State
    requires k.current in k.th
  {
    OwnStep(k, k.th[k.current].(base_priority := n, pc := BaseSet(n)))
  }

  /** The donors and the priority are looked at. */
  ghost function Decided(k: State): State
    requires k.current in k.th && k.th[k.current].pc.BaseSet?
  {
    var a := k.th[k.current];
    OwnStep(k, a.(pc := if a.donations == [] || a.pc.n > a.priority then Setting(a.pc.n) else Normal))
  }

  /** `thread_update_priority` of the running thread, in `thread_set_priority` and in `refresh_priority`. */
  ghost function Assigned(k: State): State
    requires k.current in k.th && Aim(k.th[k.current].pc).Some?
  {
    var a := k.th[k.current];
    OwnStep(k, a.(priority := Aim(a.pc).value, pc := if a.pc.Setting? then Normal else Letting(a.pc.lock)))
  }

  lemma BaseWrittenKeeps(k: State, n: int)
    requires Sound(k, true) && k.th[k.current].pc.Normal? && PRI_MIN <= n <= PRI_MAX
    ensures Sound(BaseWritten(k, n), true) && (DonorsSafe(k) ==> DonorsSafe(BaseWritten(k, n)))
  {
    OwnFacts(k);
    hide SoundFrom, DonorsSafe;
    OwnStepKeeps(k, k.th[k.current].(base_priority := n, pc := BaseSet(n)));
  }

  lemma DecidedKeeps(k: State)
    requires Sound(k, true) && k.th[k.current].pc.BaseSet?
    ensures Sound(Decided(k), true) && (DonorsSafe(k) ==> DonorsSafe(Decided(k)))
  {
    OwnFacts(k);
    hide SoundFrom, DonorsSafe;
    var a := k.th[k.current];
    OwnStepKeeps(k, a.(pc := if a.donations == [] || a.pc.n > a.priority then Setting(a.pc.n) else Normal));
  }

  lemma AssignedKeeps(k: State)
    requires Sound(k, true) && Aim(k.th[k.current].pc).Some?
    ensures Sound(Assigned(k), true) && (DonorsSafe(k) ==> DonorsSafe(Assigned(k)))
  {
    OwnFacts(k);
    hide SoundFrom, DonorsSafe;
    var a := k.th[k.current];
    var v := a.(priority := Aim(a.pc).value, pc := if a.pc.Setting? then Normal else Letting(a.pc.lock));
    if DonorsSafe(k) {
      forall d | d in v.donations ensures Pri(k.th, d) <= v.priority && Fits(k.th, v, d) { assert Fits(k.th, a, d); }
    }
    OwnStepKeeps(k, v);
  }

  /** From any state, even one that a preemption has left with an outdated plan: the assignment leaves
      every thread at or above its donors if and only if the priority assigned covers those registered by
      now. */
  lemma AssignedCovers(k: State)
    requires Sound(k, true) && DonateOk(k, None) && Aim(k.th[k.current].pc).Some?
    ensures DonateOk(Assigned(k), None) <==>
              forall d :: d in k.th[k.current].donations ==> Pri(k.th, d) <= Aim(k.th[k.current].pc).value
  {
    OwnFacts(k);
    assert DonorsOk(k, k.current, None, Ceiling(k, k.current, None, 0));
    hide ReadyOk, WaitOk, CountOk, LockOk, SleepFrom, DonateBut;
    var a := k.th[k.current];
    OwnStepDonates(k, a.(priority := Aim(a.pc).value, pc := if a.pc.Setting? then Normal else Letting(a.pc.lock)));
  }

  /** The state after `thread_set_priority`, but for its yield, when nothing preempts it. */
  ghost function PrioritySet(k: State, n: int): State
    requires k.current in k.th
  {
    var k2 := Decided(BaseWritten(k, n));
    if k2.th[k2.current].pc.Setting? then Assigned(k2) else k2
  }

  lemma SetPriorityKeeps(k: State, n: int)
    requires Sound(k, true) && k.th[k.current].pc.Normal? && PRI_MIN <= n <= PRI_MAX
    ensures Sound(PrioritySet(k, n), true) && (DonorsSafe(k) ==> DonorsSafe(PrioritySet(k, n)))
  {
    hide SoundFrom, DonorsSafe;
    CurrentIsThere(k);
    BaseWrittenKeeps(k, n);
    DecidedKeeps(BaseWritten(k, n));
    var k2 := Decided(BaseWritten(k, n));
    if k2.th[k2.current].pc.Setting? { AssignedKeeps(k2); }
    hide Sound;
  }

  lemma CurrentIsThere(k: State)
    requires Sound(k, true)
    ensures k.current in k.th
  {
  }

  lemma PrioritySetShape(k: State, n: int)
    requires k.current in k.th && k.th[k.current].pc.Normal?
    ensures var a := k.th[k.current];
            PrioritySet(k, n) == k.(th := k.th[k.current := a.(base_priority := n, priority := if a.donations == [] || n > a.priority then n else a.priority)])
  {
  }

  /** The priority that base priority and donors justify. */
  ghost predicate Justified(th: Threads, v: Thread) {
    v.priority == v.base_priority || exists d :: d in v.donations && Pri(th, d) == v.priority
  }

  /** `thread_set_priority` leaves a priority that the base priority or a donor justifies if and only if
      there is no donor, or the new priority is no lower than the old, or a donor has the old priority. */
  lemma SetPriorityJustified(k: State, n: int)
    requires DonateOk(k, None) && k.current in k.th && k.th[k.current].status.Running? && k.th[k.current].pc.Normal?
    ensures var c := k.th[k.current];
            Justified(PrioritySet(k, n).th, PrioritySet(k, n).th[k.current]) <==>
              c.donations == [] || n >= c.priority || exists d :: d in c.donations && Pri(k.th, d) == c.priority
  {
    PrioritySetShape(k, n);
    var k', t, c := PrioritySet(k, n), k.current, k.th[k.current];
    RunningDonatesNothing(k);
    hide DonateBut, PrioritySet;
    assert forall d :: d in c.donations ==> Pri(k'.th, d) == Pri(k.th, d);
  }

  // ----- lock_release up to its sema_up, step by step

  /** `remove_donation_by_lock`. */
  ghost function DonorsDropped(k: State, l: Lock): State
    requires k.current in k.th
  {
    var a := k.th[k.current];
    OwnStep(k, a.(donations := OtherDonors(k.th, a.donations, l), pc := Dropped(l)))
  }

  /** `refresh_priority` up to its `thread_update_priority`: the donors are sorted and the first is read. */
  ghost function Computed(k: State): State
    requires k.current in k.th && k.th[k.current].pc.Dropped?
  {
    var a := k.th[k.current];
    OwnStep(k, a.(donations := SortedByPriority(k.th, a.donations),
                  pc := Refreshing(a.pc.lock, Refreshed(k.th, a.base_priority, a.donations))))
  }

  /** The holder is cleared. */
  ghost function HolderCleared(k: State): State
    requires k.current in k.th && k.th[k.current].pc.Letting?
  {
    var a := k.th[k.current];
    OwnStep(k, a.(pc := Releasing(a.pc.lock))).(holder := k.holder[a.pc.lock := None])
  }

  lemma DonorsDroppedKeeps(k: State, l: Lock)
    requires Sound(k, true) && k.current != k.idle && k.th[k.current].pc.Normal? && HoldsStill(k, k.current, l)
    ensures Sound(DonorsDropped(k, l), true) && (DonorsSafe(k) ==> DonorsSafe(DonorsDropped(k, l)))
  {
    OwnFacts(k);
    hide SoundFrom, DonorsSafe;
    var a := k.th[k.current];
    if DonorsSafe(k) { OtherDonorsMembers(k.th, a.donations, l); }
    hide OtherDonors;
    OwnStepKeeps(k, a.(donations := OtherDonors(k.th, a.donations, l), pc := Dropped(l)));
  }

  lemma ComputedKeeps(k: State)
    requires Sound(k, true) && k.th[k.current].pc.Dropped?
    ensures Sound(Computed(k), true) && (DonorsSafe(k) ==> DonorsSafe(Computed(k)))
  {
    OwnFacts(k);
    RefreshedInRange(k);
    hide SoundFrom, DonorsSafe;
    if DonorsSafe(k) { ComputedFits(k.th, k.th[k.current]); }
    hide SortedByPriority, Refreshed;
    var a := k.th[k.current];
    OwnStepKeeps(k, a.(donations := SortedByPriority(k.th, a.donations),
                       pc := Refreshing(a.pc.lock, Refreshed(k.th, a.base_priority, a.donations))));
  }

  lemma RefreshedInRange(k: State)
    requires Sound(k, true)
    ensures var a := k.th[k.current]; a.base_priority <= Refreshed(k.th, a.base_priority, a.donations) <= PRI_MAX
  {
    assert PlanOk(k.th[k.current]);
    hide WaitOk, CountOk, LockOk, SleepFrom, SortedByPriority;
  }

  lemma ComputedFits(th: Threads, a: Thread)
    requires a.pc.Dropped? && OwnDonors(a, a) && Covers(th, a) && PlanFits(th, a)
    ensures var v := a.(donations := SortedByPriority(th, a.donations),
                        pc := Refreshing(a.pc.lock, Refreshed(th, a.base_priority, a.donations)));
            OwnDonors(a, v) && Covers(th, v) && PlanFits(th, v)
  {
    SortedMembers(th, a.donations);
    RefreshedCovers(th, a.base_priority, a.donations);
    hide SortedByPriority, Refreshed;
    assert forall d :: d in a.donations ==> Fits(th, a, d);
  }

  lemma HolderClearedBase(k: State)
    requires BaseOk(k, true) && SleepFrom(k, k.ticks + 1) && k.current in k.th && k.th[k.current].pc.Letting?
    ensures BaseOk(HolderCleared(k), true) && SleepFrom(HolderCleared(k), k.ticks + 1)
  {
    HolderClearedLocks(k);
    hide WaitOk, CountOk, LockOk, SleepFrom;
    QueuesDoExist(k, true);
    hide ReadyOk;
    var k', t := HolderCleared(k), k.current;
    RunKeep(k, k', true, t);
    ReadyKeep(k, k', t);
    WaitKeep(k, k', t);
    SleepKeep(k, k', t, k.ticks + 1);
    BlockKeep(k, k', t);
    CountKeep(k, k', t);
  }

  lemma HolderClearedLocks(k: State)
    requires LockOk(k) && k.current in k.th && k.th[k.current].pc.Letting?
    ensures LockOk(HolderCleared(k)) && HoldsStill(k, k.current, k.th[k.current].pc.lock)
  {
    var k', t, l := HolderCleared(k), k.current, k.th[k.current].pc.lock;
    assert GivingUp(k.th[t].pc) == Some(l) && HoldsStill(k, t, l);
    forall u | u in k'.th && GivingUp(k'.th[u].pc).Some? ensures HoldsStill(k', u, GivingUp(k'.th[u].pc).value) {
      assert u != t && HoldsStill(k, u, GivingUp(k.th[u].pc).value);
    }
    forall l' | l' in k'.holder ensures LockFacts(k', l') {
      assert LockFacts(k, l');
      forall u ensures InsideLock(k', u, l') <==> InsideLock(k, u, l') {
        assert l' == l && u != t ==> !InsideLock(k, u, l');
        assert u != t && u in k.th ==> k'.th[u] == k.th[u];
      }
    }
  }

  ghost predicate NobodyWaitsFor(k: State, l: Lock)
    requires k.current in k.th
  {
    forall d :: d in k.th[k.current].donations ==> d in k.th && k.th[d].waiting_lock != Some(l)
  }

  /** From any state, even one that a preemption has left with an outdated plan: clearing the holder leaves
      no thread registered with one that does not hold the lock it waits for if and only if none has
      registered for this lock by now. */
  lemma HolderClearedDonates(k: State)
    requires DonateOk(k, None) && k.current in k.th && k.th[k.current].status.Running? && k.th[k.current].pc.Letting?
    requires HoldsStill(k, k.current, k.th[k.current].pc.lock)
    ensures DonateOk(HolderCleared(k), None) <==> NobodyWaitsFor(k, k.th[k.current].pc.lock)
  {
    var k', t, l := HolderCleared(k), k.current, k.th[k.current].pc.lock;
    RunningDonatesNothing(k);
    assert forall u :: Pri(k'.th, u) == Pri(k.th, u);
    if NobodyWaitsFor(k, l) {
      forall u | u in k'.th ensures DonorsOk(k', u, None, Ceiling(k', u, None, 0)) && WaitingLockOk(k', u, None) {
        assert WaitingLockOk(k, u, None);
        assert DonorsOk(k, u, None, Ceiling(k, u, None, 0));
        forall d | d in k'.th[u].donations ensures Registered(k', d, u, None) && Pri(k'.th, d) <= Ceiling(k', u, None, 0) {
          assert Registered(k, d, u, None) && Pri(k.th, d) <= Ceiling(k, u, None, 0);
        }
      }
    }
    if DonateOk(k', None) {
      assert DonorsOk(k', t, None, Ceiling(k', t, None, 0));
      forall d | d in k.th[t].donations ensures d in k.th && k.th[d].waiting_lock != Some(l) {
        assert Registered(k', d, t, None);
      }
    }
  }

  lemma HolderClearedKeeps(k: State)
    requires Sound(k, true) && k.th[k.current].pc.Letting?
    ensures Sound(HolderCleared(k), true) && (DonorsSafe(k) ==> DonorsSafe(HolderCleared(k)))
  {
    hide ReadyOk, WaitOk, CountOk, LockOk, SleepFrom, DonorsSafe;
    HolderClearedBase(k);
    HolderClearedPlans(k);
    if DonorsSafe(k) { HolderClearedSafe(k); }
  }

  lemma HolderClearedPlans(k: State)
    requires PlansOk(k.th) && k.current in k.th && k.th[k.current].pc.Letting?
    ensures PlansOk(HolderCleared(k).th)
  {
    assert PlanOk(k.th[k.current]);
  }

  lemma HolderClearedSafe(k: State)
    requires BaseOk(k, true) && DonorsSafe(k) && k.th[k.current].pc.Letting?
    ensures DonorsSafe(HolderCleared(k))
  {
    HolderClearedLocks(k);
    hide ReadyOk, WaitOk, CountOk, LockOk;
    var a := k.th[k.current];
    assert DonorsOk(k, k.current, None, Ceiling(k, k.current, None, 0));
    forall d | d in a.donations ensures d in k.th && k.th[d].waiting_lock != Some(a.pc.lock) {
      assert Registered(k, d, k.current, None) && Fits(k.th, a, d);
    }
    RunningDonatesNothing(k);
    hide DonateBut;
    OwnStepPlans(k, a.(pc := Releasing(a.pc.lock)));
    HolderClearedDonates(k);
    hide WindowsOk;
  }

  /** The state after `lock_release` up to its `sema_up`, when nothing preempts it. */
  ghost function Released(k: State, l: Lock): State
    requires k.current in k.th
  {
    HolderCleared(Assigned(Computed(DonorsDropped(k, l))))
  }

  lemma ReleaseKeeps(k: State, l: Lock)
    requires Sound(k, true) && k.current != k.idle && k.th[k.current].pc.Normal? && HoldsStill(k, k.current, l)
    ensures Sound(Released(k, l), true) && (DonorsSafe(k) ==> DonorsSafe(Released(k, l)))
  {
    hide SoundFrom, DonorsSafe, OtherDonors, SortedByPriority, Refreshed;
    CurrentIsThere(k);
    DonorsDroppedKeeps(k, l);
    ComputedKeeps(DonorsDropped(k, l));
    AssignedKeeps(Computed(DonorsDropped(k, l)));
    HolderClearedKeeps(Assigned(Computed(DonorsDropped(k, l))));
    hide Sound;
  }

  /** After a release the priority is exactly the greatest of the base priority and the remaining donors;
      in particular the base priority when no donor remains. */
  lemma ReleaseIsExact(k: State, l: Lock)
    requires DonateOk(k, None) && k.current in k.th && k.th[k.current].status.Running?
    ensures var c := Released(k, l).th[k.current];
            && (forall d :: d in c.donations ==> Pri(k.th, d) <= c.priority) && c.base_priority <= c.priority
            && (c.priority == c.base_priority || exists d :: d in c.donations && Pri(k.th, d) == c.priority)
            && (c.donations == [] ==> c.priority == c.base_priority)
            && (forall d :: d in c.donations <==> d in k.th[k.current].donations && !(d in k.th && k.th[d].waiting_lock == Some(l)))
  {
    assert DonorsOk(k, k.current, None, Ceiling(k, k.current, None, 0));
    RunningDonatesNothing(k);
    hide DonateBut;
    var k1 := DonorsDropped(k, l);
    var donors := k1.th[k.current].donations;
    OtherDonorsMembers(k.th, k.th[k.current].donations, l);
    assert forall d :: Pri(k1.th, d) == Pri(k.th, d);
    SortedMembers(k1.th, donors);
    RefreshedCovers(k1.th, k.th[k.current].base_priority, donors);
    hide OtherDonors, SortedByPriority;
    if k.th[k.current].base_priority != Refreshed(k1.th, k.th[k.current].base_priority, donors) {
      var d :| d in donors && Pri(k1.th, d) == Refreshed(k1.th, k.th[k.current].base_priority, donors);
      assert d in SortedByPriority(k1.th, donors);
    }
  }
}
