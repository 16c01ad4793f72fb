module KernelSteps {
  // The complete steps: what one call, or one stretch of a call between two thread switches, does to the
  // state. Every step keeps the invariant.

  import opened KernelLists
  import opened KernelState
  import opened KernelKeep
  import opened KernelSwitch
  import opened KernelSync
  import opened KernelDonate
  import opened KernelRelease
  import opened KernelAcquire
  import opened KernelTimer

  // ----- thread_create

  const PRI_DEFAULT := 31

  function NewThread(p: int): Thread {
    Thread(Blocked, p, p, 0, None, [], Normal)
  }

  ghost function Created(k: State, t: Tid, p: int): State
    requires QueuesExist(k) && PRI_MIN <= p <= PRI_MAX
  {
    var k1 := k.(th := k.th[t := NewThread(p)]);
    Unblocked(k1, t)
  }

  lemma CreateReady(k: State, t: Tid, p: int)
    requires QueuesExist(k) && ReadyOk(k) && PRI_MIN <= p <= PRI_MAX && t !in k.th
    ensures ReadyOk(Created(k, t, p))
  {
    var k' := Created(k, t, p);
    forall q | 0 <= q <= PRI_MAX ensures QueueOk(k', q) {
      assert QueueOk(k, q) && !BelongsReady(k, t, q);
      if q == p { AppendMembers(k.ready[q], t); }
      assert forall u :: BelongsReady(k', u, q) <==> BelongsReady(k, u, q) || (u == t && q == p);
    }
  }

  lemma CreateWait(k: State, t: Tid, p: int, from: int)
    requires QueuesExist(k) && WaitOk(k) && BlockOk(k) && SleepFrom(k, from) && PRI_MIN <= p <= PRI_MAX && t !in k.th
    ensures WaitOk(Created(k, t, p)) && BlockOk(Created(k, t, p)) && SleepFrom(Created(k, t, p), from)
  {
    var k' := Created(k, t, p);
    forall s | s in k'.waiters ensures WaitersOk(k', s) {
      assert WaitersOk(k, s);
      assert forall u :: BelongsWaiting(k', u, s) <==> BelongsWaiting(k, u, s);
    }
    assert forall u :: BelongsSleeping(k', u) <==> BelongsSleeping(k, u);
    assert forall u :: u != t ==> WakeupTick(k'.th, u) == WakeupTick(k.th, u);
  }

  lemma CreateCount(k: State, t: Tid, p: int)
    requires QueuesExist(k) && CountOk(k) && LockOk(k) && PRI_MIN <= p <= PRI_MAX && t !in k.th
    ensures CountOk(Created(k, t, p)) && LockOk(Created(k, t, p))
  {
    var k' := Created(k, t, p);
    forall s | s in k'.waiters ensures NothingLost(k', s) {
      assert NothingLost(k, s);
      assert Woken(k'.th, s) == Woken(k.th, s);
    }
    forall l | l in k'.holder ensures LockFacts(k', l) {
      assert LockFacts(k, l);
      forall u ensures InsideLock(k', u, l) <==> InsideLock(k, u, l) {
        assert u != t && u in k.th ==> k'.th[u] == k.th[u];
      }
    }
  }

  lemma CreateDonates(k: State, t: Tid, p: int)
    requires QueuesExist(k) && DonateOk(k, None) && PRI_MIN <= p <= PRI_MAX && t !in k.th
    ensures DonateOk(Created(k, t, p), None)
  {
    var k' := Created(k, t, p);
    forall u | u in k'.th ensures DonorsOk(k', u, None, Ceiling(k', u, None, 0)) && WaitingLockOk(k', u, None) {
      if u != t {
        assert WaitingLockOk(k, u, None);
        assert DonorsOk(k, u, None, Ceiling(k, u, None, 0));
        forall d | d in k'.th[u].donations ensures Registered(k', d, u, None) && Pri(k'.th, d) <= Ceiling(k', u, None, 0) {
          assert Registered(k, d, u, None) && Pri(k.th, d) <= Ceiling(k, u, None, 0);
        }
      }
    }
  }

  lemma CreatePlans(k: State, t: Tid, p: int)
    requires QueuesExist(k) && PRI_MIN <= p <= PRI_MAX && t !in k.th
    ensures PlansOk(k.th) ==> PlansOk(Created(k, t, p).th)
    ensures DonateOk(k, None) && WindowsOk(k.th) ==> WindowsOk(Created(k, t, p).th)
  {
    if PlansOk(k.th) {
      forall u | u in k.th ensures PlanOk(Created(k, t, p).th[u]) { assert PlanOk(k.th[u]); }
    }
    if DonateOk(k, None) && WindowsOk(k.th) { CreateWindows(k, t, p); }
  }

  lemma CreateWindows(k: State, t: Tid, p: int)
    requires QueuesExist(k) && DonateOk(k, None) && WindowsOk(k.th) && PRI_MIN <= p <= PRI_MAX && t !in k.th
    ensures WindowsOk(Created(k, t, p).th)
  {
    forall u, d | u in k.th && d in k.th[u].donations ensures d in k.th {
      assert DonorsOk(k, u, None, Ceiling(k, u, None, 0));
      assert Registered(k, d, u, None);
    }
    hide DonateBut;
    var th' := Created(k, t, p).th;
    forall u, d | u in th' && d in th'[u].donations ensures Fits(th', th'[u], d) { assert Fits(k.th, k.th[u], d); }
  }

  lemma CreateKeeps(k: State, t: Tid, p: int, from: int)
    requires SoundFrom(k, true, from) && PRI_MIN <= p <= PRI_MAX && t !in k.th
    ensures QueuesExist(k) && SoundFrom(Created(k, t, p), true, from)
    ensures DonateOk(k, None) ==> DonateOk(Created(k, t, p), None)
    ensures DonateOk(k, None) && WindowsOk(k.th) ==> WindowsOk(Created(k, t, p).th)
  {
    hide WaitOk, CountOk, LockOk, SleepFrom, DonateBut, WindowsOk, PlansOk;
    QueuesDoExist(k, true);
    CreatePlans(k, t, p);
    hide ReadyOk, BlockOk;
    CreateReady(k, t, p);
    CreateWait(k, t, p, from);
    CreateCount(k, t, p);
    if DonateOk(k, None) { CreateDonates(k, t, p); }
  }

  // ----- the steps

  /** What donors are promised stays true. */
  ghost predicate DonorsKept(k: State, k': State) {
    DonorsSafe(k) ==> DonorsSafe(k')
  }

  /** A thread switch. */
  ghost function Switch(k: State): (r: State)
    requires SoundFrom(k, false, k.ticks + 1)
    ensures ReadyOk(k) && k.idle in k.th && r == Dispatched(k) && Sound(r, true)
    ensures (DonateOk(k, None) ==> DonateOk(r, None)) && (WindowsOk(r.th) <==> WindowsOk(k.th))
  {
    hide BaseOk, SleepFrom, PlansOk, DonateBut, WindowsOk;
    DispatchKeeps(k, k.ticks + 1);
    Dispatched(k)
  }

  /** One pass of the loop of `sema_down`: take the semaphore, or wait and switch. */
  ghost function AfterDown(k: State, s: Sema, pending: Option<Tid>): (r: State)
    requires Sound(k, true) && MayDown(k, s) && PendingFor(k, s, pending) && (pending.Some? ==> k.value[s] == 0)
    ensures Sound(r, true) && (DonateOk(k, pending) ==> DonateOk(r, None)) && (WindowsOk(r.th) <==> WindowsOk(k.th))
  {
    hide SoundFrom, WindowsOk;
    if k.value[s] == 0 then Waited(k, s, pending) else Taken(k, s)
  }

  ghost function Taken(k: State, s: Sema): (r: State)
    requires Sound(k, true) && MayDown(k, s) && k.value[s] != 0
    ensures Sound(r, true) && (DonateOk(k, None) ==> DonateOk(r, None)) && (WindowsOk(r.th) <==> WindowsOk(k.th))
  {
    hide BaseOk, SleepFrom, PlansOk, DonateBut, WindowsOk;
    CountsAreNatural(k, s);
    TakeKeeps(k, s, k.ticks + 1);
    Took(k, s)
  }

  ghost function Waited(k: State, s: Sema, pending: Option<Tid>): (r: State)
    requires Sound(k, true) && MayDown(k, s) && PendingFor(k, s, pending) && k.value[s] == 0
    ensures Sound(r, true) && (DonateOk(k, pending) ==> DonateOk(r, None)) && (WindowsOk(r.th) <==> WindowsOk(k.th))
  {
    hide SoundFrom, DonateBut, WindowsOk, Dispatched;
    BlockOnKeeps(k, s, pending, k.ticks + 1);
    Switch(BlockedOn(k, s))
  }

  lemma CountsAreNatural(k: State, s: Sema)
    requires Sound(k, true) && s in k.waiters
    ensures s in k.value && k.value[s] >= 0
  {
    assert NothingLost(k, s);
  }

  /** `sema_up` wakes a thread that outranks the running one. */
  ghost predicate WakesHigher(k: State, s: Sema)
    requires s in k.waiters
  {
    k.waiters[s] != [] && Pri(k.th, FirstMax(k.th, k.waiters[s])) > Pri(k.th, k.current)
  }

  ghost function YieldIf(k: State, condition: bool): (r: State)
    requires Sound(k, true)
    ensures Sound(r, true) && (DonorsSafe(k) ==> DonorsSafe(r))
  {
    YieldKeeps(k);
    hide Sound, DonateBut, WindowsOk;
    if condition then Yielded(k) else k
  }

  /** `sema_up` up to its yield. */
  ghost function UppedSafely(k: State, s: Sema): (r: State)
    requires Sound(k, true) && s in k.waiters && s.Plain?
    ensures Sound(r, true) && (DonorsSafe(k) ==> DonorsSafe(r))
  {
    hide BaseOk, SleepFrom, PlansOk, DonateBut, WindowsOk;
    UpKeeps(k, s, k.ticks + 1);
    Upped(k, s)
  }

  ghost function AfterUp(k: State, s: Sema): (r: State)
    requires Sound(k, true) && s in k.waiters && s.Plain?
    ensures Sound(r, true) && (DonorsSafe(k) ==> DonorsSafe(r))
  {
    hide Sound, DonorsSafe;
    YieldIf(UppedSafely(k, s), WakesHigher(k, s))
  }

  /** `lock_acquire` up to the end of its first pass through `sema_down`. All that concerns lists,
      semaphores, locks and sleepers stays in order; what concerns donors does if and only if the
      acquisition disturbs no thread that acts on what it read of its donors before. */
  ghost function AfterAcquire(k: State, l: Lock): (r: State)
    requires Sound(k, true) && MayAcquire(k, l)
    ensures Sound(r, true)
    ensures DonorsSafe(k) ==> DonateOk(r, None) && (DonorsSafe(r) <==> !Disturbs(k, l))
  {
    hide SoundFrom, WindowsOk, DonateBut, CanDonate, Disturbs;
    FreeIsUndisturbed(k, l);
    if k.holder[l] == None then AfterDown(k, OfLock(l), None) else AfterHeld(k, l)
  }

  /** The acquisition of a lock that is held: register, raise the chain of holders, wait. */
  ghost function AfterHeld(k: State, l: Lock): (r: State)
    requires Sound(k, true) && MayAcquire(k, l) && k.holder[l] != None
    ensures Sound(r, true)
    ensures DonorsSafe(k) ==> DonateOk(r, None) && (WindowsOk(r.th) <==> !Disturbs(k, l))
  {
    HeldReachesDown(k, l);
    hide SoundFrom, WindowsOk, DonateBut, CanDonate, Donated, Disturbs;
    AfterDown(Donated(k, l), OfLock(l), Some(k.current))
  }

  lemma HeldReachesDown(k: State, l: Lock)
    requires Sound(k, true) && MayAcquire(k, l) && k.holder[l] != None
    ensures QueuesExist(k) && OfLock(l) in k.value && k.value[OfLock(l)] == 0
    ensures var k1 := Donated(k, l);
            && Sound(k1, true) && MayDown(k1, OfLock(l)) && PendingFor(k1, OfLock(l), Some(k.current)) && k1.value[OfLock(l)] == 0
            && (DonorsSafe(k) ==> DonateOk(k1, Some(k.current)) && (WindowsOk(k1.th) <==> !Disturbs(k, l)))
  {
    hide BaseOk, SleepFrom, PlansOk, DonateBut, WindowsOk, CanDonate, Donated, Disturbs;
    HeldMeansZero(k, l);
    DonationKeeps(k, l, k.ticks + 1);
    DonatedMayDown(k, l);
    if DonorsSafe(k) { DonatedPlans(k, l); }
  }

  ghost function AfterGot(k: State, l: Lock): (r: State)
    requires Sound(k, true) && k.th[k.current].pc == GotLock(l)
    ensures Sound(r, true) && (DonorsSafe(k) ==> DonorsSafe(r))
  {
    GotKeeps(k, l, k.ticks + 1);
    hide BaseOk, SleepFrom, PlansOk, DonateBut, WindowsOk;
    Got(k, l)
  }

  /** `lock_release` up to its `sema_up`, when nothing preempts it. */
  ghost function AfterRelease(k: State, l: Lock): (r: State)
    requires Sound(k, true) && k.current != k.idle && k.th[k.current].pc.Normal? && l in k.holder && k.holder[l] == Some(k.current)
    ensures Sound(r, true) && (DonorsSafe(k) ==> DonorsSafe(r))
  {
    ReleaseKeeps(k, l);
    Released(k, l)
  }

  /** The `sema_up` at the end of `lock_release`, up to its yield. */
  ghost function LockUppedSafely(k: State, l: Lock): (r: State)
    requires Sound(k, true) && k.th[k.current].pc == Releasing(l)
    ensures OfLock(l) in k.waiters
    ensures Sound(r, true) && (DonorsSafe(k) ==> DonorsSafe(r))
  {
    hide BaseOk, SleepFrom, PlansOk, DonateBut, WindowsOk;
    LockUpKeeps(k, l, k.ticks + 1);
    LockUpped(k, l)
  }

  ghost function AfterLockUp(k: State, l: Lock): (r: State)
    requires Sound(k, true) && k.th[k.current].pc == Releasing(l)
    ensures OfLock(l) in k.waiters
    ensures Sound(r, true) && (DonorsSafe(k) ==> DonorsSafe(r))
  {
    hide SoundFrom, DonorsSafe;
    var k1 := LockUppedSafely(k, l);
    YieldIf(k1, WakesHigher(k, OfLock(l)))
  }

  ghost predicate HigherReady(k: State) {
    k.current in k.th && exists p :: 0 <= p < |k.ready| && k.th[k.current].priority < p && k.ready[p] != []
  }

  /** `thread_set_priority`, when nothing preempts it before its yield. */
  ghost function AfterSetPriority(k: State, n: int): (r: State)
    requires Sound(k, true) && k.th[k.current].pc.Normal? && PRI_MIN <= n <= PRI_MAX
    ensures Sound(r, true) && (DonorsSafe(k) ==> DonorsSafe(r))
  {
    SetPriorityKeeps(k, n);
    hide SoundFrom, DonorsSafe;
    YieldIf(PrioritySet(k, n), HigherReady(PrioritySet(k, n)))
  }

  ghost function AfterSleep(k: State, n: int): (r: State)
    requires Sound(k, true) && k.current != k.idle && k.th[k.current].pc.Normal?
    ensures Sound(r, true) && (DonorsSafe(k) ==> DonorsSafe(r))
  {
    hide SoundFrom, DonateBut, WindowsOk, Dispatched;
    if n <= 0 then k
    else
      SleepKeepsAll(k, n);
      Switch(Asleep(k, n))
  }

  ghost function AfterTick(k: State): (r: State)
    requires Sound(k, true)
    ensures Sound(r, true) && (DonorsSafe(k) ==> DonorsSafe(r))
  {
    TickKeeps(k);
    hide SoundFrom, DonorsSafe;
    YieldIf(Ticked(k), Ticked(k).yield_on_return)
  }

  /** `thread_create` up to its yield. */
  ghost function CreatedSafely(k: State, t: Tid, p: int): (r: State)
    requires Sound(k, true) && PRI_MIN <= p <= PRI_MAX && t !in k.th
    ensures Sound(r, true) && (DonorsSafe(k) ==> DonorsSafe(r))
  {
    hide BaseOk, SleepFrom, PlansOk, DonateBut, WindowsOk;
    CreateKeeps(k, t, p, k.ticks + 1);
    Created(k, t, p)
  }

  ghost function AfterCreate(k: State, t: Tid, p: int): (r: State)
    requires Sound(k, true) && PRI_MIN <= p <= PRI_MAX && t !in k.th
    ensures Sound(r, true) && (DonorsSafe(k) ==> DonorsSafe(r))
  {
    hide SoundFrom, DonorsSafe;
    YieldIf(CreatedSafely(k, t, p), p > Pri(k.th, k.current))
  }

  /** The idle thread blocks itself; any other thread exits. */
  ghost function AfterStop(k: State): (r: State)
    requires Sound(k, true) && k.th[k.current].pc.Normal?
    ensures Sound(r, true) && (DonorsSafe(k) ==> DonorsSafe(r))
  {
    hide SoundFrom, DonateBut, WindowsOk, Dispatched;
    var status := if k.current == k.idle then Blocked else Dying;
    StopKeeps(k, status, k.ticks + 1);
    Switch(Stopped(k, status))
  }
}
