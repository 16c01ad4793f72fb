/** The state of the Pintos threads subsystem between two interrupts-off sections, and what holds of
    it in every reachable state. */
module KernelState {
  import opened KernelLists

  const PRI_MIN := 0
  const PRI_MAX := 63
  const TIME_SLICE := 4

  /** `owner[l]` is the one thread between its `sema_down` and its `sema_up` of lock `l`: the holder, or
      a thread about to become it, or one that has just stopped being it. */
  datatype State = State(th: Threads, idle: Tid, current: Tid, ready: seq<seq<Tid>>,
                         waiters: map<Sema, seq<Tid>>, value: map<Sema, int>,
                         sleepers: seq<Tid>, ticks: int, thread_ticks: int, yield_on_return: bool,
                         holder: map<Lock, Option<Tid>>, owner: map<Lock, Option<Tid>>)

  // ----- the running and the ready threads

  /** Exactly the current thread runs; while a switch is in progress, none does. */
  ghost predicate RunOk(k: State, running: bool) {
    && k.current in k.th && k.idle in k.th
    && forall t :: t in k.th ==> (k.th[t].status.Running? <==> running && t == k.current)
  }

  ghost predicate BelongsReady(k: State, t: Tid, p: int) {
    t in k.th && t != k.idle && k.th[t].status.Ready? && k.th[t].priority == p
  }

  ghost predicate QueueOk(k: State, p: int)
    requires 0 <= p < |k.ready|
  {
    Distinct(k.ready[p]) && forall t :: t in k.ready[p] <==> BelongsReady(k, t, p)
  }

  /** A ready thread other than the idle one is on the queue of its priority, once, and nothing else is. */
  ghost predicate ReadyOk(k: State) {
    && |k.ready| == PRI_MAX + 1
    && (forall t :: t in k.th ==> PRI_MIN <= k.th[t].priority <= PRI_MAX)
    && forall p {:trigger QueueOk(k, p)} :: 0 <= p <= PRI_MAX ==> QueueOk(k, p)
  }

  // ----- the blocked threads

  ghost predicate BelongsWaiting(k: State, t: Tid, s: Sema) {
    t in k.th && k.th[t].status.Blocked? && k.th[t].pc == Downing(s)
  }

  ghost predicate WaitersOk(k: State, s: Sema)
    requires s in k.waiters
  {
    Distinct(k.waiters[s]) && forall t :: t in k.waiters[s] <==> BelongsWaiting(k, t, s)
  }

  /** A blocked thread inside `sema_down` is on the waiters of that semaphore, once, and nothing else is. */
  ghost predicate WaitOk(k: State) {
    && k.waiters.Keys == k.value.Keys
    && (forall t :: t in k.th && k.th[t].pc.Downing? ==> k.th[t].pc.sema in k.waiters)
    && forall s {:trigger WaitersOk(k, s)} :: s in k.waiters ==> WaitersOk(k, s)
  }

  ghost predicate BelongsSleeping(k: State, t: Tid) {
    t in k.th && k.th[t].status.Blocked? && k.th[t].pc.Sleeping?
  }

  /** A sleeping thread is on the sleep list, once, and nothing else is; the list is in order of wakeup
      ticks, all of them at least `from`. */
  ghost predicate SleepFrom(k: State, from: int) {
    && Distinct(k.sleepers) && (forall t :: t in k.sleepers <==> BelongsSleeping(k, t))
    && WakesInOrder(k.th, k.sleepers)
    && forall t :: t in k.sleepers ==> WakeupTick(k.th, t) >= from
  }

  /** The idle thread never waits for anything and holds nothing. */
  predicate IdlePc(pc: Pc) {
    pc.Normal? || Raising(pc)
  }

  /** Only the idle thread blocks without waiting for something. */
  ghost predicate BlockOk(k: State) {
    && k.idle in k.th && IdlePc(k.th[k.idle].pc)
    && (forall t :: t in k.th && k.th[t].status.Blocked? && t != k.idle ==> k.th[t].pc.Downing? || k.th[t].pc.Sleeping?)
    && (forall t :: t in k.th && k.th[t].pc.Sleeping? ==> k.th[t].status.Blocked?)
    && forall t :: t in k.th && k.th[t].status.Dying? ==> k.th[t].pc.Normal?
  }

  // ----- semaphores

  /** The threads that were woken inside `sema_down(s)` and have not tried again yet. */
  ghost function Woken(th: Threads, s: Sema): set<Tid> {
    set t | t in th && th[t].pc == Downing(s) && !th[t].status.Blocked?
  }

  ghost predicate NothingLost(k: State, s: Sema)
    requires s in k.waiters && s in k.value
  {
    0 <= k.value[s] && (k.waiters[s] == [] || k.value[s] <= |Woken(k.th, s)|)
  }

  /** While threads wait, the value does not exceed the number of threads on their way to take it. */
  ghost predicate CountOk(k: State) {
    k.waiters.Keys == k.value.Keys && forall s {:trigger NothingLost(k, s)} :: s in k.waiters ==> NothingLost(k, s)
  }

  // ----- locks

  ghost predicate InsideLock(k: State, t: Tid, l: Lock) {
    t in k.th && l in k.holder && (k.holder[l] == Some(t) || k.th[t].pc == GotLock(l) || k.th[t].pc == Releasing(l))
  }

  ghost predicate LockFacts(k: State, l: Lock)
    requires l in k.holder && l in k.owner
  {
    && OfLock(l) in k.value && k.value[OfLock(l)] == (if k.owner[l].None? then 1 else 0)
    && (forall t :: InsideLock(k, t, l) ==> k.owner[l] == Some(t))
    && (k.owner[l].Some? ==> InsideLock(k, k.owner[l].value, l))
    && (k.holder[l].Some? ==> var h := k.holder[l].value;
                              h in k.th && h != k.idle && k.th[h].pc != GotLock(l) && k.th[h].pc != Releasing(l))
  }

  /** The semaphore of a lock is 0 when exactly one thread is inside the lock, and 1 when none is. */
  ghost predicate LockOk(k: State) {
    && k.holder.Keys == k.owner.Keys
    && (forall s :: s in k.value && s.OfLock? ==> s.lock in k.holder)
    && (forall t :: t in k.th && k.th[t].pc.GotLock? ==> k.th[t].pc.lock in k.holder)
    && (forall t :: t in k.th && k.th[t].pc.Releasing? ==> k.th[t].pc.lock in k.holder)
    && (forall t :: t in k.th && GivingUp(k.th[t].pc).Some? ==> HoldsStill(k, t, GivingUp(k.th[t].pc).value))
    && forall l {:trigger LockFacts(k, l)} :: l in k.holder ==> LockFacts(k, l)
  }

  ghost predicate HoldsStill(k: State, t: Tid, l: Lock) {
    l in k.holder && k.holder[l] == Some(t)
  }

  // ----- donations

  /** `d` has registered with `t`: it waits for a lock that `t` holds. */
  ghost predicate Registered(k: State, d: Tid, t: Tid, pending: Option<Tid>) {
    && d in k.th && t in k.th && d != t
    && k.th[d].waiting_lock.Some? && k.th[d].waiting_lock.value in k.holder
    && k.holder[k.th[d].waiting_lock.value] == Some(t)
    && (pending == Some(d) || (k.th[d].status.Blocked? && k.th[d].pc == Downing(OfLock(k.th[d].waiting_lock.value))))
  }

  ghost predicate DonorsOk(k: State, t: Tid, pending: Option<Tid>, ceiling: int)
    requires t in k.th
  {
    && Distinct(k.th[t].donations)
    && forall d :: d in k.th[t].donations ==> Registered(k, d, t, pending) && Pri(k.th, d) <= ceiling
  }

  ghost predicate WaitingLockOk(k: State, t: Tid, pending: Option<Tid>)
    requires t in k.th
  {
    k.th[t].waiting_lock.Some? ==>
      var l := k.th[t].waiting_lock.value;
      l in k.holder && (pending == Some(t) || k.th[t].pc == Downing(OfLock(l)) || k.th[t].pc == GotLock(l))
  }

  /** Thread `at` may still have to be raised to `level`; everybody else covers the registered donors. */
  ghost function Ceiling(k: State, t: Tid, at: Option<Tid>, level: int): int
    requires t in k.th
  {
    if at == Some(t) then Max(k.th[t].priority, level) else k.th[t].priority
  }

  /** Priorities cover registered donors, but for thread `at`. `pending` is a thread
      inside the prefix of `lock_acquire`, which has registered but not blocked yet. */
  ghost predicate DonateBut(k: State, pending: Option<Tid>, at: Option<Tid>, level: int) {
    && (forall t {:trigger DonorsOk(k, t, pending, Ceiling(k, t, at, level))} ::
          t in k.th ==> DonorsOk(k, t, pending, Ceiling(k, t, at, level)))
    && (forall t {:trigger WaitingLockOk(k, t, pending)} :: t in k.th ==> WaitingLockOk(k, t, pending))
  }

  ghost predicate DonateOk(k: State, pending: Option<Tid>) {
    DonateBut(k, pending, None, 0)
  }

  // ----- priority changes under way

  /** The base priority is a floor of the priority except inside `thread_set_priority`; a priority about to
      be assigned is the base priority there, and covers it in `lock_release`. */
  ghost predicate PlanOk(v: Thread) {
    && PRI_MIN <= v.base_priority <= PRI_MAX
    && (!Raising(v.pc) ==> v.base_priority <= v.priority)
    && (Raising(v.pc) ==> v.pc.n == v.base_priority)
    && (v.pc.Refreshing? ==> v.base_priority <= v.pc.n <= PRI_MAX)
  }

  ghost predicate PlansOk(th: Threads) {
    forall t :: t in th ==> PlanOk(th[t])
  }

  /** A priority about to be assigned covers the donor, and the donor does not wait for a lock about to be
      given up. */
  ghost predicate Fits(th: Threads, v: Thread, d: Tid) {
    && (Aim(v.pc).Some? ==> Pri(th, d) <= Aim(v.pc).value)
    && (GivingUp(v.pc).Some? && d in th ==> th[d].waiting_lock != GivingUp(v.pc))
  }

  /** What a thread has read of its donors and is about to act on still holds. */
  ghost predicate WindowsOk(th: Threads) {
    forall t, d {:trigger Fits(th, th[t], d)} :: t in th && d in th[t].donations ==> Fits(th, th[t], d)
  }

  // ----- the invariants

  ghost predicate BaseOk(k: State, running: bool) {
    RunOk(k, running) && ReadyOk(k) && WaitOk(k) && BlockOk(k) && CountOk(k) && LockOk(k)
  }

  ghost predicate SoundFrom(k: State, running: bool, from: int) {
    BaseOk(k, running) && SleepFrom(k, from) && PlansOk(k.th)
  }

  /** Holds in every reachable state; with `running` false, in the middle of a thread switch. It speaks of
      lists, semaphores, locks, sleepers and base priorities, but not of donors. */
  ghost predicate Sound(k: State, running: bool) {
    SoundFrom(k, running, k.ticks + 1)
  }

  /** Every thread covers its donors, and these wait for it; threads about to act on what they have read of
      their donors have read nothing that has changed since. */
  ghost predicate DonorsSafe(k: State) {
    DonateOk(k, None) && WindowsOk(k.th)
  }

  /** Holds in every state reached without a donation to a thread that acts on what it read before. */
  ghost predicate Inv(k: State, running: bool) {
    Sound(k, running) && DonorsSafe(k)
  }
}
