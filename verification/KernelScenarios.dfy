/** Runs from start-up, built step by step: what a few common stretches of code do to a state that is not
    known in full. */
module KernelScenarios {
  import opened KernelLists
  import opened KernelState
  import opened KernelKeep
  import opened KernelSwitch
  import opened KernelSync
  import opened KernelDonate
  import opened KernelRelease
  import opened KernelAcquire
  import opened KernelTimer
  import opened KernelSteps
  import opened KernelRuns

  // ----- runs that grow at the end

  /** The events lead from `k0` to `k`. */
  ghost predicate Leads(k0: State, es: seq<Event>, k: State) {
    Sound(k0, true) && Possible(k0, es) && Run(k0, es) == k
  }

  /** From `k`, event `e` is possible and leads to `k'`. */
  ghost predicate CanStep(k: State, e: Event, k': State) {
    Sound(k, true) && Enabled(k, e) && Apply(k, e) == k'
  }

  lemma {:induction false} OneMore(k0: State, es: seq<Event>, k: State, e: Event, k': State)
    requires Leads(k0, es, k) && CanStep(k, e, k')
    ensures Leads(k0, es + [e], k')
    decreases |es|
  {
    hide Apply, Sound, Enabled;
    if es == [] {
      assert [e][1..] == [] && es + [e] == [e];
      assert Possible(k', []) && Run(k', []) == k';
      assert Possible(k0, [e]);
    } else {
      var k1 := Apply(k0, es[0]);
      OneMore(k1, es[1..], k, e, k');
      assert (es + [e])[1..] == es[1..] + [e];
    }
  }

  lemma LeadsSafely(k0: State, es: seq<Event>, k: State)
    requires Leads(k0, es, k)
    ensures Sound(k, true) && k.current in k.th
  {
    hide Run, Possible;
  }

  // ----- stretches of code

  /** The running thread is not in the middle of a call. */
  ghost predicate BetweenCalls(k: State) {
    AtCall(k) && k.current != k.idle && k.th[k.current].waiting_lock == None
  }

  ghost function Holding(k: State, l: Lock): State {
    var c := Some(k.current);
    k.(value := k.value[OfLock(l) := 0], owner := k.owner[l := c], holder := k.holder[l := c])
  }

  lemma TakesFree(k: State, l: Lock)
    requires Sound(k, true) && BetweenCalls(k) && l in k.holder && k.holder[l] == None && OfLock(l) in k.waiters && OfLock(l) in k.value && k.value[OfLock(l)] == 1
    ensures CanStep(k, Acquire(l), Took(k, OfLock(l)))
  {
    hide SoundFrom, DonorsSafe;
  }

  /** `lock_acquire` of a free lock. */
  lemma AcquireFree(k0: State, es: seq<Event>, k: State, l: Lock)
    requires Leads(k0, es, k) && BetweenCalls(k) && l in k.holder && k.holder[l] == None
    requires OfLock(l) in k.waiters && OfLock(l) in k.value && k.value[OfLock(l)] == 1
    ensures Leads(k0, es + [Acquire(l)] + [Finish], Holding(k, l))
  {
    hide Leads, CanStep, Sound, Took, Got, Holding;
    LeadsSafely(k0, es, k);
    TakesFree(k, l);
    TookThenGot(k, l);
    var k1 := Took(k, OfLock(l));
    OneMore(k0, es, k, Acquire(l), k1);
    LeadsSafely(k0, es + [Acquire(l)], k1);
    FinishStep(k1, l);
    OneMore(k0, es + [Acquire(l)], k1, Finish, Got(k1, l));
  }

  lemma TookThenGot(k: State, l: Lock)
    requires BetweenCalls(k) && OfLock(l) in k.value && k.value[OfLock(l)] == 1
    ensures var k1 := Took(k, OfLock(l));
            && k1.current in k1.th && k1.th[k1.current].pc == GotLock(l) && k1.th[k1.current].waiting_lock == None
            && Got(k1, l) == Holding(k, l)
  {
    assert Got(Took(k, OfLock(l)), l).th == k.th;
  }

  lemma FinishStep(k: State, l: Lock)
    requires Sound(k, true) && k.th[k.current].pc == GotLock(l) && k.th[k.current].waiting_lock == None
    ensures CanStep(k, Finish, Got(k, l))
  {
    hide SoundFrom, DonorsSafe;
  }

  ghost function WithPriority(k: State, n: int): State
    requires k.current in k.th
  {
    OwnStep(k, k.th[k.current].(base_priority := n, priority := n))
  }

  /** `thread_set_priority` that assigns the new priority. */
  lemma SetPriorityRun(k0: State, es: seq<Event>, k: State, n: int)
    requires Leads(k0, es, k) && AtCall(k) && PRI_MIN <= n <= PRI_MAX
    requires k.th[k.current].donations == [] || n > k.th[k.current].priority
    ensures Leads(k0, es + [SetBase(n)] + [Decide] + [Assign], WithPriority(k, n))
  {
    hide Leads, Sound, CanStep, WithPriority, Assigned;
    SetPriorityStarts(k0, es, k, n);
    AssignIsNext(k, n);
    AssignNext(k0, es + [SetBase(n)] + [Decide], Decided(BaseWritten(k, n)));
  }

  lemma AssignIsNext(k: State, n: int)
    requires AtCall(k) && (k.th[k.current].donations == [] || n > k.th[k.current].priority)
    ensures var k2 := Decided(BaseWritten(k, n));
            && k2.current in k2.th && Aim(k2.th[k2.current].pc) == Some(n) && Assigned(k2) == WithPriority(k, n)
  {
  }

  lemma AssignStep(k: State)
    requires Sound(k, true) && Aim(k.th[k.current].pc).Some?
    ensures CanStep(k, Assign, Assigned(k))
  {
    hide SoundFrom, DonorsSafe;
  }

  lemma SetPriorityStarts(k0: State, es: seq<Event>, k: State, n: int)
    requires Leads(k0, es, k) && AtCall(k) && PRI_MIN <= n <= PRI_MAX
    ensures Leads(k0, es + [SetBase(n)] + [Decide], Decided(BaseWritten(k, n)))
  {
    hide Leads, SoundFrom, DonorsSafe;
    LeadsSafely(k0, es, k);
    var k1 := BaseWritten(k, n);
    assert CanStep(k, SetBase(n), k1);
    OneMore(k0, es, k, SetBase(n), k1);
    LeadsSafely(k0, es + [SetBase(n)], k1);
    assert CanStep(k1, Decide, Decided(k1));
    OneMore(k0, es + [SetBase(n)], k1, Decide, Decided(k1));
  }

  ghost predicate IsAt(k: State, pc: Pc) {
    k.current in k.th && k.th[k.current].pc == pc
  }

  /** The state in `lock_release` just before its holder is cleared. */
  ghost function PriorityBack(k: State, l: Lock): State
    requires k.current in k.th
  {
    Assigned(PriorityComputed(k, l))
  }

  ghost function PriorityComputed(k: State, l: Lock): State
    requires k.current in k.th
    ensures IsAt(PriorityComputed(k, l), Refreshing(l, Aim(PriorityComputed(k, l).th[k.current].pc).value))
  {
    hide OtherDonors, SortedByPriority, Refreshed;
    Computed(DonorsDropped(k, l))
  }

  /** `lock_release` up to that point, uninterrupted. */
  lemma ReleaseBegins(k0: State, es: seq<Event>, k: State, l: Lock)
    requires Leads(k0, es, k) && AtCall(k) && k.current != k.idle && HoldsStill(k, k.current, l)
    ensures Leads(k0, es + [Drop(l)] + [Compute] + [Assign], PriorityBack(k, l))
    ensures IsAt(PriorityBack(k, l), Letting(l))
  {
    hide Leads, PriorityComputed, Assigned;
    ReleaseStarts(k0, es, k, l);
    AssignNext(k0, es + [Drop(l)] + [Compute], PriorityComputed(k, l));
  }

  lemma AssignNext(k0: State, es: seq<Event>, k: State)
    requires Leads(k0, es, k) && k.current in k.th && Aim(k.th[k.current].pc).Some?
    ensures Leads(k0, es + [Assign], Assigned(k))
    ensures k.th[k.current].pc.Refreshing? ==> IsAt(Assigned(k), Letting(k.th[k.current].pc.lock))
  {
    hide Leads, Sound, CanStep;
    LeadsSafely(k0, es, k);
    AssignStep(k);
    OneMore(k0, es, k, Assign, Assigned(k));
  }

  /** `lock_release` up to its `sema_up`, uninterrupted. */
  lemma ReleaseRun(k0: State, es: seq<Event>, k: State, l: Lock)
    requires Leads(k0, es, k) && AtCall(k) && k.current != k.idle && HoldsStill(k, k.current, l)
    ensures Leads(k0, es + [Drop(l)] + [Compute] + [Assign] + [LetGo], Released(k, l))
  {
    ReleaseBegins(k0, es, k, l);
    assert Released(k, l) == HolderCleared(PriorityBack(k, l));
    hide Leads, Sound, CanStep, PriorityBack, Released;
    var es3, k3 := es + [Drop(l)] + [Compute] + [Assign], PriorityBack(k, l);
    LeadsSafely(k0, es3, k3);
    LetGoStep(k3);
    OneMore(k0, es3, k3, LetGo, HolderCleared(k3));
  }

  lemma ReleaseStarts(k0: State, es: seq<Event>, k: State, l: Lock)
    requires Leads(k0, es, k) && AtCall(k) && k.current != k.idle && HoldsStill(k, k.current, l)
    ensures Leads(k0, es + [Drop(l)] + [Compute], PriorityComputed(k, l))
  {
    hide Leads, SoundFrom, DonorsSafe, OtherDonors, SortedByPriority, Refreshed;
    LeadsSafely(k0, es, k);
    var k1 := DonorsDropped(k, l);
    assert CanStep(k, Drop(l), k1);
    OneMore(k0, es, k, Drop(l), k1);
    LeadsSafely(k0, es + [Drop(l)], k1);
    assert CanStep(k1, Compute, Computed(k1));
    OneMore(k0, es + [Drop(l)], k1, Compute, Computed(k1));
  }

  lemma LetGoStep(k: State)
    requires Sound(k, true) && k.th[k.current].pc.Letting?
    ensures CanStep(k, LetGo, HolderCleared(k))
  {
    hide SoundFrom, DonorsSafe;
  }

  /** The `sema_up` that ends `lock_release`, up to its yield. */
  lemma FinishReleaseStep(k: State, l: Lock)
    requires Sound(k, true) && k.th[k.current].pc == Releasing(l)
    ensures MayUp(k, OfLock(l)) && CanStep(k, FinishRelease, LockUpped(k, l))
  {
    hide SoundFrom, DonorsSafe, LockUpped, MayUp;
    LockUpKeeps(k, l, k.ticks + 1);
    assert Enabled(k, FinishRelease) && Apply(k, FinishRelease) == LockUppedSafely(k, l);
  }

  // ----- switches

  /** `p` is the highest queue with a thread on it. */
  ghost predicate IsTop(ready: seq<seq<Tid>>, p: int) {
    && |ready| == PRI_MAX + 1 && 0 <= p <= PRI_MAX && ready[p] != []
    && forall q :: p < q <= PRI_MAX ==> ready[q] == []
  }

  ghost function Switched(k: State, p: int): State
    requires IsTop(k.ready, p) && k.ready[p][0] in k.th
  {
    var next := k.ready[p][0];
    k.(ready := k.ready[p := k.ready[p][1..]], th := k.th[next := k.th[next].(status := Running)],
       current := next, thread_ticks := 0)
  }

  lemma SwitchTo(k: State, p: int)
    requires ReadyOk(k) && k.idle in k.th && IsTop(k.ready, p)
    ensures k.ready[p][0] in k.th && Dispatched(k) == Switched(k, p)
  {
    NextIsKnown(k);
    hide ReadyOk;
    TopQueueIsTop(k.ready, PRI_MAX);
    assert TopQueue(k.ready, PRI_MAX) == p;
  }

  /** A yield, of a thread other than the idle one. */
  lemma YieldTo(k: State, p: int)
    requires Sound(k, true) && k.current != k.idle && QueuesExist(k) && IsTop(Parked(k).ready, p)
    ensures Parked(k).ready[p][0] in Parked(k).th && YieldIf(k, true) == Switched(Parked(k), p)
  {
    ParkKeeps(k, k.ticks + 1);
    ReadyAfterPark(k);
    hide SoundFrom, DonorsSafe, Parked, ReadyOk;
    SwitchTo(Parked(k), p);
  }

  lemma ReadyAfterPark(k: State)
    requires Sound(k, true)
    ensures QueuesExist(k) && ReadyOk(Parked(k)) && Parked(k).idle in Parked(k).th
  {
    ParkKeeps(k, k.ticks + 1);
    hide WaitOk, CountOk, LockOk, SleepFrom, PlansOk, DonateBut, WindowsOk, Parked;
  }

  /** A tick at which nobody wakes up. */
  lemma QuietTick(k: State)
    requires Sound(k, true) && k.sleepers == []
    ensures Ticked(k) == k.(ticks := k.ticks + 1, thread_ticks := k.thread_ticks + 1, yield_on_return := k.thread_ticks + 1 >= TIME_SLICE)
  {
    TickStarts(k);
    hide SoundFrom, DonorsSafe;
  }

  /** A tick that ends the time slice of the running thread. */
  lemma SliceEnds(k: State, p: int)
    requires Sound(k, true) && k.current != k.idle && k.sleepers == [] && k.thread_ticks + 1 >= TIME_SLICE
    requires QueuesExist(k) && IsTop(Parked(k).ready, p)
    ensures Parked(k).ready[p][0] in k.th
    ensures CanStep(k, Tick, Switched(Parked(k), p).(ticks := k.ticks + 1, yield_on_return := true))
  {
    QuietTick(k);
    hide SoundFrom, DonorsSafe;
    TickKeeps(k);
    YieldTo(Ticked(k), p);
    hide Ticked, YieldIf;
  }

  // ----- waiting for a lock whose holder waits for nothing

  /** The state when the running thread has registered with the holder, raised it, and blocked. */
  ghost function Waiting(k: State, l: Lock): State
    requires QueuesExist(k) && l in k.holder && k.holder[l].Some? && k.holder[l].value in k.th && OfLock(l) in k.waiters
  {
    BlockedOn(RaisedOne(Donating(k, l), k.holder[l].value, k.th[k.current].priority), OfLock(l))
  }

  ghost predicate Meets(k: State, l: Lock, h: Tid) {
    && BetweenCalls(k) && l in k.holder && k.holder[l] == Some(h) && h != k.current && h in k.th && h != k.idle
    && OfLock(l) in k.waiters && OfLock(l) in k.value && k.th[h].waiting_lock == None
  }

  lemma OneLink(k: State, l: Lock, h: Tid)
    requires QueuesExist(k) && Meets(k, l, h)
    ensures CanDonate(k, l) && Chain(Donating(k, l), l, WalkLength(k, l)) == [h]
    ensures Donated(k, l) == RaisedOne(Donating(k, l), h, k.th[k.current].priority)
  {
    assert ChainEnds(Donating(k, l), l, 0);
  }

  /** The acquisition of a held lock whose holder waits for nothing. */
  lemma WaitsForHolder(k: State, l: Lock, h: Tid, p: int)
    requires Sound(k, true) && QueuesExist(k) && Meets(k, l, h) && IsTop(Waiting(k, l).ready, p)
    ensures Enabled(k, Acquire(l)) && Waiting(k, l).ready[p][0] in Waiting(k, l).th
    ensures Apply(k, Acquire(l)) == Switched(Waiting(k, l), p)
  {
    hide Sound, SoundFrom, DonorsSafe, CanDonate, Donated, BlockedOn, RaisedOne, Switched, Dispatched, IsTop;
    OneLink(k, l, h);
    AcquireSwitches(k, l);
    SwitchTo(BlockedOn(Donated(k, l), OfLock(l)), p);
  }

  lemma AcquireSwitches(k: State, l: Lock)
    requires Sound(k, true) && MayAcquire(k, l) && k.holder[l] != None
    ensures QueuesExist(k) && OfLock(l) in Donated(k, l).waiters && Donated(k, l).current in Donated(k, l).th
    ensures var k2 := BlockedOn(Donated(k, l), OfLock(l));
            ReadyOk(k2) && k2.idle in k2.th && AfterAcquire(k, l) == Dispatched(k2)
  {
    HeldReachesDown(k, l);
    hide Sound, DonorsSafe, DonateBut, CanDonate, Donated, Disturbs, BlockedOn;
    ReadyWhenBlocked(Donated(k, l), OfLock(l));
    hide Dispatched;
  }

  lemma ReadyWhenBlocked(k: State, s: Sema)
    requires Sound(k, true) && MayDown(k, s) && k.value[s] == 0
    ensures ReadyOk(BlockedOn(k, s)) && k.idle in BlockedOn(k, s).th && BlockedOn(k, s).idle == k.idle
  {
    BlockOnKeeps(k, s, None, k.ticks + 1);
    hide WaitOk, CountOk, LockOk, SleepFrom, PlansOk, DonateBut, WindowsOk;
  }

  /** It disturbs the holder if and only if that is about to give this lock up or to assign itself a lower
      priority. */
  lemma DisturbsHolder(k: State, l: Lock, h: Tid)
    requires Inv(k, true) && QueuesExist(k) && Meets(k, l, h)
    ensures MayAcquire(k, l)
    ensures Disturbs(k, l) <==> GivingUp(k.th[h].pc) == Some(l) ||
                                (Aim(k.th[h].pc).Some? && Aim(k.th[h].pc).value < k.th[k.current].priority)
  {
    OneLink(k, l, h);
    NoDonorOf(k, h);
    hide Sound, CanDonate, Chain, WalkLength;
    var k1 := Donating(k, l);
    assert k.current in k1.th[h].donations && k1.th[h].pc == k.th[h].pc;
    assert Outdates(k, l, h, k.current) <==> Aim(k.th[h].pc).Some? && Aim(k.th[h].pc).value < k.th[k.current].priority;
    assert forall t, d :: Outdates(k, l, t, d) ==> t == h && d == k.current;
  }

  /** A thread that waits for no lock is on nobody's donations, nor is the running thread. */
  lemma NoDonorOf(k: State, h: Tid)
    requires RunOk(k, true) && DonateOk(k, None) && h in k.th && k.th[h].waiting_lock == None
    ensures forall t :: t in k.th ==> h !in k.th[t].donations && k.current !in k.th[t].donations
  {
    RunningDonatesNothing(k);
    forall t | t in k.th ensures h !in k.th[t].donations {
      assert DonorsOk(k, t, None, Ceiling(k, t, None, 0));
      assert h in k.th[t].donations ==> Registered(k, h, t, None);
    }
  }
}
