module KernelSwitch {
  // Steps that hand over the processor: choosing the next thread, yielding, blocking, waking.

  import opened KernelLists
  import opened KernelState
  import opened KernelKeep

  // ----- next_thread_to_run and schedule

  /** The highest non-empty queue up to `p`, or -1. */
  ghost function TopQueue(ready: seq<seq<Tid>>, p: int): int
    requires p < |ready|
    decreases p + 1
  {
    if p < 0 then -1 else if ready[p] != [] then p else TopQueue(ready, p - 1)
  }

  lemma {:induction false} TopQueueIsTop(ready: seq<seq<Tid>>, p: int)
    requires p < |ready|
    ensures -1 <= TopQueue(ready, p) <= Max(p, -1)
    ensures TopQueue(ready, p) >= 0 ==> ready[TopQueue(ready, p)] != []
    ensures forall q :: 0 <= q <= p && q > TopQueue(ready, p) ==> ready[q] == []
    decreases p + 1
  {
    if p >= 0 && ready[p] == [] { TopQueueIsTop(ready, p - 1); }
  }

  ghost function NextThread(k: State): Tid
    requires |k.ready| == PRI_MAX + 1
  {
    var p := TopQueue(k.ready, PRI_MAX);
    TopQueueIsTop(k.ready, PRI_MAX);
    if p < 0 then k.idle else k.ready[p][0]
  }

  /** The chosen thread runs at the highest priority of all ready threads; among those of its priority it
      has been ready longest; and the idle thread is chosen only when nothing else is ready. */
  lemma NextIsHighest(k: State, running: bool, t: Tid)
    requires BaseOk(k, running) && t in k.th && k.th[t].status.Ready? && t != k.idle
    ensures NextThread(k) != k.idle && NextThread(k) in k.th && k.th[NextThread(k)].status.Ready?
    ensures k.th[t].priority <= k.th[NextThread(k)].priority
    ensures k.th[t].priority == k.th[NextThread(k)].priority ==>
              t in k.ready[k.th[t].priority] && NextThread(k) == k.ready[k.th[t].priority][0]
  {
    var p, q := k.th[t].priority, TopQueue(k.ready, PRI_MAX);
    TopQueueIsTop(k.ready, PRI_MAX);
    assert QueueOk(k, p) && BelongsReady(k, t, p);
    assert t in k.ready[p];
    assert QueueOk(k, q) && k.ready[q][0] in k.ready[q];
    assert BelongsReady(k, k.ready[q][0], q);
  }

  lemma NextIsKnown(k: State)
    requires ReadyOk(k) && k.idle in k.th
    ensures NextThread(k) in k.th
    ensures NextThread(k) != k.idle ==> k.th[NextThread(k)].status.Ready?
  {
    var q := TopQueue(k.ready, PRI_MAX);
    TopQueueIsTop(k.ready, PRI_MAX);
    if q >= 0 {
      assert QueueOk(k, q) && k.ready[q][0] in k.ready[q];
      assert BelongsReady(k, k.ready[q][0], q);
    }
  }

  /** The state after `schedule`. */
  ghost function Dispatched(k: State): State
    requires ReadyOk(k) && k.idle in k.th
  {
    NextIsKnown(k);
    TopQueueIsTop(k.ready, PRI_MAX);
    var p, next := TopQueue(k.ready, PRI_MAX), NextThread(k);
    k.(ready := if p < 0 then k.ready else k.ready[p := k.ready[p][1..]],
       th := k.th[next := k.th[next].(status := Running)],
       current := next, thread_ticks := 0)
  }

  lemma DispatchReady(k: State)
    requires ReadyOk(k) && k.idle in k.th
    ensures ReadyOk(Dispatched(k))
  {
    var k' := Dispatched(k);
    var top, next := TopQueue(k.ready, PRI_MAX), NextThread(k);
    TopQueueIsTop(k.ready, PRI_MAX);
    NextIsKnown(k);
    if top >= 0 {
      assert QueueOk(k, top) && k.ready[top][0] in k.ready[top];
      assert BelongsReady(k, next, top);
    }
    forall p | 0 <= p <= PRI_MAX ensures QueueOk(k', p) {
      assert QueueOk(k, p);
      if p == top { TailMembers(k.ready[p]); }
      assert forall t :: BelongsReady(k', t, p) <==> BelongsReady(k, t, p) && t != next;
    }
  }

  lemma DispatchShape(k: State)
    requires ReadyOk(k) && k.idle in k.th
    ensures var k' := Dispatched(k);
            && k'.current in k.th && OneThread(k, k', k'.current)
            && (k'.current != k.idle ==> k.th[k'.current].status.Ready?)
            && k'.th[k'.current] == k.th[k'.current].(status := Running)
  {
    NextIsKnown(k);
  }

  /** Every thread switch keeps the invariant, whoever is chosen. */
  lemma DispatchKeeps(k: State, from: int)
    requires SoundFrom(k, false, from)
    ensures ReadyOk(k) && k.idle in k.th && SoundFrom(Dispatched(k), true, from) && Dispatched(k).ticks == k.ticks
    ensures (DonateOk(k, None) ==> DonateOk(Dispatched(k), None)) && (WindowsOk(Dispatched(k).th) <==> WindowsOk(k.th))
  {
    hide WindowsOk, PlansOk, Dispatched;
    hide ReadyOk, WaitOk, CountOk, LockOk, SleepFrom, DonateBut;
    DispatchPlans(k);
    DispatchSound(k, from);
    if DonateOk(k, None) { DispatchDonates(k); }
  }

  lemma DispatchSound(k: State, from: int)
    requires BaseOk(k, false) && SleepFrom(k, from)
    ensures BaseOk(Dispatched(k), true) && SleepFrom(Dispatched(k), from) && Dispatched(k).ticks == k.ticks
  {
    hide ReadyOk, WaitOk, CountOk, LockOk, SleepFrom, TopQueue, NextThread;
    var k' := Dispatched(k);
    DispatchShape(k);
    DispatchReady(k);
    WaitKeep(k, k', k'.current);
    SleepKeep(k, k', k'.current, from);
    BlockKeep(k, k', k'.current);
    CountKeep(k, k', k'.current);
    LockKeep(k, k', k'.current);
  }

  lemma DispatchDonates(k: State)
    requires BlockOk(k) && ReadyOk(k) && DonateOk(k, None)
    ensures DonateOk(Dispatched(k), None)
  {
    hide ReadyOk, DonateBut, TopQueue, NextThread;
    DispatchShape(k);
    IdleWaitsForNothing(k, None);
    DonateKeep(k, Dispatched(k), Dispatched(k).current, None, None);
  }

  lemma DispatchPlans(k: State)
    requires ReadyOk(k) && k.idle in k.th
    ensures PlansAgree(k.th, Dispatched(k).th)
  {
    hide ReadyOk, PlansAgree, TopQueue, NextThread;
    DispatchShape(k);
    PlansTransfer(k.th, Dispatched(k).th);
  }

  lemma IdleWaitsForNothing(k: State, pending: Option<Tid>)
    requires BlockOk(k) && DonateOk(k, pending) && pending != Some(k.idle)
    ensures k.th[k.idle].waiting_lock == None
  {
    assert WaitingLockOk(k, k.idle, pending);
  }

  // ----- thread_yield and the ways to give up the processor

  ghost predicate QueuesExist(k: State) {
    k.current in k.th && k.idle in k.th && |k.ready| == PRI_MAX + 1
    && forall t :: t in k.th ==> PRI_MIN <= k.th[t].priority <= PRI_MAX
  }

  lemma QueuesDoExist(k: State, running: bool)
    requires RunOk(k, running) && ReadyOk(k)
    ensures QueuesExist(k)
  {
  }

  /** The state in `thread_yield` just before `schedule`. */
  ghost function Parked(k: State): State
    requires QueuesExist(k)
  {
    var p := k.th[k.current].priority;
    k.(ready := if k.current == k.idle then k.ready else k.ready[p := k.ready[p] + [k.current]],
       th := k.th[k.current := k.th[k.current].(status := Ready)])
  }

  lemma ParkKeeps(k: State, from: int)
    requires SoundFrom(k, true, from)
    ensures QueuesExist(k) && SoundFrom(Parked(k), false, from)
    ensures (DonateOk(k, None) ==> DonateOk(Parked(k), None)) && (WindowsOk(Parked(k).th) <==> WindowsOk(k.th))
  {
    hide WaitOk, CountOk, LockOk, SleepFrom, DonateBut, WindowsOk, PlansOk;
    ParkPlans(k);
    hide ReadyOk;
    var k', t := Parked(k), k.current;
    ParkReady(k);
    WaitKeep(k, k', t);
    SleepKeep(k, k', t, from);
    BlockKeep(k, k', t);
    CountKeep(k, k', t);
    LockKeep(k, k', t);
    if DonateOk(k, None) { DonateKeep(k, k', t, None, None); }
  }

  lemma ParkReady(k: State)
    requires RunOk(k, true) && ReadyOk(k)
    ensures QueuesExist(k) && ReadyOk(Parked(k))
  {
    QueuesDoExist(k, true);
    hide ReadyOk;
    if k.current == k.idle { ReadyKeep(k, Parked(k), k.current); } else { ReadyJoins(k, Parked(k), k.current); }
  }

  lemma ParkPlans(k: State)
    requires RunOk(k, true) && ReadyOk(k)
    ensures QueuesExist(k) && PlansAgree(k.th, Parked(k).th)
  {
    QueuesDoExist(k, true);
    hide ReadyOk, PlansAgree;
    PlansTransfer(k.th, Parked(k).th);
  }

  /** The state after `thread_yield`. */
  ghost function Yielded(k: State): State
    requires Sound(k, true)
  {
    ParkKeeps(k, k.ticks + 1);
    Dispatched(Parked(k))
  }

  lemma YieldKeeps(k: State)
    requires Sound(k, true)
    ensures Sound(Yielded(k), true) && DonorsCarry(k, None, Yielded(k))
  {
    hide BaseOk, SleepFrom, DonateBut, WindowsOk, PlansOk;
    ParkKeeps(k, k.ticks + 1);
    DispatchKeeps(Parked(k), k.ticks + 1);
    hide Dispatched;
  }

  /** The idle thread calls `thread_block`; or a thread exits that holds no lock. */
  ghost function Stopped(k: State, status: Status): State
    requires k.current in k.th
  {
    k.(th := k.th[k.current := k.th[k.current].(status := status)])
  }

  lemma StopKeeps(k: State, status: Status, from: int)
    requires SoundFrom(k, true, from) && k.th[k.current].pc.Normal?
    requires status == (if k.current == k.idle then Blocked else Dying)
    ensures SoundFrom(Stopped(k, status), false, from)
    ensures (DonateOk(k, None) ==> DonateOk(Stopped(k, status), None)) && (WindowsOk(Stopped(k, status).th) <==> WindowsOk(k.th))
  {
    hide WaitOk, CountOk, LockOk, SleepFrom, DonateBut, WindowsOk, PlansOk;
    StopPlans(k, status);
    QueuesDoExist(k, true);
    hide ReadyOk;
    var k', t := Stopped(k, status), k.current;
    ReadyKeep(k, k', t);
    WaitKeep(k, k', t);
    SleepKeep(k, k', t, from);
    BlockKeep(k, k', t);
    CountKeep(k, k', t);
    LockKeep(k, k', t);
    if DonateOk(k, None) { StopDonates(k, status); }
  }

  lemma StopDonates(k: State, status: Status)
    requires DonateOk(k, None) && k.current in k.th && k.th[k.current].pc.Normal?
    ensures DonateOk(Stopped(k, status), None)
  {
    assert WaitingLockOk(k, k.current, None);
    hide DonateBut;
    DonateKeep(k, Stopped(k, status), k.current, None, None);
  }

  lemma StopPlans(k: State, status: Status)
    requires k.current in k.th
    ensures PlansAgree(k.th, Stopped(k, status).th)
  {
    PlansTransfer(k.th, Stopped(k, status).th);
  }

  // ----- thread_unblock

  ghost function Unblocked(k: State, t: Tid): State
    requires QueuesExist(k) && t in k.th
  {
    var p := k.th[t].priority;
    k.(ready := k.ready[p := k.ready[p] + [t]], th := k.th[t := k.th[t].(status := Ready)])
  }
}
