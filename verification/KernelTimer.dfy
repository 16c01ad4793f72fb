module KernelTimer {
  // The steps of the timer: `timer_sleep` and `timer_interrupt`.

  import opened KernelLists
  import opened KernelState
  import opened KernelKeep
  import opened KernelSwitch

  // ----- timer_sleep

  ghost function Asleep(k: State, n: int): State
    requires k.current in k.th
  {
    var v := k.th[k.current].(status := Blocked, pc := Sleeping, wakeup_tick := k.ticks + n);
    k.(sleepers := InsertByTick(k.th, k.sleepers, k.current, k.ticks + n), th := k.th[k.current := v])
  }

  lemma SleepKeepsAll(k: State, n: int)
    requires Sound(k, true) && n > 0 && k.current != k.idle && k.th[k.current].pc.Normal?
    ensures SoundFrom(Asleep(k, n), false, k.ticks + 1)
    ensures (DonateOk(k, None) ==> DonateOk(Asleep(k, n), None)) && (WindowsOk(Asleep(k, n).th) <==> WindowsOk(k.th))
  {
    hide WindowsOk, PlansOk;
    SleepPlans(k, n);
    var k', t := Asleep(k, n), k.current;
    hide WaitOk, CountOk, LockOk, DonateBut, SleepFrom;
    QueuesDoExist(k, true);
    hide ReadyOk;
    ReadyKeep(k, k', t);
    WaitKeep(k, k', t);
    SleepJoins(k, k', t, k.ticks + 1);
    BlockKeep(k, k', t);
    CountKeep(k, k', t);
    LockKeep(k, k', t);
    if DonateOk(k, None) { SleepDonates(k, n); }
  }

  lemma SleepDonates(k: State, n: int)
    requires DonateOk(k, None) && k.current in k.th && k.th[k.current].pc.Normal?
    ensures DonateOk(Asleep(k, n), None)
  {
    assert WaitingLockOk(k, k.current, None);
    hide DonateBut;
    DonateKeep(k, Asleep(k, n), k.current, None, None);
  }

  lemma SleepPlans(k: State, n: int)
    requires k.current in k.th && k.th[k.current].pc.Normal?
    ensures PlansAgree(k.th, Asleep(k, n).th)
  {
    PlansTransfer(k.th, Asleep(k, n).th);
  }

  // ----- timer_interrupt

  /** The first sleeper leaves the sleep list and gets ready. */
  ghost function WokeSleeper(k: State): State
    requires QueuesExist(k) && k.sleepers != [] && k.sleepers[0] in k.th
  {
    var t := k.sleepers[0];
    var k1 := k.(sleepers := k.sleepers[1..], th := k.th[t := k.th[t].(pc := Normal)],
                 yield_on_return := k.yield_on_return || Pri(k.th, t) > Pri(k.th, k.current));
    Unblocked(k1, t)
  }

  lemma WakeSleeperKeeps(k: State, from: int)
    requires BaseOk(k, true) && SleepFrom(k, from) && k.sleepers != []
    ensures QueuesExist(k) && k.sleepers[0] in k.th && BaseOk(WokeSleeper(k), true) && SleepFrom(WokeSleeper(k), from)
    ensures DonateOk(k, None) ==> DonateOk(WokeSleeper(k), None)
  {
    assert k.sleepers[0] in k.sleepers && BelongsSleeping(k, k.sleepers[0]);
    hide WaitOk, CountOk, LockOk, SleepFrom, DonateBut;
    QueuesDoExist(k, true);
    hide ReadyOk;
    var k', t := WokeSleeper(k), k.sleepers[0];
    if DonateOk(k, None) { SleeperDonatesNothing(k, k', t); }
    RunKeep(k, k', true, t);
    ReadyJoins(k, k', t);
    WaitKeep(k, k', t);
    SleepLeaves(k, k', from);
    BlockKeep(k, k', t);
    CountKeep(k, k', t);
    LockKeep(k, k', t);
  }

  lemma SleeperDonatesNothing(k: State, k': State, t: Tid)
    requires OneThread(k, k', t) && DonateOk(k, None) && k.th[t].pc.Sleeping? && k'.holder == k.holder
    requires k'.th[t] == k.th[t].(status := Ready, pc := Normal)
    ensures DonateOk(k', None)
  {
    forall u | u in k'.th ensures DonorsOk(k', u, None, Ceiling(k', u, None, 0)) && WaitingLockOk(k', u, None) {
      assert WaitingLockOk(k, u, None);
      assert DonorsOk(k, u, None, Ceiling(k, u, None, 0));
      forall d | d in k'.th[u].donations ensures Registered(k', d, u, None) && Pri(k'.th, d) <= Ceiling(k', u, None, 0) {
        assert Registered(k, d, u, None) && Pri(k.th, d) <= Ceiling(k, u, None, 0);
      }
    }
  }

  ghost predicate HeadIsDue(k: State) {
    k.sleepers != [] && WakeupTick(k.th, k.sleepers[0]) <= k.ticks
  }

  /** The state after the loop of the handler. */
  ghost function AllWoken(k: State): State
    requires BaseOk(k, true) && SleepFrom(k, k.ticks)
    decreases |k.sleepers|
  {
    if HeadIsDue(k) then
      WakeSleeperKeeps(k, k.ticks);
      AllWoken(WokeSleeper(k))
    else k
  }

  lemma WokeSleeperShape(k: State)
    requires BaseOk(k, true) && SleepFrom(k, k.ticks) && HeadIsDue(k) && QueuesExist(k) && k.sleepers[0] in k.th
    ensures var k1 := WokeSleeper(k);
            && k1.ticks == k.ticks && k1.current == k.current && k1.th.Keys == k.th.Keys && k1.value == k.value
            && (forall t :: t in k1.sleepers <==> t in k.sleepers && t != k.sleepers[0])
            && (forall t :: t in k.th ==> k1.th[t] == if t == k.sleepers[0] then k.th[t].(status := Ready, pc := Normal) else k.th[t])
    ensures WakeupTick(k.th, k.sleepers[0]) == k.ticks && k.sleepers[0] in k.sleepers
  {
    TailMembers(k.sleepers);
    assert k.sleepers[0] in k.sleepers;
    hide BaseOk, DonateBut;
  }

  ghost predicate IsDue(k: State, t: Tid) {
    t in k.sleepers && WakeupTick(k.th, t) == k.ticks
  }

  /** The loop keeps the invariant and wakes exactly the sleepers whose tick is now. */
  lemma {:induction false} WakingIsExact(k: State)
    requires BaseOk(k, true) && SleepFrom(k, k.ticks)
    ensures var k' := AllWoken(k);
            && BaseOk(k', true) && SleepFrom(k', k.ticks + 1) && (DonateOk(k, None) ==> DonateOk(k', None))
            && k'.ticks == k.ticks && k'.current == k.current && k'.th.Keys == k.th.Keys && k'.value == k.value
            && (forall t :: t in k'.sleepers <==> t in k.sleepers && !IsDue(k, t))
            && (forall t :: t in k.th ==> k'.th[t] == if IsDue(k, t) then k.th[t].(status := Ready, pc := Normal) else k.th[t])
    decreases |k.sleepers|
  {
    hide BaseOk, DonateBut, SleepFrom;
    if HeadIsDue(k) {
      WakeSleeperKeeps(k, k.ticks);
      WokeSleeperShape(k);
      var k1, t := WokeSleeper(k), k.sleepers[0];
      assert forall u :: u != t ==> (IsDue(k1, u) <==> IsDue(k, u));
      WakingIsExact(k1);
    } else {
      NothingDue(k);
    }
  }

  lemma NothingDue(k: State)
    requires SleepFrom(k, k.ticks) && !HeadIsDue(k)
    ensures SleepFrom(k, k.ticks + 1) && forall t :: t in k.sleepers ==> WakeupTick(k.th, t) != k.ticks
  {
    forall t | t in k.sleepers ensures WakeupTick(k.th, t) > k.ticks {
      var i :| 0 <= i < |k.sleepers| && k.sleepers[i] == t;
      assert WakeupTick(k.th, k.sleepers[0]) <= WakeupTick(k.th, k.sleepers[i]);
    }
  }

  /** The interrupt up to the point where it may yield: a tick, the wakeups, and `thread_tick`. */
  ghost function Ticked(k: State): State
    requires Sound(k, true)
  {
    TickStarts(k);
    var k1 := AllWoken(k.(ticks := k.ticks + 1, yield_on_return := false));
    k1.(thread_ticks := k1.thread_ticks + 1, yield_on_return := k1.yield_on_return || k1.thread_ticks + 1 >= TIME_SLICE)
  }

  lemma TickStarts(k: State)
    requires Sound(k, true)
    ensures var k1 := k.(ticks := k.ticks + 1, yield_on_return := false);
            BaseOk(k1, true) && SleepFrom(k1, k1.ticks) && (DonateOk(k, None) ==> DonateOk(k1, None))
  {
    SameState(k, k.(ticks := k.ticks + 1, yield_on_return := false), k.ticks + 1);
  }

  /** The clock and the yield request are not part of what the invariants talk about. */
  lemma SameState(k: State, k': State, from: int)
    requires BaseOk(k, true) && SleepFrom(k, from)
    requires k' == k.(ticks := k'.ticks, thread_ticks := k'.thread_ticks, yield_on_return := k'.yield_on_return)
    ensures BaseOk(k', true) && SleepFrom(k', from) && (DonateOk(k, None) ==> DonateOk(k', None))
  {
    hide WaitOk, CountOk, LockOk, SleepFrom, DonateBut;
    QueuesDoExist(k, true);
    hide ReadyOk;
    var t := k.current;
    RunKeep(k, k', true, t);
    ReadyKeep(k, k', t);
    WaitKeep(k, k', t);
    SleepKeep(k, k', t, from);
    BlockKeep(k, k', t);
    CountKeep(k, k', t);
    LockKeep(k, k', t);
    if DonateOk(k, None) { DonateKeep(k, k', t, None, None); }
  }

  lemma SleepersSleep(k: State)
    requires SleepFrom(k, k.ticks)
    ensures forall t :: t in k.sleepers ==> t in k.th && k.th[t].pc.Sleeping?
  {
    assert forall t :: t in k.sleepers ==> BelongsSleeping(k, t);
  }

  lemma WakingPlansSame(k: State)
    requires BaseOk(k, true) && SleepFrom(k, k.ticks)
    ensures PlansAgree(k.th, AllWoken(k).th)
  {
    hide BaseOk, DonateBut, AllWoken, PlansAgree;
    SleepersSleep(k);
    hide SleepFrom;
    WakingIsExact(k);
    PlansTransfer(k.th, AllWoken(k).th);
  }

  /** A timer interrupt keeps the invariants, and a thread stops sleeping at exactly its wakeup tick. */
  lemma TickKeeps(k: State)
    requires Sound(k, true)
    ensures Sound(Ticked(k), true) && Ticked(k).ticks == k.ticks + 1 && Ticked(k).value == k.value
    ensures DonorsSafe(k) ==> DonorsSafe(Ticked(k))
    ensures forall t :: t in Ticked(k).sleepers ==> WakeupTick(Ticked(k).th, t) == WakeupTick(k.th, t)
    ensures forall t :: t in Ticked(k).sleepers <==> t in k.sleepers && WakeupTick(k.th, t) != Ticked(k).ticks
  {
    hide BaseOk, SleepFrom, DonateBut, WindowsOk, PlansOk;
    TickStarts(k);
    var k0 := k.(ticks := k.ticks + 1, yield_on_return := false);
    WakingPlansSame(k0);
    WakingIsExact(k0);
    SameState(AllWoken(k0), Ticked(k), k0.ticks + 1);
  }
}
