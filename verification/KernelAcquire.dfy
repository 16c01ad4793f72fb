module KernelAcquire {
  // `lock_acquire` as a whole: when its walk goes well, and when its donation upsets a thread that has been
  // preempted inside `thread_set_priority` or `lock_release`.

  import opened KernelLists
  import opened KernelState
  import opened KernelKeep
  import opened KernelSwitch
  import opened KernelSync
  import opened KernelDonate
  import opened KernelRelease

  /** The caller does not hold the lock, and the donation walk, if there is one, goes well. */
  ghost predicate MayAcquire(k: State, l: Lock) {
    && MayDown(k, OfLock(l)) && l in k.holder && k.holder[l] != Some(k.current) && k.th[k.current].pc.Normal?
    && (k.holder[l] != None ==> CanDonate(k, l))
  }

  lemma HeldMeansZero(k: State, l: Lock)
    requires BaseOk(k, true) && l in k.holder && k.holder[l] != None
    ensures OfLock(l) in k.value && k.value[OfLock(l)] == 0
  {
    assert LockFacts(k, l);
    assert InsideLock(k, k.holder[l].value, l);
  }

  lemma DonatedMayDown(k: State, l: Lock)
    requires BaseOk(k, true) && MayAcquire(k, l) && k.holder[l] != None
    ensures QueuesExist(k)
    ensures var k1 := Donated(k, l);
            && MayDown(k1, OfLock(l)) && PendingFor(k1, OfLock(l), Some(k.current)) && k1.value == k.value && k1.ticks == k.ticks
  {
    BaseHasQueues(k, true);
    hide BaseOk;
    WalkRaises(Donating(k, l), l, k.th[k.current].priority, WalkLength(k, l));
    hide Raised, Chain, ChainEnds;
  }

  // ----- the assignments after sema_down

  /** `waiting_lock` is cleared. */
  ghost function WaitCleared(k: State): State
    requires k.current in k.th
  {
    OwnStep(k, k.th[k.current].(waiting_lock := None))
  }

  lemma WaitClearedKeeps(k: State)
    requires Sound(k, true) && k.th[k.current].pc.GotLock?
    ensures Sound(WaitCleared(k), true) && (DonorsSafe(k) ==> DonorsSafe(WaitCleared(k)))
  {
    OwnFacts(k);
    hide SoundFrom, DonorsSafe;
    OwnStepKeeps(k, k.th[k.current].(waiting_lock := None));
  }

  /** The walk reaches a lock that has no holder, whose `priority` it would then read. */
  ghost predicate MeetsNull(k: State, l: Lock, n: nat)
    decreases n
  {
    && l in k.holder
    && (k.holder[l].Some? ==>
          && k.holder[l].value in k.th && k.th[k.holder[l].value].waiting_lock.Some?
          && n > 0 && MeetsNull(k, k.th[k.holder[l].value].waiting_lock.value, n - 1))
  }

  /** No thread waits for itself through a chain of holders: ranks fall along every wait. */
  ghost predicate Acyclic(k: State, rank: map<Lock, nat>) {
    && k.holder.Keys == rank.Keys
    && forall l :: l in k.holder && k.holder[l].Some? ==>
         && k.holder[l].value in k.th
         && (k.th[k.holder[l].value].waiting_lock.Some? ==>
               var next := k.th[k.holder[l].value].waiting_lock.value;
               next in k.holder && rank[next] < rank[l])
  }

  /** On an acyclic wait-for graph the walk ends, and it ends well if and only if it meets no lock without
      a holder. */
  lemma {:induction false} WalkEndsOrMeetsNull(k: State, rank: map<Lock, nat>, l: Lock, n: nat)
    requires Acyclic(k, rank) && l in k.holder && n >= rank[l]
    ensures ChainEnds(k, l, n) <==> !MeetsNull(k, l, n)
    decreases n
  {
    if k.holder[l].Some? && k.th[k.holder[l].value].waiting_lock.Some? {
      WalkEndsOrMeetsNull(k, rank, k.th[k.holder[l].value].waiting_lock.value, n - 1);
    }
  }

  lemma {:induction false} NullOrNot(k: State, l: Lock, n: nat, m: nat)
    requires ChainEnds(k, l, n)
    ensures !MeetsNull(k, l, m)
    decreases n
  {
    if k.th[k.holder[l].value].waiting_lock.Some? && m > 0 {
      NullOrNot(k, k.th[k.holder[l].value].waiting_lock.value, n - 1, m - 1);
    }
  }

  /** Locks each of whose holders waits for the next. */
  ghost predicate WaitPath(k: State, path: seq<Lock>) {
    && path != [] && (forall i :: 0 <= i < |path| ==> path[i] in k.holder)
    && forall i, j :: 0 <= i < |path| && j == i + 1 && j < |path| ==> WaitsFor(k, path[i], path[j])
  }

  /** The holder of `a` waits for `b`. */
  ghost predicate WaitsFor(k: State, a: Lock, b: Lock) {
    a in k.holder && k.holder[a].Some? && k.holder[a].value in k.th && k.th[k.holder[a].value].waiting_lock == Some(b)
  }

  /** A path of waits from `l` to a lock without a holder. */
  ghost predicate LeadsToFree(k: State, path: seq<Lock>, l: Lock) {
    WaitPath(k, path) && path[0] == l && k.holder[path[|path| - 1]] == None
  }

  lemma {:induction false} NullHasPath(k: State, l: Lock, n: nat) returns (path: seq<Lock>)
    requires MeetsNull(k, l, n)
    ensures LeadsToFree(k, path, l)
    decreases n
  {
    path := [l];
    if k.holder[l].Some? {
      var next := k.th[k.holder[l].value].waiting_lock.value;
      var rest := NullHasPath(k, next, n - 1);
      path := [l] + rest;
      forall i, j | 0 <= i < |path| && j == i + 1 && j < |path| ensures WaitsFor(k, path[i], path[j]) {
        if i > 0 { assert path[i] == rest[i - 1] && path[j] == rest[j - 1]; }
      }
    }
  }

  lemma {:induction false} PathHasNull(k: State, path: seq<Lock>, l: Lock)
    requires LeadsToFree(k, path, l)
    ensures MeetsNull(k, l, |path| - 1)
    decreases |path|
  {
    if |path| > 1 {
      var rest := path[1..];
      assert WaitsFor(k, path[0], path[1]);
      forall i, j | 0 <= i < |rest| && j == i + 1 && j < |rest| ensures WaitsFor(k, rest[i], rest[j]) {
        assert WaitsFor(k, path[i + 1], path[j + 1]);
      }
      PathHasNull(k, rest, path[1]);
    }
  }

  /** A thread at its call of `lock_acquire(l)`, which it does not hold. */
  ghost predicate AtAcquire(k: State, l: Lock) {
    && MayDown(k, OfLock(l)) && l in k.holder && k.holder[l] != Some(k.current) && k.th[k.current].pc.Normal?
    && (k.holder[l].Some? ==> k.holder[l].value in k.th)
  }

  /** The walk ends, well or at a lock without a holder; it does not go round in a circle for ever. */
  ghost predicate WalkStops(k: State, l: Lock) {
    && k.current in k.th && l in k.holder && k.holder[l].Some? && k.holder[l].value in k.th
    && exists n: nat :: ChainEnds(Donating(k, l), l, n) || MeetsNull(Donating(k, l), l, n)
  }

  /** A number of steps in which it does. */
  ghost function StopLength(k: State, l: Lock): (n: nat)
    requires WalkStops(k, l)
    ensures if CanDonate(k, l) then n == WalkLength(k, l) else MeetsNull(Donating(k, l), l, n)
  {
    if CanDonate(k, l) then WalkLength(k, l)
    else
      var n: nat :| ChainEnds(Donating(k, l), l, n) || MeetsNull(Donating(k, l), l, n);
      n
  }

  lemma {:induction false} NullSame(k: State, k': State, l: Lock, n: nat)
    requires MeetsNull(k, l, n) && OnlyPriorities(k, k')
    ensures MeetsNull(k', l, n)
    decreases n
  {
    if k.holder[l].Some? {
      var h := k.holder[l].value;
      assert k'.th[h] == k.th[h].(priority := k'.th[h].priority);
      NullSame(k, k', k.th[h].waiting_lock.value, n - 1);
    }
  }

  /** When the acquisition closes no circle of waits, it goes well if and only if the lock is free or no lock
      reached from it through holders and the locks they wait for is free. */
  lemma AcquireGoesWell(k: State, l: Lock, rank: map<Lock, nat>)
    requires AtAcquire(k, l) && (k.holder[l] != None ==> Acyclic(Donating(k, l), rank))
    ensures MayAcquire(k, l) <==> k.holder[l] == None || forall path :: !LeadsToFree(Donating(k, l), path, l)
  {
    if k.holder[l] != None {
      var k1 := Donating(k, l);
      WalkEndsOrMeetsNull(k1, rank, l, rank[l]);
      if MeetsNull(k1, l, rank[l]) {
        var path := NullHasPath(k1, l, rank[l]);
        forall n: nat ensures !ChainEnds(k1, l, n) {
          if ChainEnds(k1, l, n) { NullOrNot(k1, l, n, rank[l]); }
        }
      } else {
        forall path ensures !LeadsToFree(k1, path, l) {
          if LeadsToFree(k1, path, l) {
            PathHasNull(k1, path, l);
            NullOrNot(k1, l, rank[l], |path| - 1);
          }
        }
      }
    }
  }

  // ----- donations to a thread that acts on what it read before

  /** Thread `t` is about to assign itself a priority below that of the acquiring thread, and its donor `d` is
      that thread or one that the walk raises to the same priority. */
  ghost predicate Outdates(k: State, l: Lock, t: Tid, d: Tid)
    requires CanDonate(k, l)
  {
    var k1 := Donating(k, l);
    && t in k1.th && d in k1.th[t].donations && (d == k.current || d in Chain(k1, l, WalkLength(k, l)))
    && Aim(k1.th[t].pc).Some? && Aim(k1.th[t].pc).value < k.th[k.current].priority
  }

  /** The acquisition registers with a thread that is about to give up the lock, or lifts a donor above the
      priority that a thread is about to assign to itself. */
  ghost predicate Disturbs(k: State, l: Lock)
    requires MayAcquire(k, l)
  {
    k.holder[l] != None &&
      (GivingUp(k.th[k.holder[l].value].pc) == Some(l) || exists t, d :: Outdates(k, l, t, d))
  }

  /** When no thread has been preempted inside `thread_set_priority` or `lock_release`, in particular when
      callers turn interrupts off around them, no acquisition disturbs anything. */
  lemma NothingToDisturb(k: State, l: Lock)
    requires MayAcquire(k, l) && forall t :: t in k.th ==> !InWindow(k.th[t].pc)
    ensures !Disturbs(k, l)
  {
    if k.holder[l] != None {
      var k1 := Donating(k, l);
      assert forall t :: t in k1.th ==> t in k.th && k1.th[t].pc == k.th[t].pc && !InWindow(k.th[t].pc);
      assert forall t, d :: !Outdates(k, l, t, d);
    }
  }

  lemma FreeIsUndisturbed(k: State, l: Lock)
    requires MayAcquire(k, l)
    ensures k.holder[l] == None ==> !Disturbs(k, l)
  {
  }

  /** The threads after registering and walking. */
  lemma DonatedShape(k: State, l: Lock)
    requires QueuesExist(k) && CanDonate(k, l) && k.holder[l] != Some(k.current)
    ensures var k1, k', p := Donating(k, l), Donated(k, l), k.th[k.current].priority;
            && k'.th.Keys == k.th.Keys && k'.holder == k.holder
            && (forall t :: t in k.th ==> k'.th[t] == k1.th[t].(priority := k'.th[t].priority))
            && (forall t :: t in k.th ==>
                  k'.th[t].priority == if t in Chain(k1, l, WalkLength(k, l)) then Max(k.th[t].priority, p) else k.th[t].priority)
  {
    WalkRaises(Donating(k, l), l, k.th[k.current].priority, WalkLength(k, l));
    hide Raised, Chain, ChainEnds;
  }

  /** One donor of one thread, after the walk. */
  lemma DonorAfterWalk(k: State, l: Lock, t: Tid, d: Tid)
    requires QueuesExist(k) && CanDonate(k, l) && k.holder[l] != Some(k.current)
    requires WindowsOk(k.th) && t in k.th && k.current !in k.th[t].donations
    requires d in k.th && Donating(k, l).th.Keys == k.th.Keys && d in Donating(k, l).th[t].donations
    ensures t in Donated(k, l).th
    ensures Fits(Donated(k, l).th, Donated(k, l).th[t], d) <==>
              !Outdates(k, l, t, d) && !(d == k.current && GivingUp(k.th[t].pc) == Some(l))
  {
    DonatedShape(k, l);
    hide Donated, Chain, WalkLength, CanDonate;
    var k1, k', c := Donating(k, l), Donated(k, l), k.current;
    assert k'.th[t].pc == k.th[t].pc;
    if d != c {
      assert d in k.th[t].donations && Fits(k.th, k.th[t], d);
      assert d in k.th ==> k'.th[d].waiting_lock == k.th[d].waiting_lock;
    }
  }

  /** What preempted threads have read of their donors stays true through a donation if and only if the
      donation disturbs none of them. */
  lemma DonatedPlans(k: State, l: Lock)
    requires Inv(k, true) && MayAcquire(k, l) && k.holder[l] != None
    ensures QueuesExist(k) && (WindowsOk(Donated(k, l).th) <==> !Disturbs(k, l))
  {
    BaseHasQueues(k, true);
    DonorsAreOthers(k);
    hide BaseOk, SleepFrom, PlansOk, DonateBut, WindowsOk, CanDonate, Donated, Disturbs;
    if Disturbs(k, l) { DisturbanceShows(k, l); } else { UndisturbedFits(k, l); }
  }

  ghost predicate DonorsKnown(k: State) {
    k.current in k.th && forall t, d :: t in k.th && d in k.th[t].donations ==> d in k.th && d != k.current
  }

  lemma UndisturbedFits(k: State, l: Lock)
    requires QueuesExist(k) && DonorsKnown(k) && WindowsOk(k.th) && MayAcquire(k, l) && k.holder[l] != None && !Disturbs(k, l)
    ensures WindowsOk(Donated(k, l).th)
  {
    DonatedShape(k, l);
    var k1, k' := Donating(k, l), Donated(k, l);
    assert k1.th.Keys == k.th.Keys;
    hide CanDonate, Donated, Outdates, Donating;
    forall t, d | t in k'.th && d in k'.th[t].donations ensures Fits(k'.th, k'.th[t], d) {
      assert d in k1.th[t].donations;
      DonorIsKnown(k, l, t, d);
      assert !Outdates(k, l, t, d);
      DonorAfterWalk(k, l, t, d);
      FirstHolderOnly(k, l, t, d);
    }
  }

  lemma DonorIsKnown(k: State, l: Lock, t: Tid, d: Tid)
    requires DonorsKnown(k) && CanDonate(k, l) && t in k.th && t in Donating(k, l).th && d in Donating(k, l).th[t].donations
    ensures d in k.th && k.current !in k.th[t].donations
  {
    hide ChainEnds;
  }

  lemma FirstHolderOnly(k: State, l: Lock, t: Tid, d: Tid)
    requires DonorsKnown(k) && CanDonate(k, l) && t in k.th && t in Donating(k, l).th && d in Donating(k, l).th[t].donations
    ensures d == k.current ==> k.holder[l] == Some(t)
  {
    hide ChainEnds;
  }

  lemma DisturbanceShows(k: State, l: Lock)
    requires QueuesExist(k) && DonorsKnown(k) && WindowsOk(k.th) && MayAcquire(k, l) && Disturbs(k, l)
    ensures !WindowsOk(Donated(k, l).th)
  {
    DonatedShape(k, l);
    var t, d := Disturbed(k, l);
    DonorIsKnown(k, l, t, d);
    DonorAfterWalk(k, l, t, d);
    var k' := Donated(k, l);
    hide CanDonate, Donated, Outdates, Donating;
    assert t in k'.th && d in k'.th[t].donations && !Fits(k'.th, k'.th[t], d);
  }

  lemma DonorsAreOthers(k: State)
    requires Inv(k, true)
    ensures DonorsKnown(k)
  {
    RunningDonatesNothing(k);
    forall t, d | t in k.th && d in k.th[t].donations ensures d in k.th {
      assert DonorsOk(k, t, None, Ceiling(k, t, None, 0));
      assert Registered(k, d, t, None);
    }
  }

  /** A thread and its donor that show a disturbance. */
  lemma Disturbed(k: State, l: Lock) returns (t: Tid, d: Tid)
    requires MayAcquire(k, l) && Disturbs(k, l)
    ensures t in k.th && Donating(k, l).th.Keys == k.th.Keys && d in Donating(k, l).th[t].donations
    ensures Outdates(k, l, t, d) || (d == k.current && GivingUp(k.th[t].pc) == Some(l))
  {
    t, d := k.holder[l].value, k.current;
    if GivingUp(k.th[t].pc) != Some(l) {
      t, d :| Outdates(k, l, t, d);
    }
  }
}
