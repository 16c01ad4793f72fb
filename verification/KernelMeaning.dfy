module KernelMeaning {
  // What the invariants of the threads subsystem say about a reachable state.

  import opened KernelLists
  import opened KernelState

  /** The lists that hold the `elem` of a thread. */
  datatype ListName = ReadyQueue(p: int) | WaiterList(s: Sema) | SleepList

  ghost predicate OnList(k: State, t: Tid, n: ListName) {
    match n
    case ReadyQueue(p) => 0 <= p < |k.ready| && t in k.ready[p]
    case WaiterList(s) => s in k.waiters && t in k.waiters[s]
    case SleepList => t in k.sleepers
  }

  /** A thread's shared `elem` is on at most one list. */
  lemma ElemOnOneList(k: State, running: bool, t: Tid, n1: ListName, n2: ListName)
    requires Sound(k, running) && OnList(k, t, n1) && OnList(k, t, n2)
    ensures n1 == n2
  {
    WhyOnList(k, running, t, n1);
    WhyOnList(k, running, t, n2);
  }

  lemma WhyOnList(k: State, running: bool, t: Tid, n: ListName)
    requires Sound(k, running) && OnList(k, t, n)
    ensures match n
            case ReadyQueue(p) => BelongsReady(k, t, p)
            case WaiterList(s) => BelongsWaiting(k, t, s)
            case SleepList => BelongsSleeping(k, t)
  {
    match n
    case ReadyQueue(p) => assert QueueOk(k, p);
    case WaiterList(s) => assert WaitersOk(k, s);
    case SleepList =>
  }

  /** No living thread but the running one and the idle one is ever off the lists. */
  lemma NobodyIsForgotten(k: State, t: Tid)
    requires Sound(k, true) && t in k.th && t != k.current && t != k.idle && !k.th[t].status.Dying?
    ensures exists n :: OnList(k, t, n)
  {
    if k.th[t].status.Ready? {
      assert QueueOk(k, k.th[t].priority) && BelongsReady(k, t, k.th[t].priority);
      assert OnList(k, t, ReadyQueue(k.th[t].priority));
    } else if k.th[t].pc.Sleeping? {
      assert BelongsSleeping(k, t);
      assert OnList(k, t, SleepList);
    } else {
      assert WaitersOk(k, k.th[t].pc.sema) && BelongsWaiting(k, t, k.th[t].pc.sema);
      assert OnList(k, t, WaiterList(k.th[t].pc.sema));
    }
  }

  /** While threads wait for a semaphore, no wakeup is lost: as many threads as its value shows have been
      woken inside its `sema_down` and will try again, for they are ready or running. */
  lemma NoWakeupIsLost(k: State, s: Sema)
    requires Sound(k, true)
    ensures s in k.value ==> s in k.waiters && 0 <= k.value[s] && (k.waiters[s] == [] || k.value[s] <= |Woken(k.th, s)|)
    ensures forall t :: t in Woken(k.th, s) ==> t in k.th && k.th[t].pc == Downing(s) && (k.th[t].status.Ready? || t == k.current)
  {
    assert s in k.value ==> NothingLost(k, s);
  }

  /** At most one thread is between taking a lock and giving it back. */
  lemma MutualExclusion(k: State, running: bool, l: Lock, t: Tid, u: Tid)
    requires Sound(k, running) && InsideLock(k, t, l) && InsideLock(k, u, l)
    ensures t == u
  {
    assert LockFacts(k, l);
  }

  /** A path of registered waits. */
  ghost predicate DonationPath(k: State, path: seq<Tid>) {
    && |path| > 0 && (forall i :: 0 <= i < |path| ==> path[i] in k.th)
    && forall i, j :: 0 <= i < |path| && j == i + 1 && j < |path| ==> path[i] in k.th[path[j]].donations
  }

  /** Along a chain of registered waits of any length, priority never drops. */
  lemma {:induction false} PriorityAlongChain(k: State, running: bool, path: seq<Tid>)
    requires Inv(k, running) && DonationPath(k, path)
    ensures k.th[path[0]].priority <= k.th[path[|path| - 1]].priority
  {
    if |path| > 1 {
      var n := |path| - 1;
      var front := path[..n];
      PriorityAlongChain(k, running, front);
      assert DonorsOk(k, path[n], None, Ceiling(k, path[n], None, 0));
      var i := n - 1;
      assert path[i] in k.th[path[n]].donations;
      assert Ceiling(k, path[n], None, 0) == k.th[path[n]].priority;
      assert Pri(k.th, path[i]) <= k.th[path[n]].priority;
      assert front[|front| - 1] == path[i] && front[0] == path[0];
    }
  }
}
