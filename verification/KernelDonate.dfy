/** Priority changes: `thread_update_priority`, the donation walk of `lock_acquire`, the first half of
    `lock_release`, and `thread_set_priority`. */
module KernelDonate {
  import opened KernelLists
  import opened KernelState
  import opened KernelKeep
  import opened KernelSwitch
  import opened KernelSync

  // ----- thread_update_priority

  ghost function Requeued(ready: seq<seq<Tid>>, t: Tid, from: int, to: int): (r: seq<seq<Tid>>)
    requires 0 <= from < |ready| && 0 <= to < |ready|
    ensures |r| == |ready|
  {
    var r := ready[from := Without(ready[from], t)];
    r[to := r[to] + [t]]
  }

  ghost function Updated(k: State, t: Tid, p: int): State
    requires QueuesExist(k) && t in k.th && PRI_MIN <= p <= PRI_MAX
  {
    k.(ready := if k.th[t].status.Ready? then Requeued(k.ready, t, k.th[t].priority, p) else k.ready,
       th := k.th[t := k.th[t].(priority := p)])
  }

  lemma UpdateReady(k: State, t: Tid, p: int)
    requires QueuesExist(k) && ReadyOk(k) && t in k.th && PRI_MIN <= p <= PRI_MAX && t != k.idle
    ensures ReadyOk(Updated(k, t, p))
  {
    var k', from := Updated(k, t, p), k.th[t].priority;
    forall q | 0 <= q <= PRI_MAX ensures QueueOk(k', q) {
      assert QueueOk(k, q);
      if k.th[t].status.Ready? {
        assert QueueOk(k, from);
        if q == from { WithoutMembers(k.ready[q], t); }
        if q == p { AppendMembers(if q == from then Without(k.ready[q], t) else k.ready[q], t); }
      }
      assert forall u :: u != t ==> (BelongsReady(k', u, q) <==> BelongsReady(k, u, q));
    }
  }

  lemma UpdateKeeps(k: State, running: bool, t: Tid, p: int, from: int)
    requires BaseOk(k, running) && SleepFrom(k, from) && t in k.th && PRI_MIN <= p <= PRI_MAX && t != k.idle
    ensures QueuesExist(k) && BaseOk(Updated(k, t, p), running) && SleepFrom(Updated(k, t, p), from)
  {
    hide WaitOk, CountOk, LockOk, SleepFrom;
    QueuesDoExist(k, running);
    UpdateReady(k, t, p);
    hide ReadyOk;
    var k' := Updated(k, t, p);
    RunKeep(k, k', running, t);
    WaitKeep(k, k', t);
    SleepKeep(k, k', t, from);
    BlockKeep(k, k', t);
    CountKeep(k, k', t);
    LockKeep(k, k', t);
  }

  // ----- the donation walk

  /** The walk from lock `l` along holders and the locks they wait for meets a holder at every lock, and
      ends after at most `n` more locks. */
  ghost predicate ChainEnds(k: State, l: Lock, n: nat)
    decreases n
  {
    && l in k.holder && k.holder[l].Some? && k.holder[l].value in k.th
    && (k.th[k.holder[l].value].waiting_lock.Some? ==>
          n > 0 && ChainEnds(k, k.th[k.holder[l].value].waiting_lock.value, n - 1))
  }

  /** The threads the walk visits. */
  ghost function Chain(k: State, l: Lock, n: nat): seq<Tid>
    requires ChainEnds(k, l, n)
    decreases n
  {
    var h := k.holder[l].value;
    [h] + if k.th[h].waiting_lock.None? then [] else Chain(k, k.th[h].waiting_lock.value, n - 1)
  }

  /** The two states differ in priorities and ready queues at most. */
  ghost predicate OnlyPriorities(k: State, k': State) {
    && k'.(th := k.th, ready := k.ready) == k && k'.th.Keys == k.th.Keys
    && forall t :: t in k.th ==> k'.th[t] == k.th[t].(priority := k'.th[t].priority)
  }

  lemma {:induction false} ChainSame(k: State, k': State, l: Lock, n: nat)
    requires ChainEnds(k, l, n) && OnlyPriorities(k, k')
    ensures ChainEnds(k', l, n) && Chain(k', l, n) == Chain(k, l, n)
    decreases n
  {
    var h := k.holder[l].value;
    if k.th[h].waiting_lock.Some? { ChainSame(k, k', k.th[h].waiting_lock.value, n - 1); }
  }

  ghost function RaisedOne(k: State, h: Tid, p: int): State
    requires QueuesExist(k) && h in k.th && PRI_MIN <= p <= PRI_MAX
  {
    if k.th[h].priority < p then Updated(k, h, p) else k
  }

  lemma RaiseOneShape(k: State, h: Tid, p: int)
    requires QueuesExist(k) && h in k.th && PRI_MIN <= p <= PRI_MAX
    ensures var k1 := RaisedOne(k, h, p);
            QueuesExist(k1) && OnlyPriorities(k, k1) && forall t :: t in k.th ==>
              k1.th[t].priority == if t == h then Max(k.th[t].priority, p) else k.th[t].priority
  {
    hide Requeued;
  }

  /** The state after the walk from lock `l` at priority `p`. */
  ghost function Raised(k: State, l: Lock, p: int, n: nat): State
    requires QueuesExist(k) && ChainEnds(k, l, n) && PRI_MIN <= p <= PRI_MAX
    decreases n
  {
    var h := k.holder[l].value;
    var k1 := RaisedOne(k, h, p);
    RaiseOneShape(k, h, p);
    if k.th[h].waiting_lock.None? then k1
    else
      ChainSame(k, k1, k.th[h].waiting_lock.value, n - 1);
      Raised(k1, k.th[h].waiting_lock.value, p, n - 1)
  }

  /** The walk raises every thread it visits to the donor's priority, and changes no other priority. */
  lemma {:induction false} WalkRaises(k: State, l: Lock, p: int, n: nat)
    requires QueuesExist(k) && ChainEnds(k, l, n) && PRI_MIN <= p <= PRI_MAX
    ensures var k' := Raised(k, l, p, n);
            QueuesExist(k') && OnlyPriorities(k, k') && forall t :: t in k.th ==>
              k'.th[t].priority == if t in Chain(k, l, n) then Max(k.th[t].priority, p) else k.th[t].priority
    decreases n
  {
    var h := k.holder[l].value;
    var k1 := RaisedOne(k, h, p);
    RaiseOneShape(k, h, p);
    hide RaisedOne, QueuesExist;
    if k.th[h].waiting_lock.Some? {
      var next := k.th[h].waiting_lock.value;
      ChainSame(k, k1, next, n - 1);
      WalkRaises(k1, next, p, n - 1);
      assert Chain(k, l, n) == [h] + Chain(k, next, n - 1);
    } else {
      assert Chain(k, l, n) == [h];
    }
  }

  lemma RaiseOneDonates(k: State, h: Tid, p: int, pending: Option<Tid>)
    requires QueuesExist(k) && h in k.th && PRI_MIN <= p <= PRI_MAX && DonateBut(k, pending, Some(h), p)
    ensures var k1 := RaisedOne(k, h, p);
            && (k.th[h].waiting_lock.None? ==> DonateOk(k1, pending))
            && (k.th[h].waiting_lock.Some? && k.th[h].waiting_lock.value in k.holder ==>
                  DonateBut(k1, pending, k.holder[k.th[h].waiting_lock.value], p))
  {
    var k1 := RaisedOne(k, h, p);
    RaiseOneShape(k, h, p);
    var next := if k.th[h].waiting_lock.Some? && k.th[h].waiting_lock.value in k.holder
                then k.holder[k.th[h].waiting_lock.value] else None;
    forall u | u in k1.th ensures DonorsOk(k1, u, pending, Ceiling(k1, u, next, p)) && WaitingLockOk(k1, u, pending) {
      assert WaitingLockOk(k, u, pending);
      assert DonorsOk(k, u, pending, Ceiling(k, u, Some(h), p));
      forall d | d in k1.th[u].donations ensures Registered(k1, d, u, pending) && Pri(k1.th, d) <= Ceiling(k1, u, next, p) {
        assert Registered(k, d, u, pending) && Pri(k.th, d) <= Ceiling(k, u, Some(h), p);
      }
    }
    if k.th[h].waiting_lock.None? { LevelDoesNotMatter(k1, pending, p); }
  }

  lemma LevelDoesNotMatter(k: State, pending: Option<Tid>, p: int)
    requires DonateBut(k, pending, None, p)
    ensures DonateOk(k, pending)
  {
    forall u | u in k.th ensures DonorsOk(k, u, pending, Ceiling(k, u, None, 0)) && WaitingLockOk(k, u, pending) {
      assert WaitingLockOk(k, u, pending);
      assert DonorsOk(k, u, pending, Ceiling(k, u, None, p));
    }
  }

  /** The walk keeps all lists; and from a state in which only the first holder is possibly too low, it
      restores the rule that every thread covers its donors. */
  lemma {:induction false} WalkKeeps(k: State, running: bool, l: Lock, p: int, n: nat, pending: Option<Tid>, from: int)
    requires BaseOk(k, running) && SleepFrom(k, from) && QueuesExist(k) && ChainEnds(k, l, n) && PRI_MIN <= p <= PRI_MAX
    ensures BaseOk(Raised(k, l, p, n), running) && SleepFrom(Raised(k, l, p, n), from)
    ensures DonateBut(k, pending, k.holder[l], p) ==> DonateOk(Raised(k, l, p, n), pending)
    decreases n
  {
    hide DonateBut, SleepFrom;
    var h := k.holder[l].value;
    var k1 := RaisedOne(k, h, p);
    RaiseOneShape(k, h, p);
    HolderIsNotIdle(k, running, l);
    UpdateKeeps(k, running, h, p, from);
    if DonateBut(k, pending, k.holder[l], p) { RaiseOneDonates(k, h, p, pending); }
    hide BaseOk;
    if k.th[h].waiting_lock.Some? {
      var next := k.th[h].waiting_lock.value;
      ChainSame(k, k1, next, n - 1);
      WalkKeeps(k1, running, next, p, n - 1, pending, from);
    }
  }

  /** Raising priorities respects the base priorities. */
  lemma WalkPlans(k: State, l: Lock, p: int, n: nat)
    requires QueuesExist(k) && ChainEnds(k, l, n) && PRI_MIN <= p <= PRI_MAX && PlansOk(k.th)
    ensures PlansOk(Raised(k, l, p, n).th)
  {
    WalkRaises(k, l, p, n);
    hide Raised, Chain, ChainEnds, QueuesExist;
    forall t | t in k.th ensures PlanOk(Raised(k, l, p, n).th[t]) { assert PlanOk(k.th[t]); }
  }

  lemma HolderIsNotIdle(k: State, running: bool, l: Lock)
    requires BaseOk(k, running) && l in k.holder && k.holder[l].Some?
    ensures k.holder[l].value != k.idle
  {
    assert LockFacts(k, l);
  }

  // ----- lock_acquire before its sema_down

  /** The current thread names lock `l` as the one it waits for and joins the donations of its holder. */
  ghost function Donating(k: State, l: Lock): State
    requires k.current in k.th && l in k.holder && k.holder[l].Some? && k.holder[l].value in k.th
  {
    var th1 := k.th[k.current := k.th[k.current].(waiting_lock := Some(l))];
    var h := k.holder[l].value;
    k.(th := th1[h := th1[h].(donations := th1[h].donations + [k.current])])
  }

  /** The walk of the current thread from lock `l` does not run into a lock without a holder, or for ever. */
  ghost predicate CanDonate(k: State, l: Lock) {
    && k.current in k.th && l in k.holder && k.holder[l].Some? && k.holder[l].value in k.th
    && exists n :: ChainEnds(Donating(k, l), l, n)
  }

  ghost function WalkLength(k: State, l: Lock): (n: nat)
    requires CanDonate(k, l)
    ensures ChainEnds(Donating(k, l), l, n)
  {
    var n: nat :| ChainEnds(Donating(k, l), l, n);
    n
  }

  lemma DonatingBase(k: State, l: Lock, from: int)
    requires BaseOk(k, true) && SleepFrom(k, from)
    requires l in k.holder && k.holder[l].Some? && k.holder[l].value != k.current && k.holder[l].value in k.th
    ensures BaseOk(Donating(k, l), true) && SleepFrom(Donating(k, l), from)
  {
    hide WaitOk, CountOk, LockOk, SleepFrom;
    QueuesDoExist(k, true);
    hide ReadyOk;
    var t, h := k.current, k.holder[l].value;
    var k1 := k.(th := k.th[t := k.th[t].(waiting_lock := Some(l))]);
    HarmlessChange(k, k1, t, from);
    var k2 := Donating(k, l);
    HarmlessChange(k1, k2, h, from);
  }

  /** Donation lists, base priorities and `waiting_lock` matter to donations only. */
  lemma HarmlessChange(k: State, k': State, t: Tid, from: int)
    requires BaseOk(k, true) && SleepFrom(k, from) && QueuesExist(k)
    requires OneThread(k, k', t) && k' == k.(th := k'.th)
    requires k'.th[t] == k.th[t].(waiting_lock := k'.th[t].waiting_lock, donations := k'.th[t].donations, base_priority := k'.th[t].base_priority)
    ensures BaseOk(k', true) && SleepFrom(k', from) && QueuesExist(k')
  {
    hide WaitOk, CountOk, LockOk, SleepFrom, ReadyOk;
    RunKeep(k, k', true, t);
    ReadyKeep(k, k', t);
    WaitKeep(k, k', t);
    SleepKeep(k, k', t, from);
    BlockKeep(k, k', t);
    CountKeep(k, k', t);
    LockKeep(k, k', t);
  }

  lemma DonatingDonates(k: State, l: Lock)
    requires DonateOk(k, None) && k.current in k.th && k.th[k.current].status.Running? && k.th[k.current].pc.Normal?
    requires l in k.holder && k.holder[l].Some? && k.holder[l].value != k.current && k.holder[l].value in k.th
    ensures DonateBut(Donating(k, l), Some(k.current), k.holder[l], k.th[k.current].priority)
  {
    var k', t, p, h := Donating(k, l), k.current, k.th[k.current].priority, k.holder[l].value;
    forall u | u in k'.th
      ensures DonorsOk(k', u, Some(t), Ceiling(k', u, Some(h), p)) && WaitingLockOk(k', u, Some(t))
    {
      assert WaitingLockOk(k, u, None);
      assert DonorsOk(k, u, None, Ceiling(k, u, None, 0));
      forall d | d in k.th[u].donations
        ensures d != t && Registered(k', d, u, Some(t)) && Pri(k'.th, d) <= Ceiling(k', u, Some(h), p)
      {
        assert Registered(k, d, u, None) && Pri(k.th, d) <= Ceiling(k, u, None, 0);
      }
      if u == h { AppendMembers(k.th[h].donations, t); }
    }
  }

  /** The state when `lock_acquire` reaches its `sema_down`. */
  ghost function Donated(k: State, l: Lock): State
    requires QueuesExist(k) && CanDonate(k, l)
  {
    assert QueuesExist(Donating(k, l));
    Raised(Donating(k, l), l, k.th[k.current].priority, WalkLength(k, l))
  }

  lemma DonationKeeps(k: State, l: Lock, from: int)
    requires SoundFrom(k, true, from) && k.th[k.current].pc.Normal?
    requires CanDonate(k, l) && k.holder[l].value != k.current
    ensures QueuesExist(k) && SoundFrom(Donated(k, l), true, from)
    ensures DonateOk(k, None) ==> DonateOk(Donated(k, l), Some(k.current))
  {
    hide ReadyOk, WaitOk, CountOk, LockOk, SleepFrom, DonateBut, PlansOk;
    BaseHasQueues(k, true);
    DonatingBase(k, l, from);
    DonatingPlans(k, l);
    BaseHasQueues(Donating(k, l), true);
    if DonateOk(k, None) { DonatingDonates(k, l); }
    hide BaseOk, Donating;
    WalkPlans(Donating(k, l), l, k.th[k.current].priority, WalkLength(k, l));
    WalkKeeps(Donating(k, l), true, l, k.th[k.current].priority, WalkLength(k, l), Some(k.current), from);
  }

  lemma DonatingPlans(k: State, l: Lock)
    requires PlansOk(k.th) && k.current in k.th && l in k.holder && k.holder[l].Some? && k.holder[l].value in k.th
    ensures PlansOk(Donating(k, l).th)
  {
    forall t | t in k.th ensures PlanOk(Donating(k, l).th[t]) { assert PlanOk(k.th[t]); }
  }

  lemma BaseHasQueues(k: State, running: bool)
    requires BaseOk(k, running)
    ensures QueuesExist(k)
  {
    QueuesDoExist(k, running);
  }

  // ----- lock_release before its sema_up

  /** `remove_donation_by_lock`. */
  function OtherDonors(th: Threads, s: seq<Tid>, l: Lock): seq<Tid> {
    if s == [] then []
    else (if s[0] in th && th[s[0]].waiting_lock == Some(l) then [] else [s[0]]) + OtherDonors(th, s[1..], l)
  }

  lemma {:induction false} OtherDonorsMembers(th: Threads, s: seq<Tid>, l: Lock)
    requires Distinct(s)
    ensures Distinct(OtherDonors(th, s, l))
    ensures forall d :: d in OtherDonors(th, s, l) <==> d in s && !(d in th && th[d].waiting_lock == Some(l))
  {
    if s != [] {
      assert s == [s[0]] + s[1..];
      assert s[0] !in s[1..];
      OtherDonorsMembers(th, s[1..], l);
    }
  }

  /** What `refresh_priority` assigns. */
  function Refreshed(th: Threads, base: int, donors: seq<Tid>): int {
    if donors == [] then base else Max(base, Pri(th, SortedByPriority(th, donors)[0]))
  }

  lemma RefreshedCovers(th: Threads, base: int, donors: seq<Tid>)
    requires Distinct(donors)
    ensures base <= Refreshed(th, base, donors) && forall d :: d in donors ==> Pri(th, d) <= Refreshed(th, base, donors)
    ensures Refreshed(th, base, donors) == base || exists d :: d in donors && Pri(th, d) == Refreshed(th, base, donors)
  {
    SortedMembers(th, donors);
    if donors != [] { assert SortedByPriority(th, donors)[0] in donors; }
  }
}
