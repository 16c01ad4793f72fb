/** What the donation code does that its callers may not expect, each with a run from start-up that shows it:
    the walk of `lock_acquire` can read the priority of a holder that is NULL; `thread_set_priority` can leave
    a priority that no donor justifies; a preemption inside `thread_set_priority` or `lock_release` can end in
    a thread that runs below a registered donor, or that keeps a donor for a lock it has given up; and
    `lock_release` can leave a ready thread above the running one. */
module KernelFindings {
  import opened KernelLists
  import opened KernelState
  import opened KernelKeep
  import opened KernelSwitch
  import opened KernelSync
  import opened KernelDonate
  import opened KernelRelease
  import opened KernelSteps
  import opened KernelAcquire
  import opened KernelTimer
  import opened KernelRuns
  import opened KernelScenarios
  import opened KernelAftermath
  import KernelEffects

  /** The running thread holds lock `b`, for which `h` waits, itself the holder of lock `a`. */
  ghost predicate HandOver(k: State, a: Lock, b: Lock, h: Tid) {
    && Sound(k, true) && AtCall(k) && k.current != k.idle && h != k.current && h in k.th
    && a in k.holder && k.holder[a] == Some(h) && b in k.holder && k.holder[b] == Some(k.current)
    && k.th[h].waiting_lock == Some(b)
  }

  /** The states after the two halves of releasing `b`, when the thread woken does not outrank the running
      one, so that there is no yield. */
  ghost predicate ReleasesQuietly(k: State, b: Lock, k1: State, k2: State) {
    && k.current in k.th && k1 == Released(k, b)
    && MayUp(k1, OfLock(b)) && !WakesHigher(k1, OfLock(b)) && k2 == LockUpped(k1, b)
  }

  /** Thread `h` holds lock `a` and waits for lock `b`, which nobody holds. */
  ghost predicate FreeBehind(k: State, a: Lock, b: Lock, h: Tid) {
    && AtCall(k) && h != k.current && h in k.th && k.th[h].waiting_lock == Some(b)
    && a in k.holder && k.holder[a] == Some(h) && b in k.holder && k.holder[b] == None
  }

  /** The walk of `lock_acquire(a)` reaches a lock without a holder, whose priority it then reads. */
  ghost predicate RunsIntoNull(k: State, a: Lock) {
    && k.current in k.th && a in k.holder && k.holder[a].Some? && k.holder[a].value in k.th
    && MeetsNull(Donating(k, a), a, 1) && !CanDonate(k, a)
  }

  /** If the running thread releases `b`, keeps the processor, and then acquires `a`, its walk meets lock
      `b`, which nobody holds yet; so it neither ends well nor goes on. */
  lemma ReleaseExposesNull(k: State, a: Lock, b: Lock, h: Tid, k1: State, k2: State)
    requires HandOver(k, a, b, h) && ReleasesQuietly(k, b, k1, k2)
    ensures Sound(k2, true) && k2.current == k.current && FreeBehind(k2, a, b, h) && RunsIntoNull(k2, a)
  {
    hide Sound, Released, LockUpped, WakesHigher, RunsIntoNull;
    ReleaseShape(k, b, h);
    LockUpShape(k1, b, h);
    NoWayOn(k2, a, b, h);
  }

  /** `k'` is `k` with lock `l` given up and the running thread at `pc`, and with thread `h` as it was but for
      its status. */
  ghost predicate GivenUp(k: State, k': State, l: Lock, h: Tid, pc: Pc) {
    && Sound(k', true) && k'.current == k.current && IsAt(k', pc) && k'.holder == k.holder[l := None]
    && h in k.th && h in k'.th && k'.th[h].waiting_lock == k.th[h].waiting_lock
  }

  lemma ReleaseShape(k: State, l: Lock, h: Tid)
    requires Sound(k, true) && AtCall(k) && k.current != k.idle && HoldsStill(k, k.current, l) && h in k.th && h != k.current
    ensures GivenUp(k, Released(k, l), l, h, Releasing(l))
  {
    hide SoundFrom, DonorsSafe, SortedByPriority, Refreshed, OtherDonors;
    ReleaseKeeps(k, l);
  }

  lemma LockUpShape(k: State, l: Lock, h: Tid)
    requires Sound(k, true) && IsAt(k, Releasing(l)) && h in k.th && h != k.current
    ensures MayUp(k, OfLock(l)) && GivenUp(k, LockUpped(k, l), l, h, Normal)
  {
    LockUpKeeps(k, l, k.ticks + 1);
    ReleasingFacts(k, l);
    hide SoundFrom, DonorsSafe, LockUpped, MayUp;
    LockUppedThreads(k, l, h);
  }

  lemma LockUppedThreads(k: State, l: Lock, h: Tid)
    requires MayUp(k, OfLock(l)) && k.current in k.th && h in k.th && h != k.current
    ensures var k' := LockUpped(k, l);
            && k'.current == k.current && IsAt(k', Normal) && k'.holder == k.holder && k'.ticks == k.ticks
            && h in k'.th && k'.th[h].waiting_lock == k.th[h].waiting_lock
  {
    hide FirstMax;
  }

  lemma NoWayOn(k: State, a: Lock, b: Lock, h: Tid)
    requires FreeBehind(k, a, b, h)
    ensures RunsIntoNull(k, a)
  {
    var k3 := Donating(k, a);
    assert MeetsNull(k3, b, 0);
    forall n: nat ensures !ChainEnds(k3, a, n) {
      assert n > 0 ==> !ChainEnds(k3, b, n - 1);
    }
  }

  // ----- the start

  const IDLE := 0
  const MAIN := 1
  const OTHER := 2

  ghost function NoneReady(): seq<seq<Tid>> {
    var none: seq<Tid> := [];
    seq(PRI_MAX + 1, _ => none)
  }

  /** Two threads besides the idle one, two locks whose holders are their owners, nobody asleep. */
  ghost function Two(current: Tid, main: Thread, other: Thread, ready: seq<seq<Tid>>, thread_ticks: int,
                     a: Option<Tid>, b: Option<Tid>, waiting: seq<Tid>): State {
    State(map[IDLE := NewThread(PRI_MIN), MAIN := main, OTHER := other], IDLE, current, ready,
          map[OfLock(0) := [], OfLock(1) := waiting],
          map[OfLock(0) := if a.None? then 1 else 0, OfLock(1) := if b.None? then 1 else 0],
          [], 0, thread_ticks, false, map[0 := a, 1 := b], map[0 := a, 1 := b])
  }

  function Simple(status: Status, priority: int, base: int, pc: Pc): Thread {
    Thread(status, priority, base, 0, None, [], pc)
  }

  /** After `thread_start`, with two locks; the first thread has run for three ticks. */
  ghost function Start(): State {
    State(map[IDLE := NewThread(PRI_MIN), MAIN := NewThread(PRI_DEFAULT).(status := Running)], IDLE, MAIN, NoneReady(),
          map[OfLock(0) := [], OfLock(1) := []], map[OfLock(0) := 1, OfLock(1) := 1],
          [], 0, 3, false, map[0 := None, 1 := None], map[0 := None, 1 := None])
  }

  lemma StartIsBooted()
    ensures Booted(Start()) && Leads(Start(), [], Start())
  {
    BootIsSafe(Start());
    hide Sound;
    assert Possible(Start(), []) && Run(Start(), []) == Start();
  }

  lemma LeadsFromBoot(es: seq<Event>, k: State)
    requires Leads(Start(), es, k)
    ensures CanRun(Start(), es) && Reached(Start(), es) == k && Sound(k, true)
  {
    StartIsBooted();
    hide Start, Booted, Possible, Run, Sound;
  }

  /** The first thread takes lock `l` and creates the other one with priority `p`, no higher than its own. */
  lemma TakeAndCreate(l: Lock, p: int) returns (es: seq<Event>, k: State)
    requires (l == 0 || l == 1) && PRI_MIN <= p <= PRI_DEFAULT
    ensures Leads(Start(), es, k)
    ensures k == Two(MAIN, Simple(Running, PRI_DEFAULT, PRI_DEFAULT, Normal), Simple(Ready, p, p, Normal), NoneReady()[p := [OTHER]], 3,
                     if l == 0 then Some(MAIN) else None, if l == 1 then Some(MAIN) else None, [])
  {
    StartIsBooted();
    hide Leads, Sound, Booted;
    AcquireFree(Start(), [], Start(), l);
    var k1, es1 := Holding(Start(), l), [] + [Acquire(l)] + [Finish];
    LeadsSafely(Start(), es1, k1);
    CreateStep(k1, OTHER, p);
    es, k := es1 + [Create(OTHER, p)], Created(k1, OTHER, p);
    OneMore(Start(), es1, k1, Create(OTHER, p), k);
    CreatedAs(l, p);
  }

  lemma CreateStep(k: State, t: Tid, p: int)
    requires Sound(k, true) && AtCall(k) && PRI_MIN <= p <= PRI_MAX && t !in k.th
    ensures QueuesExist(k) && CanStep(k, Create(t, p), Created(k, t, p))
  {
    CreateKeeps(k, t, p, k.ticks + 1);
    hide SoundFrom, DonorsSafe, Created;
  }

  lemma CreatedAs(l: Lock, p: int)
    requires (l == 0 || l == 1) && PRI_MIN <= p <= PRI_DEFAULT
    ensures QueuesExist(Holding(Start(), l))
    ensures Created(Holding(Start(), l), OTHER, p) ==
            Two(MAIN, Simple(Running, PRI_DEFAULT, PRI_DEFAULT, Normal), Simple(Ready, p, p, Normal), NoneReady()[p := [OTHER]], 3,
                if l == 0 then Some(MAIN) else None, if l == 1 then Some(MAIN) else None, [])
  {
    var k1 := Holding(Start(), l);
    hide NoneReady;
    CreatedQueue(p);
    HeldByMain(l);
  }

  lemma CreatedQueue(p: int)
    requires PRI_MIN <= p <= PRI_MAX
    ensures |NoneReady()| == PRI_MAX + 1 && NoneReady()[p := NoneReady()[p] + [OTHER]] == NoneReady()[p := [OTHER]]
  {
    assert NoneReady()[p] + [OTHER] == [OTHER];
  }

  lemma HeldByMain(l: Lock)
    requires l == 0 || l == 1
    ensures var h := map[0 := if l == 0 then Some(MAIN) else None, 1 := if l == 1 then Some(MAIN) else None];
            Holding(Start(), l).holder == h && Holding(Start(), l).owner == h
  {
  }

  // ----- the state in which a chain of two locks can form

  ghost function Witness(): State {
    Two(MAIN, Thread(Running, 31, 31, 0, None, [OTHER], Normal), Thread(Blocked, 30, 30, 0, Some(1), [], Downing(OfLock(1))),
        NoneReady(), 0, Some(OTHER), Some(MAIN), [OTHER])
  }

  lemma YieldStep(k: State, p: int)
    requires Sound(k, true) && k.current != k.idle && QueuesExist(k) && IsTop(Parked(k).ready, p)
    ensures Parked(k).ready[p][0] in Parked(k).th && CanStep(k, Yield, Switched(Parked(k), p))
  {
    YieldTo(k, p);
    hide SoundFrom, DonorsSafe, Parked, YieldIf;
  }

  /** The first thread has lowered itself to 29. */
  ghost function MainIsLow(): State {
    Two(MAIN, Simple(Running, 29, 29, Normal), Simple(Ready, 30, 30, Normal), NoneReady()[30 := [OTHER]], 3, None, Some(MAIN), [])
  }

  /** The other thread runs, with the first at priority 29 and holding lock 1. */
  ghost function OtherRuns(a: Option<Tid>): State {
    Two(OTHER, Simple(Ready, 29, 29, Normal), Simple(Running, 30, 30, Normal), NoneReady()[29 := [MAIN]], 0, a, Some(MAIN), [])
  }

  lemma LoweredMain(k: State)
    requires k == Two(MAIN, Simple(Running, PRI_DEFAULT, PRI_DEFAULT, Normal), Simple(Ready, 30, 30, Normal), NoneReady()[30 := [OTHER]], 3, None, Some(MAIN), [])
    ensures AtCall(k) && k.th[k.current].donations == [] && WithPriority(k, 29) == MainIsLow()
  {
  }

  lemma MainLowersItself() returns (es: seq<Event>)
    ensures Leads(Start(), es, MainIsLow())
  {
    var es1, k1 := TakeAndCreate(1, 30);
    hide Leads, Start;
    LoweredMain(k1);
    hide WithPriority, MainIsLow, Two;
    SetPriorityRun(Start(), es1, k1, 29);
    es := es1 + [SetBase(29)] + [Decide] + [Assign];
  }

  lemma MainYields() returns (es: seq<Event>)
    ensures Leads(Start(), es, OtherRuns(None))
  {
    var es1 := MainLowersItself();
    hide Leads, Sound, CanStep, IsTop;
    LeadsSafely(Start(), es1, MainIsLow());
    MainParks();
    YieldStep(MainIsLow(), 30);
    hide Start;
    OneMore(Start(), es1, MainIsLow(), Yield, OtherRuns(None));
    es := es1 + [Yield];
  }

  lemma MainParks()
    ensures var k := MainIsLow();
            && k.current != k.idle && QueuesExist(k) && IsTop(Parked(k).ready, 30) && Parked(k).ready[30][0] == OTHER
            && Switched(Parked(k), 30) == OtherRuns(None)
  {
    var k := MainIsLow();
    var r := Parked(k).ready;
    assert k.ready[29] + [MAIN] == [MAIN] && r[30][1..] == [];
    assert r == NoneReady()[30 := [OTHER]][29 := [MAIN]];
    assert r[30 := r[30][1..]] == NoneReady()[29 := [MAIN]];
  }

  lemma OtherTakes() returns (es: seq<Event>)
    ensures Leads(Start(), es, OtherRuns(Some(OTHER)))
  {
    var es1 := MainYields();
    hide Leads, Start;
    AcquireFree(Start(), es1, OtherRuns(None), 0);
    es := es1 + [Acquire(0)] + [Finish];
    HoldingZero();
    hide Holding;
  }

  lemma HoldingZero()
    ensures Holding(OtherRuns(None), 0) == OtherRuns(Some(OTHER))
  {
  }

  /** The first thread runs again, at the priority of the other, which waits for lock 1. */
  ghost function MainIsRaised(a: Option<Tid>): State {
    Two(MAIN, Thread(Running, 30, 29, 0, None, [OTHER], Normal), Thread(Blocked, 30, 30, 0, Some(1), [], Downing(OfLock(1))),
        NoneReady(), 0, a, Some(MAIN), [OTHER])
  }

  lemma OtherBlocks(a: Option<Tid>)
    ensures var k := OtherRuns(a);
            && QueuesExist(k) && Meets(k, 1, MAIN) && IsTop(Waiting(k, 1).ready, 30) && Waiting(k, 1).ready[30][0] == MAIN
            && Switched(Waiting(k, 1), 30) == MainIsRaised(a)
  {
    var k := OtherRuns(a);
    var r := Waiting(k, 1).ready;
    assert k.ready[29] == [MAIN] && Without([MAIN], MAIN) == [] && k.ready[30] + [MAIN] == [MAIN];
    assert r == NoneReady()[30 := [MAIN]] && r[30][1..] == [];
    assert k.waiters[OfLock(1)] + [OTHER] == [OTHER] && k.th[MAIN].donations + [OTHER] == [OTHER];
    assert r[30 := r[30][1..]] == NoneReady();
  }

  lemma OtherWaits(es1: seq<Event>, a: Option<Tid>) returns (es: seq<Event>)
    requires Leads(Start(), es1, OtherRuns(a))
    ensures Leads(Start(), es, MainIsRaised(a))
  {
    hide Leads, Sound, Meets, IsTop, Start;
    var k := OtherRuns(a);
    LeadsSafely(Start(), es1, k);
    OtherBlocks(a);
    WaitsForHolder(k, 1, MAIN, 30);
    assert CanStep(k, Acquire(1), MainIsRaised(a));
    hide CanStep;
    OneMore(Start(), es1, k, Acquire(1), MainIsRaised(a));
    es := es1 + [Acquire(1)];
  }

  /** The state is reached from start-up: the first thread acquires lock 1, creates the other thread, and
      lowers itself; the other acquires lock 0 and waits for lock 1; the first raises itself. */
  lemma WitnessIsReached() returns (es: seq<Event>)
    ensures CanRun(Start(), es) && Reached(Start(), es) == Witness()
    ensures Leads(Start(), es, Witness())
  {
    hide Leads, Start, CanRun, Reached, OtherRuns;
    var es0 := OtherTakes();
    var es1 := OtherWaits(es0, Some(OTHER));
    SetPriorityRun(Start(), es1, MainIsRaised(Some(OTHER)), 31);
    assert WithPriority(MainIsRaised(Some(OTHER)), 31) == Witness();
    es := es1 + [SetBase(31)] + [Decide] + [Assign];
    LeadsFromBoot(es, Witness());
  }

  // ----- the walk meets a lock without a holder

  /** A run from start-up after which the first thread has released lock 1, kept the processor, and calls
      `lock_acquire` for lock 0: its walk reads the priority of the holder of lock 1, which is NULL. */
  lemma WalkCanMeetNull() returns (es: seq<Event>, k: State)
    ensures CanRun(Start(), es) && Reached(Start(), es) == k
    ensures Sound(k, true) && k.current == MAIN && FreeBehind(k, 0, 1, OTHER) && RunsIntoNull(k, 0)
  {
    var es1 := WitnessIsReached();
    WitnessHandsOver(es1);
    WitnessStays();
    hide Sound, Leads, Released, RunsIntoNull, FreeBehind, LockUpped, WakesHigher, MayUp, HandOver, Witness, Start;
    var k1 := Released(Witness(), 1);
    WitnessReleases(es1);
    var es2 := es1 + [Drop(1)] + [Compute] + [Assign] + [LetGo];
    LeadsSafely(Start(), es2, k1);
    FinishReleaseStep(k1, 1);
    k, es := LockUpped(k1, 1), es2 + [FinishRelease];
    OneMore(Start(), es2, k1, FinishRelease, k);
    LeadsFromBoot(es, k);
    assert ReleasesQuietly(Witness(), 1, k1, k);
    ReleaseExposesNull(Witness(), 0, 1, OTHER, k1, k);
  }

  lemma WitnessHandsOver(es: seq<Event>)
    requires Leads(Start(), es, Witness())
    ensures HandOver(Witness(), 0, 1, OTHER)
  {
    LeadsSafely(Start(), es, Witness());
    hide Sound, Leads;
  }

  lemma WitnessReleases(es: seq<Event>)
    requires Leads(Start(), es, Witness())
    ensures Leads(Start(), es + [Drop(1)] + [Compute] + [Assign] + [LetGo], Released(Witness(), 1))
    ensures IsAt(Released(Witness(), 1), Releasing(1)) && Witness().current in Witness().th
  {
    hide Leads, Released;
    ReleaseRun(Start(), es, Witness(), 1);
    ReleaseShape(Witness(), 1, OTHER) by { LeadsSafely(Start(), es, Witness()); }
  }

  lemma WitnessStays()
    ensures !WakesHigher(Released(Witness(), 1), OfLock(1))
  {
    var k := Witness();
    ReleasedKeepsBase(k, 1);
    hide Released;
    assert FirstMax(Released(k, 1).th, [OTHER]) == OTHER;
  }

  /** Releasing changes no other thread, no waiters, and leaves the priority at the base priority or above. */
  lemma ReleasedKeepsBase(k: State, l: Lock)
    requires k.current in k.th && Distinct(k.th[k.current].donations)
    ensures var k1 := Released(k, l);
            && k1.current == k.current && k1.waiters == k.waiters && k1.th == k.th[k.current := k1.th[k.current]]
            && k1.th[k.current].priority >= k.th[k.current].base_priority
  {
    var k1 := DonorsDropped(k, l);
    OtherDonorsMembers(k.th, k.th[k.current].donations, l);
    RefreshedCovers(k1.th, k.th[k.current].base_priority, k1.th[k.current].donations);
    hide OtherDonors, SortedByPriority, Refreshed;
  }

  // ----- a priority that nothing justifies

  /** A run from start-up after which the first thread, back from `thread_set_priority(10)`, runs at 31,
      which neither its base priority nor a donor justifies. */
  lemma UnjustifiedPriority() returns (es: seq<Event>, k: State)
    ensures CanRun(Start(), es) && Reached(Start(), es) == k && AtCall(k) && k.current == MAIN
    ensures k.th[MAIN].base_priority == 10 && k.th[MAIN].priority == 31 && !Justified(k.th, k.th[MAIN])
  {
    hide Leads, Start, LoweredWitness, Justified;
    var es1 := WitnessIsReached();
    WitnessLowered(es1);
    k, es := LoweredWitness(), es1 + [SetBase(10)] + [Decide];
    LeadsFromBoot(es, k);
    hide CanRun, Reached;
  }

  ghost function LoweredWitness(): State {
    Decided(BaseWritten(Witness(), 10))
  }

  lemma WitnessLowered(es: seq<Event>)
    requires Leads(Start(), es, Witness())
    ensures Leads(Start(), es + [SetBase(10)] + [Decide], LoweredWitness())
    ensures var k := LoweredWitness();
            && AtCall(k) && k.current == MAIN && k.th[MAIN].base_priority == 10 && k.th[MAIN].priority == 31
            && !Justified(k.th, k.th[MAIN])
  {
    hide Leads, Start;
    SetPriorityStarts(Start(), es, Witness(), 10);
  }

  // ----- a release that leaves the running thread outranked

  const THIRD := 3

  /** The first thread, donor and holder as before, has raised itself to 31 and then set its priority to 10,
      which it keeps for later. */
  ghost function MainIsStale(): State {
    Two(MAIN, Thread(Running, 31, 10, 0, None, [OTHER], Normal), Thread(Blocked, 30, 30, 0, Some(1), [], Downing(OfLock(1))),
        NoneReady(), 0, None, Some(MAIN), [OTHER])
  }

  lemma MainGoesStale() returns (es: seq<Event>)
    ensures Leads(Start(), es, MainIsStale())
  {
    var es0 := MainYields();
    var es1 := OtherWaits(es0, None);
    hide Leads, Start;
    var k1 := MainIsRaised(None);
    SetPriorityRun(Start(), es1, k1, 31);
    var es2, k2 := es1 + [SetBase(31)] + [Decide] + [Assign], WithPriority(k1, 31);
    SetPriorityStarts(Start(), es2, k2, 10);
    StaleAs();
    es := es2 + [SetBase(10)] + [Decide];
  }

  lemma StaleAs()
    ensures Decided(BaseWritten(WithPriority(MainIsRaised(None), 31), 10)) == MainIsStale()
  {
  }

  /** It then creates a third thread of priority 31, and takes the free lock 0. */
  ghost function ThirdIsReady(): State
    ensures QueuesExist(MainIsStale())
  {
    Holding(Created(MainIsStale(), THIRD, 31), 0)
  }

  lemma ThirdGetsReady() returns (es: seq<Event>)
    ensures Leads(Start(), es, ThirdIsReady())
  {
    var es1 := MainGoesStale();
    hide Leads, Sound, CanStep;
    var k1 := MainIsStale();
    LeadsSafely(Start(), es1, k1);
    CreateStep(k1, THIRD, 31);
    var es2, k2 := es1 + [Create(THIRD, 31)], Created(k1, THIRD, 31);
    hide Start;
    OneMore(Start(), es1, k1, Create(THIRD, 31), k2);
    AcquireFree(Start(), es2, k2, 0);
    es := es2 + [Acquire(0)] + [Finish];
    hide Holding;
  }

  /** A run from start-up in which nobody is preempted, after which the first thread, back from releasing a
      lock that nobody waits for, runs at 30 while a thread of priority 31 is ready. Before the release no
      ready thread outranked it. */
  lemma ReleaseCanLeaveOutranked() returns (before: seq<Event>, es: seq<Event>, k: State)
    ensures Leads(Start(), before, ThirdIsReady()) && KernelEffects.TopRuns(ThirdIsReady()) && before <= es
    ensures CanRun(Start(), es) && Reached(Start(), es) == k
    ensures AtCall(k) && k.current == MAIN && k.th[MAIN].priority == 30 && !KernelEffects.TopRuns(k)
  {
    hide Leads, Sound, CanStep, Start, ThirdIsReady, Released, LockUpped, CanRun, Reached, MayUp;
    before := ThirdGetsReady();
    LeadsSafely(Start(), before, ThirdIsReady());
    ThirdFacts();
    OutrankedAs();
    es := FinishesRelease(before, ThirdIsReady(), 0);
    k := LockUpped(Released(ThirdIsReady(), 0), 0);
    LeadsFromBoot(es, k);
  }

  /** All of `lock_release`, uninterrupted, but for its yield. */
  lemma FinishesRelease(before: seq<Event>, k: State, l: Lock) returns (es: seq<Event>)
    requires Leads(Start(), before, k) && AtCall(k) && k.current != k.idle && HoldsStill(k, k.current, l)
    requires IsAt(Released(k, l), Releasing(l)) && MayUp(Released(k, l), OfLock(l))
    ensures Leads(Start(), es, LockUpped(Released(k, l), l)) && before <= es
  {
    hide Leads, Sound, CanStep, Start, Released, LockUpped, MayUp;
    ReleaseRun(Start(), before, k, l);
    var es1, k1 := before + [Drop(l)] + [Compute] + [Assign] + [LetGo], Released(k, l);
    LeadsSafely(Start(), es1, k1);
    FinishReleaseStep(k1, l);
    es := es1 + [FinishRelease];
    OneMore(Start(), es1, k1, FinishRelease, LockUpped(k1, l));
  }

  lemma ThirdFacts()
    ensures var k := ThirdIsReady(); AtCall(k) && k.current == MAIN && k.current != k.idle && HoldsStill(k, k.current, 0)
    ensures KernelEffects.TopRuns(ThirdIsReady())
  {
    hide NoneReady;
  }

  lemma OneDonor(th: Threads, base: int)
    requires OTHER in th && th[OTHER].waiting_lock == Some(1) && th[OTHER].priority == 30 && base <= 30
    ensures OtherDonors(th, [OTHER], 0) == [OTHER] && SortedByPriority(th, [OTHER]) == [OTHER] && Refreshed(th, base, [OTHER]) == 30
  {
    var rest: seq<Tid> := [];
    assert [OTHER][1..] == rest && OtherDonors(th, rest, 0) == rest && SortedByPriority(th, rest) == rest;
  }

  /** The release in the end: the priority is that of the one donor, and nothing is said to the third thread. */
  lemma OutrankedAs()
    ensures IsAt(Released(ThirdIsReady(), 0), Releasing(0)) && MayUp(Released(ThirdIsReady(), 0), OfLock(0))
    ensures var k := LockUpped(Released(ThirdIsReady(), 0), 0);
            AtCall(k) && k.current == MAIN && k.th[MAIN].priority == 30 && !KernelEffects.TopRuns(k)
  {
    var k := ThirdIsReady();
    ThirdShape();
    hide ThirdIsReady;
    ReleasedLower(k);
    hide Released;
    var k1 := Released(k, 0);
    assert k1.waiters[OfLock(0)] == [] && MayUp(k1, OfLock(0));
    var k2 := LockUpped(k1, 0);
    assert k2.th[THIRD] == k.th[THIRD] && k2.th[MAIN].priority == 30;
  }

  ghost predicate ThirdWaits(k: State) {
    && k.th.Keys == {IDLE, MAIN, OTHER, THIRD} && k.current == MAIN && k.idle == IDLE && QueuesExist(k)
    && k.th[MAIN] == Thread(Running, 31, 10, 0, None, [OTHER], Normal)
    && k.th[OTHER].waiting_lock == Some(1) && k.th[OTHER].priority == 30
    && k.th[THIRD].status.Ready? && k.th[THIRD].priority == 31
    && OfLock(0) in k.waiters && k.waiters[OfLock(0)] == [] && OfLock(0) in k.value
  }

  lemma ThirdShape()
    ensures ThirdWaits(ThirdIsReady())
  {
    hide NoneReady;
  }

  lemma ReleasedLower(k: State)
    requires ThirdWaits(k)
    ensures var k1 := Released(k, 0);
            && k1.current == k.current && k1.idle == k.idle && k1.waiters == k.waiters && k1.value == k.value && k1.ready == k.ready
            && k1.th == k.th[MAIN := k1.th[MAIN]] && k1.th[MAIN].priority == 30 && k1.th[MAIN].pc == Releasing(0) && k1.th[MAIN].status.Running?
  {
    OneDonor(k.th, 10);
    OneDonor(DonorsDropped(k, 0).th, 10);
    hide OtherDonors, SortedByPriority, Refreshed, QueuesExist;
  }

  // ----- what a preemption inside thread_set_priority or lock_release can lead to

  /** The first thread holds lock 0 and is at `pc`, with the given base priority; the other, of the same
      priority, is ready. */
  ghost function BeforeTick(pc: Pc, base: int): State {
    Two(MAIN, Simple(Running, PRI_DEFAULT, base, pc), Simple(Ready, PRI_DEFAULT, PRI_DEFAULT, Normal),
        NoneReady()[PRI_DEFAULT := [OTHER]], 3, Some(MAIN), None, [])
  }

  /** The same after a tick that ends the time slice of the first thread. */
  ghost function AfterPreemption(pc: Pc, base: int): State {
    Two(OTHER, Simple(Ready, PRI_DEFAULT, base, pc), Simple(Running, PRI_DEFAULT, PRI_DEFAULT, Normal),
        NoneReady()[PRI_DEFAULT := [MAIN]], 0, Some(MAIN), None, []).(ticks := 1, yield_on_return := true)
  }

  lemma Preempts(es: seq<Event>, pc: Pc, base: int)
    requires Leads(Start(), es, BeforeTick(pc, base))
    ensures Leads(Start(), es + [Tick], AfterPreemption(pc, base))
  {
    hide Leads, Start, Sound, CanStep, IsTop;
    LeadsSafely(Start(), es, BeforeTick(pc, base));
    MainIsPreempted(pc, base);
    SliceEnds(BeforeTick(pc, base), PRI_DEFAULT);
    hide BeforeTick, AfterPreemption, Switched;
    OneMore(Start(), es, BeforeTick(pc, base), Tick, AfterPreemption(pc, base));
  }

  lemma MainIsPreempted(pc: Pc, base: int)
    ensures var k, p := BeforeTick(pc, base), PRI_DEFAULT;
            && k.current != k.idle && k.sleepers == [] && k.thread_ticks + 1 >= TIME_SLICE
            && QueuesExist(k) && IsTop(Parked(k).ready, p) && Parked(k).ready[p][0] == OTHER
            && Switched(Parked(k), p).(ticks := k.ticks + 1, yield_on_return := true) == AfterPreemption(pc, base)
  {
    var k, p := BeforeTick(pc, base), PRI_DEFAULT;
    var r := Parked(k).ready;
    assert r[p] == [OTHER, MAIN] && r[p][1..] == [MAIN];
    assert r[p := r[p][1..]] == NoneReady()[p := [MAIN]];
  }

  /** The other thread has called `lock_acquire(0)` and waits. */
  ghost predicate RegisteredMeanwhile(k: State, pc: Pc, base: int) {
    && k.current == MAIN && MAIN in k.th && OTHER in k.th
    && k.th[MAIN] == Thread(Running, PRI_DEFAULT, base, 0, None, [OTHER], pc)
    && k.th[OTHER] == Thread(Blocked, PRI_DEFAULT, PRI_DEFAULT, 0, Some(0), [], Downing(OfLock(0)))
    && 0 in k.holder && k.holder[0] == Some(MAIN)
  }

  lemma OtherRegisters(pc: Pc, base: int)
    ensures var k := AfterPreemption(pc, base);
            && QueuesExist(k) && Meets(k, 0, MAIN) && k.th[MAIN].pc == pc && k.th[k.current].priority == PRI_DEFAULT
            && IsTop(Waiting(k, 0).ready, PRI_DEFAULT) && Waiting(k, 0).ready[PRI_DEFAULT][0] == MAIN
            && RegisteredMeanwhile(Switched(Waiting(k, 0), PRI_DEFAULT), pc, base)
  {
    var k := AfterPreemption(pc, base);
    assert Waiting(k, 0).ready[PRI_DEFAULT] == [MAIN];
    assert k.th[MAIN].donations + [OTHER] == [OTHER];
  }

  /** The acquisition by the other thread, when the first is preempted at `pc`. */
  lemma Registers(es: seq<Event>, pc: Pc, base: int) returns (k: State)
    requires Leads(Start(), es, AfterPreemption(pc, base))
    ensures Leads(Start(), es + [Acquire(0)], k) && RegisteredMeanwhile(k, pc, base)
  {
    var k0 := AfterPreemption(pc, base);
    OtherRegisters(pc, base);
    hide Leads, Start, Sound, Meets, IsTop, AfterPreemption, RegisteredMeanwhile, CanStep, Switched, Waiting;
    LeadsSafely(Start(), es, k0);
    WaitsForHolder(k0, 0, MAIN, PRI_DEFAULT);
    k := Apply(k0, Acquire(0));
    CanStepIs(k0, Acquire(0));
    OneMore(Start(), es, k0, Acquire(0), k);
  }

  lemma CanStepIs(k: State, e: Event)
    requires Sound(k, true) && Enabled(k, e)
    ensures CanStep(k, e, Apply(k, e))
  {
    hide Sound, Enabled, Apply;
  }

  /** Preempted in `thread_set_priority(10)` after it has found no donors, the first thread goes on to assign
      itself priority 10, below that of the donor registered meanwhile. */
  lemma SetPriorityCanUndercut() returns (es: seq<Event>, k: State)
    ensures CanRun(Start(), es) && Reached(Start(), es) == k && Undercuts(k, MAIN, OTHER)
  {
    var es1 := DecidesToLower();
    hide Leads, Start, BeforeTick, AfterPreemption, Undercuts, CanRun, Reached, Assigned;
    Preempts(es1, Setting(10), 10);
    var k1 := Registers(es1 + [Tick], Setting(10), 10);
    LowDonorIsUndercut(k1);
    AssignNext(Start(), es1 + [Tick] + [Acquire(0)], k1);
    es, k := es1 + [Tick] + [Acquire(0)] + [Assign], Assigned(k1);
    LeadsFromBoot(es, k);
  }

  lemma LowDonorIsUndercut(k: State)
    requires RegisteredMeanwhile(k, Setting(10), 10)
    ensures k.current in k.th && Aim(k.th[k.current].pc).Some? && Undercuts(Assigned(k), MAIN, OTHER)
  {
  }

  lemma DecidesToLower() returns (es: seq<Event>)
    ensures Leads(Start(), es, BeforeTick(Setting(10), 10))
  {
    var es1, k := TakeAndCreate(0, PRI_DEFAULT);
    LoweredAs(k);
    hide Leads, Start, BeforeTick, Decided, BaseWritten, Two;
    SetPriorityStarts(Start(), es1, k, 10);
    es := es1 + [SetBase(10)] + [Decide];
  }

  lemma LoweredAs(k: State)
    requires k == BeforeTick(Normal, PRI_DEFAULT)
    ensures AtCall(k) && var k1 := BaseWritten(k, 10); IsAt(k1, BaseSet(10)) && Decided(k1) == BeforeTick(Setting(10), 10)
  {
  }

  /** Preempted in `lock_release(0)` before it clears the holder, the first thread goes on to give the lock up
      and keeps the donor registered for it meanwhile. */
  lemma ReleaseCanKeepDonor() returns (es: seq<Event>, k: State)
    ensures CanRun(Start(), es) && Reached(Start(), es) == k && KeepsDonor(k, MAIN, OTHER, 0)
  {
    var es1 := ReleasesToTick();
    hide Leads, Start, BeforeTick, AfterPreemption, KeepsDonor, CanRun, Reached, HolderCleared, CanStep, Sound;
    Preempts(es1, Letting(0), PRI_DEFAULT);
    var k1 := Registers(es1 + [Tick], Letting(0), PRI_DEFAULT);
    var es2 := es1 + [Tick] + [Acquire(0)];
    LeadsSafely(Start(), es2, k1);
    LateDonorIsKept(k1);
    LetGoStep(k1);
    es, k := es2 + [LetGo], HolderCleared(k1);
    OneMore(Start(), es2, k1, LetGo, k);
    LeadsFromBoot(es, k);
  }

  lemma LateDonorIsKept(k: State)
    requires RegisteredMeanwhile(k, Letting(0), PRI_DEFAULT)
    ensures IsAt(k, Letting(0)) && KeepsDonor(HolderCleared(k), MAIN, OTHER, 0)
  {
  }

  lemma ReleasesToTick() returns (es: seq<Event>)
    ensures Leads(Start(), es, BeforeTick(Letting(0), PRI_DEFAULT))
  {
    var es1, k := TakeAndCreate(0, PRI_DEFAULT);
    ReleasedAs(k);
    hide Leads, Start, BeforeTick, PriorityBack, Two;
    ReleaseBegins(Start(), es1, k, 0);
    es := es1 + [Drop(0)] + [Compute] + [Assign];
  }

  lemma ReleasedAs(k: State)
    requires k == BeforeTick(Normal, PRI_DEFAULT)
    ensures AtCall(k) && k.current != k.idle && HoldsStill(k, k.current, 0) && PriorityBack(k, 0) == BeforeTick(Letting(0), PRI_DEFAULT)
  {
    assert OtherDonors(k.th, [], 0) == [];
  }
}
