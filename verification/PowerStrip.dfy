module PowerStrip {
  // The power-strip problem: farthest-next-use replacement, and why it is optimal.
  //
  // A strip with `aum` sockets serves the devices of `cum` in turn. The program keeps the plugged devices in
  // a list and, when it must make room, unplugs the device whose next use lies farthest ahead. The
  // competitors are arbitrary: any sequence of plugged sets, lazy or not, looking at the whole of `cum`.

  type Device = int

  /** The first use of `d` at or after `i`, or `|cum|` when there is none. */
  function NextUse(cum: seq<Device>, i: nat, d: Device): (k: nat)
    requires i <= |cum|
    ensures i <= k <= |cum|
    ensures k < |cum| ==> cum[k] == d
    ensures forall j :: i <= j < k ==> cum[j] != d
    decreases |cum| - i
  {
    if i == |cum| || cum[i] == d then i else NextUse(cum, i + 1, d)
  }

  /** `sched[i]` is what is plugged in while request `i` is served. */
  ghost predicate IsSchedule(cum: seq<Device>, aum: nat, sched: seq<set<Device>>) {
    && |sched| == |cum|
    && forall i :: 0 <= i < |cum| ==> cum[i] in sched[i] && |sched[i]| <= aum
  }

  /** What is plugged in after the first `i` requests; the strip starts empty. */
  ghost function Plugged(sched: seq<set<Device>>, i: nat): set<Device>
    requires i <= |sched|
  {
    if i == 0 then {} else sched[i - 1]
  }

  /** Devices pulled out during the first `i` requests. */
  ghost function Unplugs(sched: seq<set<Device>>, i: nat): nat
    requires i <= |sched|
  {
    if i == 0 then 0
    else Unplugs(sched, i - 1) + |Plugged(sched, i - 1) - Plugged(sched, i)|
  }

  /** Devices put in during the first `i` requests. */
  ghost function Plugins(sched: seq<set<Device>>, i: nat): nat
    requires i <= |sched|
  {
    if i == 0 then 0
    else Plugins(sched, i - 1) + |Plugged(sched, i) - Plugged(sched, i - 1)|
  }

  /** `count` unplugs are enough, and no schedule gets by with fewer. */
  ghost predicate IsLeastUnplugs(cum: seq<Device>, aum: nat, count: nat) {
    && (exists sched :: IsSchedule(cum, aum, sched) && Unplugs(sched, |cum|) == count)
    && (forall sched :: IsSchedule(cum, aum, sched) ==> count <= Unplugs(sched, |cum|))
  }

  // ----- bookkeeping over one schedule

  lemma {:induction false} PlugConservation(sched: seq<set<Device>>, i: nat)
    requires i <= |sched|
    ensures Plugins(sched, i) == Unplugs(sched, i) + |Plugged(sched, i)|
  {
    if i > 0 {
      PlugConservation(sched, i - 1);
      Exchange(Plugged(sched, i - 1), Plugged(sched, i));
    }
  }

  lemma Exchange(a: set<Device>, b: set<Device>)
    ensures |b| == |a| - |a - b| + |b - a|
  {
    assert a == (a - b) + (a * b);
    assert b == (b - a) + (a * b);
  }

  lemma {:induction false} CountsLocal(s: seq<set<Device>>, t: seq<set<Device>>, i: nat)
    requires i <= |s| && i <= |t| && s[..i] == t[..i]
    ensures Plugged(s, i) == Plugged(t, i)
    ensures Unplugs(s, i) == Unplugs(t, i) && Plugins(s, i) == Plugins(t, i)
  {
    if i > 0 {
      assert s[..i][i - 1] == t[..i][i - 1];
      assert s[..i - 1] == s[..i][..i - 1] && t[..i - 1] == t[..i][..i - 1];
      CountsLocal(s, t, i - 1);
    }
  }

  // ----- the measure of how well a plugged set is placed for the future

  /** The devices of `S` needed again before time `t`, seen from request `i`. */
  ghost function NeededBefore(cum: seq<Device>, i: nat, S: set<Device>, t: int): set<Device>
    requires i <= |cum|
  {
    set x | x in S && NextUse(cum, i, x) < t
  }

  /** How far a strip holding `S`, after `plugins` insertions, may lag behind a competitor holding
      `T` after `others` insertions: for every horizon, what the competitor still has ready
      is paid for by insertions it made already. */
  ghost predicate NotBehind(cum: seq<Device>, i: nat, S: set<Device>, plugins: nat, T: set<Device>, others: nat)
    requires i <= |cum|
  {
    && plugins <= others
    && forall t :: i < t <= |cum| ==> PaidFor(cum, i, S, plugins, T, others, t)
  }

  ghost predicate PaidFor(cum: seq<Device>, i: nat, S: set<Device>, plugins: nat, T: set<Device>, others: nat, t: int)
    requires i <= |cum|
  {
    plugins + |NeededBefore(cum, i, T, t)| <= others + |NeededBefore(cum, i, S, t)|
  }

  /** Serving request `i`, a competitor gains at most its insertions, less the one use it consumed. */
  lemma CompetitorGain(cum: seq<Device>, i: nat, T: set<Device>, T': set<Device>, t: int)
    requires i < |cum| && cum[i] in T' && i < t
    ensures |NeededBefore(cum, i + 1, T', t)| + 1 <=
            |NeededBefore(cum, i, T, t)| + |T' - T| + (if NextUse(cum, i + 1, cum[i]) < t then 1 else 0)
  {
    var r := cum[i];
    var before, after := NeededBefore(cum, i, T, t), NeededBefore(cum, i + 1, T', t);
    var bound := (before - {r}) + ((T' - T) - {r});
    forall x | x in after && x != r ensures x in bound {
      assert NextUse(cum, i, x) == NextUse(cum, i + 1, x);
    }
    assert after - {r} <= bound;
    Subset(after - {r}, bound);
    assert NextUse(cum, i, r) == i;
    assert r in before || r in T' - T;
    assert |bound| <= |before - {r}| + |(T' - T) - {r}|;
    assert r in after <==> NextUse(cum, i + 1, r) < t;
  }

  lemma {:induction false} Subset<T>(a: set<T>, b: set<T>)
    requires a <= b
    ensures |a| <= |b|
  {
    assert b == a + (b - a);
  }

  /** What the strip itself keeps, when it serves request `i` by moving from `S` to `S'`
      and drops nothing but possibly `gone`. */
  lemma OwnLoss(cum: seq<Device>, i: nat, S: set<Device>, S': set<Device>, gone: set<Device>, t: int)
    requires i < |cum| && i < t
    requires S' == (S - gone) + {cum[i]} && cum[i] !in gone
    requires forall x :: x in gone ==> NextUse(cum, i + 1, x) >= t
    ensures |NeededBefore(cum, i + 1, S', t)| + (if cum[i] in S then 1 else 0) >=
            |NeededBefore(cum, i, S, t)| + (if NextUse(cum, i + 1, cum[i]) < t then 1 else 0)
  {
    var r := cum[i];
    var before, after := NeededBefore(cum, i, S, t), NeededBefore(cum, i + 1, S', t);
    assert NextUse(cum, i, r) == i;
    forall x | x in before && x != r ensures x in after {
      assert NextUse(cum, i, x) == NextUse(cum, i + 1, x);
    }
    Subset(before - {r}, after - {r});
    assert r in after <==> NextUse(cum, i + 1, r) < t;
    assert r in before <==> r in S;
  }

  /** A hit changes nothing and costs nothing. */
  lemma HitKeepsUp(cum: seq<Device>, i: nat, S: set<Device>, plugins: nat, T: set<Device>, others: nat, T': set<Device>)
    requires i < |cum| && NotBehind(cum, i, S, plugins, T, others)
    requires cum[i] in S && cum[i] in T'
    ensures NotBehind(cum, i + 1, S, plugins, T', others + |T' - T|)
  {
    var i', others' := i + 1, others + |T' - T|;
    forall t | i' < t <= |cum| ensures PaidFor(cum, i', S, plugins, T', others', t) {
      assert PaidFor(cum, i, S, plugins, T, others, t);
      CompetitorGain(cum, i, T, T', t);
      OwnLoss(cum, i, S, S, {}, t);
    }
  }

  /** A miss is paid for: the competitor either held the device, and so was ahead, or inserts it now. */
  lemma MissIsPaid(cum: seq<Device>, i: nat, S: set<Device>, plugins: nat, T: set<Device>, others: nat, T': set<Device>)
    requires i < |cum| && NotBehind(cum, i, S, plugins, T, others)
    requires cum[i] !in S && cum[i] in T'
    ensures plugins + 1 <= others + |T' - T|
  {
    var r := cum[i];
    if r in T {
      assert NextUse(cum, i, r) == i;
      assert r in NeededBefore(cum, i, T, i + 1);
      assert forall x :: x in S ==> NextUse(cum, i, x) != i;
      assert NeededBefore(cum, i, S, i + 1) == {};
      assert PaidFor(cum, i, S, plugins, T, others, i + 1);
    } else {
      assert r in T' - T;
    }
  }

  /** A miss that fills a free socket, or evicts a device needed no sooner than any other. */
  lemma MissKeepsUp(cum: seq<Device>, aum: nat, i: nat, S: set<Device>, S': set<Device>, gone: set<Device>, plugins: nat,
                    T: set<Device>, others: nat, T': set<Device>)
    requires i < |cum| && NotBehind(cum, i, S, plugins, T, others)
    requires cum[i] !in S && cum[i] in T' && |T'| <= aum
    requires S' == (S - gone) + {cum[i]} && gone <= S
    requires gone == {} || exists f :: gone == {f} && |S| == aum && Farthest(cum, i, S, f)
    ensures NotBehind(cum, i + 1, S', plugins + 1, T', others + |T' - T|)
  {
    MissIsPaid(cum, i, S, plugins, T, others, T');
    var i', others', plugins' := i + 1, others + |T' - T|, plugins + 1;
    forall t | i' < t <= |cum| ensures PaidFor(cum, i', S', plugins', T', others', t) {
      assert PaidFor(cum, i, S, plugins, T, others, t);
      if forall x :: x in gone ==> NextUse(cum, i + 1, x) >= t {
        CompetitorGain(cum, i, T, T', t);
        OwnLoss(cum, i, S, S', gone, t);
      } else {
        EverythingNeeded(cum, aum, i, S, S', gone, T', t);
      }
    }
  }

  ghost predicate Farthest(cum: seq<Device>, i: nat, S: set<Device>, f: Device)
    requires i < |cum|
  {
    f in S && forall x :: x in S ==> NextUse(cum, i + 1, x) <= NextUse(cum, i + 1, f)
  }

  /** If even the evicted device was needed before `t`, every socket holds something needed before
      `t`, and no competitor can hold more. */
  lemma EverythingNeeded(cum: seq<Device>, aum: nat, i: nat, S: set<Device>, S': set<Device>, gone: set<Device>,
                         T': set<Device>, t: int)
    requires i < |cum| && cum[i] !in S && cum[i] in T' && |T'| <= aum
    requires S' == (S - gone) + {cum[i]} && gone <= S
    requires exists f :: gone == {f} && |S| == aum && Farthest(cum, i, S, f)
    requires exists x :: x in gone && NextUse(cum, i + 1, x) < t
    ensures |NeededBefore(cum, i + 1, T', t)| <= |NeededBefore(cum, i + 1, S', t)|
  {
    var r := cum[i];
    var f :| gone == {f} && |S| == aum && Farthest(cum, i, S, f);
    var theirs, ours := NeededBefore(cum, i + 1, T', t), NeededBefore(cum, i + 1, S', t);
    assert NextUse(cum, i + 1, f) < t;
    Subset(S - {f}, ours - {r});
    Subset(theirs - {r}, T' - {r});
    assert r in theirs <==> r in ours;
  }

  // ----- the program

  /** Where the program looks up the next use of `device` after request `i`: -1 for "never". */
  method FindNextUse(cum: seq<Device>, i: nat, device: Device) returns (next_use: int)
    requires i < |cum|
    ensures next_use == (if NextUse(cum, i + 1, device) < |cum| then NextUse(cum, i + 1, device) else -1)
  {
    next_use := -1;
    for k := i + 1 to |cum|
      invariant NextUse(cum, i + 1, device) == NextUse(cum, k, device)
    {
      if cum[k] == device {
        return k;
      }
    }
  }

  /** The list index of the device to unplug: one that is never needed again if there is one,
      otherwise the one needed last. */
  method ChooseVictim(cum: seq<Device>, i: nat, plug: seq<Device>) returns (remove_index: int)
    requires i < |cum| && plug != []
    ensures 0 <= remove_index < |plug|
    ensures forall j :: 0 <= j < |plug| ==> NextUse(cum, i + 1, plug[j]) <= NextUse(cum, i + 1, plug[remove_index])
  {
    remove_index := -1;
    var farthest := -1;
    for j := 0 to |plug|
      invariant if j == 0 then remove_index == farthest == -1
                else 0 <= remove_index < j && farthest == NextUse(cum, i + 1, plug[remove_index]) < |cum|
      invariant forall m :: 0 <= m < j ==> NextUse(cum, i + 1, plug[m]) <= farthest
    {
      var next_use := FindNextUse(cum, i, plug[j]);
      if next_use == -1 {
        remove_index := j;
        break;
      }
      if next_use > farthest {
        farthest := next_use;
        remove_index := j;
      }
    }
  }

  ghost function Devices(plug: seq<Device>): set<Device> {
    set x | x in plug
  }

  ghost predicate Distinct(plug: seq<Device>) {
    forall a, b :: 0 <= a < b < |plug| ==> plug[a] != plug[b]
  }

  lemma {:induction false} DevicesCount(plug: seq<Device>)
    requires Distinct(plug)
    ensures |Devices(plug)| == |plug|
  {
    if plug != [] {
      var rest := plug[..|plug| - 1];
      DevicesCount(rest);
      assert plug == rest + [plug[|plug| - 1]];
      assert Devices(plug) == Devices(rest) + {plug[|plug| - 1]};
    }
  }

  lemma DevicesMembership(plug: seq<Device>, d: Device)
    ensures d in plug <==> d in Devices(plug)
  {
  }

  lemma FarthestOnList(cum: seq<Device>, i: nat, plug: seq<Device>, k: nat)
    requires i < |cum| && k < |plug|
    requires forall j :: 0 <= j < |plug| ==> NextUse(cum, i + 1, plug[j]) <= NextUse(cum, i + 1, plug[k])
    ensures Farthest(cum, i, Devices(plug), plug[k])
  {
  }

  lemma DevicesAppended(plug: seq<Device>, now: Device)
    requires Distinct(plug) && now !in plug
    ensures Distinct(plug + [now]) && Devices(plug + [now]) == Devices(plug) + {now}
  {
    var next := plug + [now];
    assert next[|plug|] == now;
    forall x | x in Devices(plug) ensures x in Devices(next) {
      var j :| 0 <= j < |plug| && plug[j] == x;
      assert next[j] == x;
    }
  }

  lemma DevicesReplaced(plug: seq<Device>, k: nat, now: Device)
    requires k < |plug| && Distinct(plug) && now !in plug
    ensures Distinct(plug[k := now]) && Devices(plug[k := now]) == (Devices(plug) - {plug[k]}) + {now}
  {
    var next := plug[k := now];
    forall x | x in Devices(next) ensures x in (Devices(plug) - {plug[k]}) + {now} {
      var j :| 0 <= j < |next| && next[j] == x;
    }
    assert next[k] == now;
    forall x | x in Devices(plug) && x != plug[k] ensures x in Devices(next) {
      var j :| 0 <= j < |plug| && plug[j] == x;
      assert next[j] == x;
    }
  }

  /** Every schedule is still kept up with after `i` requests. */
  ghost predicate AheadOfAll(cum: seq<Device>, aum: nat, i: nat, S: set<Device>, plugins: nat)
    requires i <= |cum|
  {
    forall sched :: IsSchedule(cum, aum, sched) ==>
      NotBehind(cum, i, S, plugins, Plugged(sched, i), Plugins(sched, i))
  }

  lemma AheadOfAllHit(cum: seq<Device>, aum: nat, i: nat, S: set<Device>, plugins: nat)
    requires i < |cum| && AheadOfAll(cum, aum, i, S, plugins) && cum[i] in S
    ensures AheadOfAll(cum, aum, i + 1, S, plugins)
  {
    forall sched | IsSchedule(cum, aum, sched)
      ensures NotBehind(cum, i + 1, S, plugins, Plugged(sched, i + 1), Plugins(sched, i + 1))
    {
      HitKeepsUp(cum, i, S, plugins, Plugged(sched, i), Plugins(sched, i), Plugged(sched, i + 1));
    }
  }

  lemma AheadOfAllMiss(cum: seq<Device>, aum: nat, i: nat, S: set<Device>, S': set<Device>, gone: set<Device>, plugins: nat)
    requires i < |cum| && AheadOfAll(cum, aum, i, S, plugins) && cum[i] !in S
    requires S' == (S - gone) + {cum[i]} && gone <= S
    requires gone == {} || exists f :: gone == {f} && |S| == aum && Farthest(cum, i, S, f)
    ensures AheadOfAll(cum, aum, i + 1, S', plugins + 1)
  {
    forall sched | IsSchedule(cum, aum, sched)
      ensures NotBehind(cum, i + 1, S', plugins + 1, Plugged(sched, i + 1), Plugins(sched, i + 1))
    {
      MissKeepsUp(cum, aum, i, S, S', gone, plugins, Plugged(sched, i), Plugins(sched, i), Plugged(sched, i + 1));
    }
  }

  /** Fewest insertions means fewest removals, because a strip that ever unplugged stays full. */
  lemma FewestUnplugs(cum: seq<Device>, aum: nat, S: set<Device>, count: nat, run: seq<set<Device>>)
    requires Progress(cum, aum, |cum|, S, count, run)
    ensures IsLeastUnplugs(cum, aum, count)
  {
    assert IsSchedule(cum, aum, run);
    forall sched | IsSchedule(cum, aum, sched) ensures Unplugs(run, |cum|) <= Unplugs(sched, |cum|) {
      PlugConservation(run, |cum|);
      PlugConservation(sched, |cum|);
    }
  }

  /** What is known after `i` requests: `run` is the schedule served so far, and it ends with `S`. */
  ghost predicate Progress(cum: seq<Device>, aum: nat, i: nat, S: set<Device>, count: nat, run: seq<set<Device>>) {
    && i == |run| <= |cum| && |S| <= aum
    && (forall j :: 0 <= j < i ==> cum[j] in run[j] && |run[j]| <= aum)
    && Plugged(run, i) == S && Unplugs(run, i) == count
    && (count > 0 ==> |S| == aum)
    && AheadOfAll(cum, aum, i, S, Plugins(run, i))
  }

  /** Adding one more moment to a run adds its own insertions and removals, and nothing else. */
  lemma LongerRun(run: seq<set<Device>>, S: set<Device>)
    ensures var longer := run + [S]; var i := |run|;
      && Plugged(longer, i + 1) == S
      && Unplugs(longer, i + 1) == Unplugs(run, i) + |Plugged(run, i) - S|
      && Plugins(longer, i + 1) == Plugins(run, i) + |S - Plugged(run, i)|
  {
    CountsLocal(run, run + [S], |run|);
  }

  lemma HitProgress(cum: seq<Device>, aum: nat, i: nat, S: set<Device>, count: nat, run: seq<set<Device>>)
    requires i < |cum| && Progress(cum, aum, i, S, count, run) && cum[i] in S
    ensures Progress(cum, aum, i + 1, S, count, run + [S])
  {
    hide AheadOfAll, Unplugs, Plugins;
    AheadOfAllHit(cum, aum, i, S, Plugins(run, i));
    LongerRun(run, S);
  }

  /** `gone` is empty when a socket was free, and otherwise holds the one victim. */
  lemma MissProgress(cum: seq<Device>, aum: nat, i: nat, S: set<Device>, count: nat, run: seq<set<Device>>,
                     S': set<Device>, gone: set<Device>)
    requires i < |cum| && Progress(cum, aum, i, S, count, run) && cum[i] !in S
    requires gone <= S && S' == (S - gone) + {cum[i]}
    requires if gone == {} then |S| < aum
             else |S| == aum && exists f :: gone == {f} && Farthest(cum, i, S, f)
    ensures Progress(cum, aum, i + 1, S', count + |gone|, run + [S'])
  {
    hide AheadOfAll, Farthest, Unplugs, Plugins;
    AheadOfAllMiss(cum, aum, i, S, S', gone, Plugins(run, i));
    LongerRun(run, S');
    assert S - S' == gone;
    assert S' - S == {cum[i]};
  }

  lemma FillProgress(cum: seq<Device>, aum: nat, i: nat, S: set<Device>, count: nat, run: seq<set<Device>>)
    requires i < |cum| && Progress(cum, aum, i, S, count, run) && cum[i] !in S && |S| < aum
    ensures Progress(cum, aum, i + 1, S + {cum[i]}, count, run + [S + {cum[i]}])
  {
    hide Progress;
    MissProgress(cum, aum, i, S, count, run, S + {cum[i]}, {});
  }

  lemma EvictProgress(cum: seq<Device>, aum: nat, i: nat, S: set<Device>, count: nat, run: seq<set<Device>>, f: Device)
    requires i < |cum| && Progress(cum, aum, i, S, count, run) && cum[i] !in S && |S| == aum
    requires Farthest(cum, i, S, f)
    ensures var S' := (S - {f}) + {cum[i]}; Progress(cum, aum, i + 1, S', count + 1, run + [S'])
  {
    hide Progress;
    MissProgress(cum, aum, i, S, count, run, (S - {f}) + {cum[i]}, {f});
  }

  /** The live loop of the program: the printed count is the least possible. */
  method CountUnplugs(aum: nat, cum: seq<Device>) returns (count: nat)
    requires aum >= 1
    ensures IsLeastUnplugs(cum, aum, count)
  {
    var plug: seq<Device> := [];
    count := 0;
    ghost var run: seq<set<Device>> := [];
    for i := 0 to |cum|
      invariant Distinct(plug) && |plug| == |Devices(plug)| <= aum
      invariant Progress(cum, aum, i, Devices(plug), count, run)
    {
      hide Progress, Distinct, Devices, Farthest;
      var now := cum[i];
      ghost var S := Devices(plug);
      DevicesMembership(plug, now);
      if now in plug {
        HitProgress(cum, aum, i, S, count, run);
      } else if |plug| < aum {
        FillProgress(cum, aum, i, S, count, run);
        DevicesAppended(plug, now);
        plug := plug + [now];
      } else {
        var remove_index := ChooseVictim(cum, i, plug);
        FarthestOnList(cum, i, plug, remove_index);
        EvictProgress(cum, aum, i, S, count, run, plug[remove_index]);
        DevicesReplaced(plug, remove_index, now);
        plug := plug[remove_index := now];
        count := count + 1;
      }
      DevicesCount(plug);
      run := run + [Devices(plug)];
    }
    FewestUnplugs(cum, aum, Devices(plug), count, run);
  }
}
