/** Thread records of the Pintos threads subsystem, and the list operations it uses on them, as
    functions on sequences of thread identifiers. */
module KernelLists {

  type Tid = int
  type Lock = int

  datatype Option<+T> = None | Some(value: T)

  datatype Sema = Plain(id: int) | OfLock(lock: Lock)

  datatype Status = Running | Ready | Blocked | Dying

  /** Where a thread continues when it runs again: nothing special; inside the loop of `sema_down`; past
      a successful `sema_down` of `lock_acquire`; inside `timer_sleep`; in `thread_set_priority` with the
      base priority written (`BaseSet`) or with its tests done and priority `n` about to be assigned
      (`Setting`); or in `lock_release` with the donors of the lock dropped (`Dropped`), with the new
      priority computed (`Refreshing`), with it assigned (`Letting`), or with the holder cleared
      (`Releasing`). */
  datatype Pc = Normal | Downing(sema: Sema) | GotLock(lock: Lock) | Sleeping
              | BaseSet(n: int) | Setting(n: int)
              | Dropped(lock: Lock) | Refreshing(lock: Lock, n: int) | Letting(lock: Lock) | Releasing(lock: Lock)

  /** The priority that the thread is about to assign to itself, computed before now. */
  function Aim(pc: Pc): Option<int> {
    match pc
    case Setting(n) => Some(n)
    case Refreshing(_, n) => Some(n)
    case _ => None
  }

  /** The lock that the thread is about to give up: its donors are dropped, its holder not yet cleared. */
  function GivingUp(pc: Pc): Option<Lock> {
    match pc
    case Dropped(l) => Some(l)
    case Refreshing(l, _) => Some(l)
    case Letting(l) => Some(l)
    case _ => None
  }

  /** In `thread_set_priority`, where the base priority may exceed the priority. */
  predicate Raising(pc: Pc) {
    pc.BaseSet? || pc.Setting?
  }

  /** Inside `thread_set_priority`, or inside `lock_release` before its holder is cleared: places where
      the thread can be preempted between reading its donors and acting on what it read. */
  predicate InWindow(pc: Pc) {
    Raising(pc) || GivingUp(pc).Some?
  }

  datatype Thread = Thread(status: Status, priority: int, base_priority: int, wakeup_tick: int,
                           waiting_lock: Option<Lock>, donations: seq<Tid>, pc: Pc)

  type Threads = map<Tid, Thread>

  function Pri(th: Threads, t: Tid): int {
    if t in th then th[t].priority else 0
  }

  function WakeupTick(th: Threads, t: Tid): int {
    if t in th then th[t].wakeup_tick else 0
  }

  function Max(a: int, b: int): int {
    if a < b then b else a
  }

  ghost predicate Distinct(s: seq<Tid>) {
    forall i, j :: 0 <= i < j < |s| ==> s[i] != s[j]
  }

  // ----- list_push_back, list_pop_front, list_remove

  lemma AppendMembers(s: seq<Tid>, t: Tid)
    requires Distinct(s) && t !in s
    ensures Distinct(s + [t]) && forall x :: x in s + [t] <==> x in s || x == t
  {
  }

  lemma TailMembers(s: seq<Tid>)
    requires Distinct(s) && s != []
    ensures Distinct(s[1..]) && forall x :: x in s[1..] <==> x in s && x != s[0]
  {
    assert s == [s[0]] + s[1..];
  }

  /** `list_remove`. */
  function Without(s: seq<Tid>, t: Tid): seq<Tid> {
    if s == [] then []
    else if s[0] == t then s[1..]
    else [s[0]] + Without(s[1..], t)
  }

  lemma {:induction false} WithoutMembers(s: seq<Tid>, t: Tid)
    requires Distinct(s)
    ensures Distinct(Without(s, t))
    ensures forall x :: x in Without(s, t) <==> x in s && x != t
  {
    if s != [] {
      assert s == [s[0]] + s[1..];
      assert s[0] !in s[1..];
      WithoutMembers(s[1..], t);
      assert s[0] != t ==> Without(s, t) == [s[0]] + Without(s[1..], t);
    }
  }

  // ----- list_max by priority

  /** The first of the threads of greatest priority. */
  function FirstMax(th: Threads, s: seq<Tid>): Tid {
    if |s| == 0 then 0
    else if |s| == 1 then s[0]
    else
      var m := FirstMax(th, s[..|s| - 1]);
      if Pri(th, m) < Pri(th, s[|s| - 1]) then s[|s| - 1] else m
  }

  /** It is a member, nothing outranks it, and it is the earliest such member. */
  lemma {:induction false} FirstMaxIsFirst(th: Threads, s: seq<Tid>)
    requires s != []
    ensures exists i :: 0 <= i < |s| && s[i] == FirstMax(th, s) && forall j :: 0 <= j < i ==> Pri(th, s[j]) < Pri(th, s[i])
    ensures forall t :: t in s ==> Pri(th, t) <= Pri(th, FirstMax(th, s))
    ensures FirstMax(th, s) in s
  {
    if |s| > 1 {
      var front := s[..|s| - 1];
      assert s == front + [s[|s| - 1]];
      FirstMaxIsFirst(th, front);
      var i :| 0 <= i < |front| && front[i] == FirstMax(th, front) && forall j :: 0 <= j < i ==> Pri(th, front[j]) < Pri(th, front[i]);
      var k := if Pri(th, front[i]) < Pri(th, s[|s| - 1]) then |s| - 1 else i;
      assert s[k] == FirstMax(th, s);
      forall j | 0 <= j < k ensures Pri(th, s[j]) < Pri(th, s[k]) {
        assert s[j] == front[j];
        assert front[j] in front;
      }
    } else {
      assert s[0] == FirstMax(th, s);
    }
  }

  // ----- list_insert_ordered by wakeup tick

  /** Insertion before the first thread that wakes strictly later. */
  function InsertByTick(th: Threads, s: seq<Tid>, t: Tid, tick: int): seq<Tid> {
    if s == [] || tick < WakeupTick(th, s[0]) then [t] + s
    else [s[0]] + InsertByTick(th, s[1..], t, tick)
  }

  ghost predicate WakesInOrder(th: Threads, s: seq<Tid>) {
    forall i, j :: 0 <= i < j < |s| ==> WakeupTick(th, s[i]) <= WakeupTick(th, s[j])
  }

  lemma {:induction false} InsertByTickMembers(th: Threads, s: seq<Tid>, t: Tid, tick: int)
    requires Distinct(s) && t !in s
    ensures Distinct(InsertByTick(th, s, t, tick))
    ensures forall x :: x in InsertByTick(th, s, t, tick) <==> x in s || x == t
  {
    if s != [] && tick >= WakeupTick(th, s[0]) {
      assert s == [s[0]] + s[1..];
      assert s[0] !in s[1..];
      InsertByTickMembers(th, s[1..], t, tick);
    }
  }

  /** The result is ordered, whatever the old tick of the thread inserted. */
  lemma {:induction false} InsertByTickOrdered(th: Threads, s: seq<Tid>, t: Tid, v: Thread)
    requires Distinct(s) && t !in s && WakesInOrder(th, s)
    ensures WakesInOrder(th[t := v], InsertByTick(th, s, t, v.wakeup_tick))
  {
    var r := InsertByTick(th, s, t, v.wakeup_tick);
    if s != [] && v.wakeup_tick >= WakeupTick(th, s[0]) {
      var rest := s[1..];
      assert s == [s[0]] + rest;
      InsertByTickOrdered(th, rest, t, v);
      InsertByTickMembers(th, rest, t, v.wakeup_tick);
      var r1 := InsertByTick(th, rest, t, v.wakeup_tick);
      assert r == [s[0]] + r1;
      forall x | x in r1 ensures WakeupTick(th[t := v], s[0]) <= WakeupTick(th[t := v], x) {
        assert x == t || x in rest;
        if x != t { var j :| 0 <= j < |rest| && rest[j] == x; assert s[j + 1] == x; }
      }
      forall i, j | 0 <= i < j < |r| ensures WakeupTick(th[t := v], r[i]) <= WakeupTick(th[t := v], r[j]) {
        assert r[j] == r1[j - 1];
        if i > 0 { assert r[i] == r1[i - 1]; } else { assert r1[j - 1] in r1; }
      }
    } else {
      assert r == [t] + s;
      forall i, j | 0 <= i < j < |r| ensures WakeupTick(th[t := v], r[i]) <= WakeupTick(th[t := v], r[j]) {
        assert r[j] == s[j - 1];
        assert WakeupTick(th, s[0]) <= WakeupTick(th, s[j - 1]);
        if i > 0 { assert r[i] == s[i - 1]; }
      }
    }
  }

  // ----- list_sort by priority, highest first

  function InsertByPriority(th: Threads, t: Tid, s: seq<Tid>): seq<Tid> {
    if s == [] || Pri(th, t) >= Pri(th, s[0]) then [t] + s
    else [s[0]] + InsertByPriority(th, t, s[1..])
  }

  /** A stable sort: earlier members stay before later ones of the same priority. */
  function SortedByPriority(th: Threads, s: seq<Tid>): seq<Tid> {
    if s == [] then [] else InsertByPriority(th, s[0], SortedByPriority(th, s[1..]))
  }

  lemma {:induction false} InsertByPriorityMembers(th: Threads, t: Tid, s: seq<Tid>)
    requires Distinct(s) && t !in s
    ensures Distinct(InsertByPriority(th, t, s))
    ensures forall x :: x in InsertByPriority(th, t, s) <==> x in s || x == t
  {
    if s != [] && Pri(th, t) < Pri(th, s[0]) {
      assert s == [s[0]] + s[1..];
      assert s[0] !in s[1..];
      InsertByPriorityMembers(th, t, s[1..]);
    }
  }

  ghost predicate Heads(th: Threads, s: seq<Tid>) {
    forall t :: t in s ==> Pri(th, t) <= Pri(th, s[0])
  }

  lemma {:induction false} SortedMembers(th: Threads, s: seq<Tid>)
    requires Distinct(s)
    ensures Distinct(SortedByPriority(th, s))
    ensures forall x :: x in SortedByPriority(th, s) <==> x in s
    ensures s == [] <==> SortedByPriority(th, s) == []
    ensures Heads(th, SortedByPriority(th, s))
  {
    if s != [] {
      assert s == [s[0]] + s[1..];
      assert s[0] !in s[1..];
      SortedMembers(th, s[1..]);
      InsertByPriorityMembers(th, s[0], SortedByPriority(th, s[1..]));
    }
  }
}
