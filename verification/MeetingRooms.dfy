module MeetingRooms {
  // Choosing as many meetings as possible for one room, earliest end first.

  /** Start and end. */
  type Meeting = (int, int)

  ghost predicate MeetingsOk(s: seq<Meeting>) {
    forall m :: m in s ==> m.0 <= m.1
  }

  /** Meetings held one after the other. */
  ghost predicate Chain(c: seq<Meeting>) {
    forall i, j :: 0 <= i && j == i + 1 && j < |c| ==> c[i].1 <= c[j].0
  }

  /** A selection of meetings that one room can hold; equal meetings count as often as they are listed. */
  ghost predicate Schedule(c: seq<Meeting>, s: seq<Meeting>) {
    Chain(c) && multiset(c) <= multiset(s)
  }

  /** The order of the sort: by end, then by start. */
  predicate NotAfter(a: Meeting, b: Meeting) {
    a.1 < b.1 || (a.1 == b.1 && a.0 <= b.0)
  }

  ghost predicate Sorted(s: seq<Meeting>) {
    forall i, j :: 0 <= i < j < |s| ==> NotAfter(s[i], s[j])
  }

  lemma InSelection(c: seq<Meeting>, s: seq<Meeting>, m: Meeting)
    requires multiset(c) <= multiset(s) && m in c
    ensures m in s
  {
    assert m in multiset(c);
    assert m in multiset(s);
  }

  /** In a chain of meetings none of which comes after `x` in the order, what follows an occurrence of `x`
      starts and ends when `x` ends. */
  lemma {:induction false} Tail(c: seq<Meeting>, x: Meeting, p: nat, j: nat)
    requires Chain(c) && p < j < |c| && c[p] == x && forall m :: m in c ==> NotAfter(m, x) && m.0 <= m.1
    ensures c[j] == (x.1, x.1)
    decreases j - p
  {
    var k := j - 1;
    if k > p { Tail(c, x, p, k); }
    assert c[k].1 <= c[j].0;
    assert c[j] in c;
  }

  /** Taking an occurrence of `x` out of such a chain leaves a chain that `x` can follow. */
  lemma TakeOut(c: seq<Meeting>, x: Meeting, p: nat)
    requires Chain(c) && p < |c| && c[p] == x && forall m :: m in c ==> NotAfter(m, x) && m.0 <= m.1
    ensures var d := c[..p] + c[p + 1..]; Chain(d) && (d != [] ==> d[|d| - 1].1 <= x.0)
    ensures c[|c| - 1].1 == x.1
  {
    var d, last := c[..p] + c[p + 1..], |c| - 1;
    var prev, next := p - 1, p + 1;
    assert p > 0 ==> c[prev].1 <= c[p].0;
    if p < last {
      Tail(c, x, p, next);
      Tail(c, x, p, last);
      assert c[next] in c;
    }
    forall i, j | 0 <= i && j == i + 1 && j < |d| ensures d[i].1 <= d[j].0 {
      var i', j' := if i < p then i else i + 1, if j < p then j else j + 1;
      assert d[i] == c[i'] && d[j] == c[j'];
    }
  }

  /** A schedule that uses the last meeting of a sorted list can be rearranged to end with it. */
  lemma MoveToEnd(c: seq<Meeting>, s: seq<Meeting>, x: Meeting) returns (d: seq<Meeting>)
    requires Sorted(s + [x]) && MeetingsOk(s + [x]) && Schedule(c, s + [x]) && !(multiset(c) <= multiset(s))
    ensures Schedule(d, s) && |c| == |d| + 1 && (d != [] ==> d[|d| - 1].1 <= x.0)
    ensures c != [] && c[|c| - 1].1 == x.1
  {
    hide Sorted, Chain, NotAfter;
    var p := LastMinusWitness(c, s, x);
    d := c[..p] + c[p + 1..];
    TakenOut(c, p);
    forall m | m in c ensures NotAfter(m, x) && m.0 <= m.1 { InSelection(c, s + [x], m); NotAfterLast(s, x, m); }
    TakeOut(c, x, p);
  }

  lemma TakenOut(c: seq<Meeting>, p: nat)
    requires p < |c|
    ensures multiset(c[..p] + c[p + 1..]) == multiset(c) - multiset{c[p]}
  {
    assert c == c[..p] + [c[p]] + c[p + 1..];
  }

  lemma NotAfterLast(s: seq<Meeting>, x: Meeting, m: Meeting)
    requires Sorted(s + [x]) && m in s + [x]
    ensures NotAfter(m, x)
  {
    var t := s + [x];
    var i :| 0 <= i < |t| && t[i] == m;
    assert t[|s|] == x;
    assert i < |s| ==> NotAfter(t[i], t[|s|]);
  }

  /** What a selection from a longer list has too much for the shorter one is the element added. */
  lemma LastMinusWitness(c: seq<Meeting>, s: seq<Meeting>, x: Meeting) returns (p: nat)
    requires multiset(c) <= multiset(s + [x]) && !(multiset(c) <= multiset(s))
    ensures p < |c| && c[p] == x && multiset(c) - multiset{x} <= multiset(s)
  {
    assert multiset(s + [x]) == multiset(s) + multiset{x};
    var m :| multiset(c)[m] > multiset(s)[m];
    assert m == x;
    assert x in multiset(c);
    p :| 0 <= p < |c| && c[p] == x;
  }

  /** The bound that `Ahead` puts on every schedule. */
  ghost predicate NoMore(c: seq<Meeting>, count: nat, end: int) {
    |c| < count || (|c| == count && c != [] && c[|c| - 1].1 >= end)
  }

  /** `count` meetings of `s` can be held, ending at `end`; no schedule has more, and none of that many ends
      earlier. */
  ghost predicate Ahead(s: seq<Meeting>, count: nat, end: int) {
    && (exists c: seq<Meeting> :: Schedule(c, s) && |c| == count && c != [] && c[|c| - 1].1 == end)
    && forall c: seq<Meeting> :: Schedule(c, s) ==> NoMore(c, count, end)
  }

  /** The best schedule so far, with `x` appended when it ends early enough. */
  lemma StepReached(s: seq<Meeting>, x: Meeting, best: seq<Meeting>)
    requires Schedule(best, s) && best != [] && Sorted(s + [x]) && MeetingsOk(s + [x])
    ensures best[|best| - 1].1 <= x.1 && Schedule(best, s + [x])
    ensures best[|best| - 1].1 <= x.0 ==> Schedule(best + [x], s + [x])
  {
    hide Sorted, MeetingsOk, NotAfter;
    var last := best[|best| - 1];
    assert multiset(s + [x]) == multiset(s) + multiset{x};
    InSelection(best, s, last);
    NotAfterLast(s, x, last);
    EndsBy(last, x);
    assert multiset(best + [x]) == multiset(best) + multiset{x};
  }

  lemma EndsBy(a: Meeting, b: Meeting)
    requires NotAfter(a, b)
    ensures a.1 <= b.1
  {
  }

  /** No schedule of the longer list does better. */
  lemma StepBound(s: seq<Meeting>, x: Meeting, count: nat, end: int, c: seq<Meeting>)
    requires Ahead(s, count, end) && Sorted(s + [x]) && MeetingsOk(s + [x]) && count > 0 && end <= x.1
    requires Schedule(c, s + [x])
    ensures if end <= x.0 then NoMore(c, count + 1, x.1) else NoMore(c, count, end)
  {
    hide Sorted, MeetingsOk, NotAfter, Chain;
    if multiset(c) <= multiset(s) {
      assert Schedule(c, s);
    } else {
      var d := MoveToEnd(c, s, x);
      assert Schedule(d, s);
    }
  }

  lemma Step(s: seq<Meeting>, x: Meeting, count: nat, end: int)
    requires Ahead(s, count, end) && Sorted(s + [x]) && MeetingsOk(s + [x]) && count > 0
    ensures if end <= x.0 then Ahead(s + [x], count + 1, x.1) else Ahead(s + [x], count, end)
  {
    hide Sorted, MeetingsOk, Schedule, NotAfter;
    var best: seq<Meeting> :| Schedule(best, s) && |best| == count && best != [] && best[|best| - 1].1 == end;
    StepReached(s, x, best);
    if end <= x.0 {
      var more := best + [x];
      assert Schedule(more, s + [x]) && |more| == count + 1 && more[|more| - 1] == x;
    }
    forall c: seq<Meeting> | Schedule(c, s + [x])
      ensures if end <= x.0 then NoMore(c, count + 1, x.1) else NoMore(c, count, end)
    {
      StepBound(s, x, count, end, c);
    }
  }

  /** The first meeting of the sorted list ends first. */
  lemma First(x: Meeting)
    ensures Ahead([x], 1, x.1)
  {
    assert Schedule([x], [x]);
    forall c: seq<Meeting> | Schedule(c, [x]) ensures NoMore(c, 1, x.1) {
      SizeOfSub(c, [x]);
      if c != [] { InSelection(c, [x], c[|c| - 1]); }
    }
  }

  lemma SizeOfSub(c: seq<Meeting>, s: seq<Meeting>)
    requires multiset(c) <= multiset(s)
    ensures |c| <= |s|
  {
    assert multiset(s) == (multiset(s) - multiset(c)) + multiset(c);
    assert |multiset(c)| == |c| && |multiset(s)| == |s|;
  }

  // ----- the program

  /** The sort by (end, start). */
  function InsertMeeting(s: seq<Meeting>, x: Meeting): seq<Meeting> {
    if s == [] || NotAfter(x, s[0]) then [x] + s else [s[0]] + InsertMeeting(s[1..], x)
  }

  function SortMeetings(s: seq<Meeting>): seq<Meeting> {
    if s == [] then [] else InsertMeeting(SortMeetings(s[1..]), s[0])
  }

  lemma {:induction false} InsertSorted(s: seq<Meeting>, x: Meeting)
    requires Sorted(s)
    ensures Sorted(InsertMeeting(s, x)) && multiset(InsertMeeting(s, x)) == multiset(s) + multiset{x}
  {
    if s != [] && !NotAfter(x, s[0]) {
      var rest := s[1..];
      assert s == [s[0]] + rest;
      InsertSorted(rest, x);
      var r := InsertMeeting(rest, x);
      forall j | 0 <= j < |r| ensures NotAfter(s[0], r[j]) {
        assert r[j] in multiset(r);
        if r[j] != x { assert r[j] in rest; }
      }
    }
  }

  lemma {:induction false} SortIsSorted(s: seq<Meeting>)
    ensures Sorted(SortMeetings(s)) && multiset(SortMeetings(s)) == multiset(s)
  {
    if s != [] {
      assert s == [s[0]] + s[1..];
      SortIsSorted(s[1..]);
      InsertSorted(SortMeetings(s[1..]), s[0]);
    }
  }

  /** The count printed is the greatest number of meetings that one room can hold. */
  method Assign(meetings: seq<Meeting>) returns (count: nat)
    requires meetings != [] && MeetingsOk(meetings)
    ensures exists c: seq<Meeting> :: Schedule(c, meetings) && |c| == count
    ensures forall c: seq<Meeting> :: Schedule(c, meetings) ==> |c| <= count
  {
    hide Ahead, Sorted, MeetingsOk, Schedule, SortMeetings;
    SortIsSorted(meetings);
    var meeting := SortMeetings(meetings);
    StillOk(meetings, meeting);
    assert |multiset(meeting)| == |multiset(meetings)|;
    var firstmeet := meeting[0].1;
    count := 1;
    First(meeting[0]);
    assert meeting[..1] == [meeting[0]];
    var k := 1;
    while k < |meeting|
      invariant 1 <= k <= |meeting| && count > 0 && Ahead(meeting[..k], count, firstmeet)
    {
      var (i, j) := meeting[k];
      assert meeting[..k + 1] == meeting[..k] + [meeting[k]];
      Prefix(meeting, k + 1);
      Step(meeting[..k], meeting[k], count, firstmeet);
      if firstmeet <= i {
        firstmeet := j;
        count := count + 1;
      }
      k := k + 1;
    }
    assert meeting[..k] == meeting;
    Transfer(meeting, meetings, count, firstmeet);
  }

  lemma StillOk(s: seq<Meeting>, t: seq<Meeting>)
    requires MeetingsOk(s) && multiset(t) == multiset(s)
    ensures MeetingsOk(t)
  {
    forall m | m in t ensures m.0 <= m.1 {
      assert m in multiset(t);
      assert m in multiset(s);
    }
  }

  lemma Prefix(s: seq<Meeting>, k: nat)
    requires Sorted(s) && MeetingsOk(s) && k <= |s|
    ensures Sorted(s[..k]) && MeetingsOk(s[..k])
  {
  }

  lemma Transfer(s: seq<Meeting>, t: seq<Meeting>, count: nat, end: int)
    requires Ahead(s, count, end) && multiset(s) == multiset(t)
    ensures exists c: seq<Meeting> :: Schedule(c, t) && |c| == count
    ensures forall c: seq<Meeting> :: Schedule(c, t) ==> |c| <= count
  {
    var c: seq<Meeting> :| Schedule(c, s) && |c| == count;
    assert Schedule(c, t);
    forall c: seq<Meeting> | Schedule(c, t) ensures |c| <= count { assert Schedule(c, s); }
  }
}
