/** Breadth-first search for the shortest way through a maze. */
module MazeBfs {
  type Cell = (int, int)

  datatype Option<+T> = None | Some(value: T)

  /** Rows of characters; '1' can be walked on. The first cell is never asked. */
  datatype Maze = Maze(rows: nat, cols: nat, grid: seq<string>)

  ghost predicate MazeOk(z: Maze) {
    z.rows > 0 && z.cols > 0 && |z.grid| == z.rows && forall i :: 0 <= i < z.rows ==> |z.grid[i]| == z.cols
  }

  predicate Inside(z: Maze, c: Cell) {
    0 <= c.0 < z.rows && 0 <= c.1 < z.cols
  }

  predicate Open(z: Maze, c: Cell) {
    Inside(z, c) && c.0 < |z.grid| && c.1 < |z.grid[c.0]| && z.grid[c.0][c.1] == '1'
  }

  ghost predicate Adjacent(a: Cell, b: Cell) {
    || b == (a.0, a.1 + 1) || b == (a.0 + 1, a.1) || b == (a.0, a.1 - 1) || b == (a.0 - 1, a.1)
  }

  const START: Cell := (0, 0)

  function Goal(z: Maze): Cell {
    (z.rows - 1, z.cols - 1)
  }

  /** A way from the first cell over open cells. */
  ghost predicate IsPath(z: Maze, p: seq<Cell>) {
    && |p| > 0 && p[0] == START
    && (forall i :: 0 < i < |p| ==> Open(z, p[i]))
    && forall i, j :: 0 <= i && j == i + 1 && j < |p| ==> Adjacent(p[i], p[j])
  }

  ghost predicate Leads(z: Maze, p: seq<Cell>, c: Cell) {
    IsPath(z, p) && p[|p| - 1] == c
  }

  // ----- what the search knows

  /** `dist` gives the visited cells the count with which they were queued. */
  type Distances = map<Cell, nat>

  /** Every open neighbour of `c` has been visited, at most one step further away. */
  ghost predicate Expanded(z: Maze, dist: Distances, c: Cell)
    requires c in dist
  {
    forall b :: Adjacent(c, b) && Open(z, b) ==> b in dist && dist[b] <= dist[c] + 1
  }

  ghost predicate Queued(queue: seq<(int, int, nat)>, c: Cell) {
    exists i :: 0 <= i < |queue| && (queue[i].0, queue[i].1) == c
  }

  /** Counts in the queue do not fall, and differ by at most 1; nothing visited is further than that. */
  ghost predicate InOrder(dist: Distances, queue: seq<(int, int, nat)>) {
    && (forall i :: 0 <= i < |queue| ==> (queue[i].0, queue[i].1) in dist && dist[(queue[i].0, queue[i].1)] == queue[i].2)
    && (forall i, j :: 0 <= i < j < |queue| ==> queue[i].2 <= queue[j].2)
    && (queue != [] ==> forall c :: c in dist ==> dist[c] <= queue[0].2 + 1)
  }

  /** Each visited cell is inside and can be reached with its count. */
  ghost predicate Reachable(z: Maze, dist: Distances) {
    && START in dist && dist[START] == 0
    && forall c :: c in dist ==> Inside(z, c) && exists p :: Leads(z, p, c) && |p| == dist[c] + 1
  }

  /** Whatever is visited is still in the queue, or done with. */
  ghost predicate Searching(z: Maze, dist: Distances, queue: seq<(int, int, nat)>) {
    && Reachable(z, dist) && InOrder(dist, queue)
    && forall c :: c in dist ==> Queued(queue, c) || (c != Goal(z) && Expanded(z, dist, c))
  }

  /** A path ends in a cell visited in time, or passes a cell in the queue that was. */
  lemma {:induction false} PathMeetsQueue(z: Maze, dist: Distances, queue: seq<(int, int, nat)>, p: seq<Cell>) returns (i: nat)
    requires Searching(z, dist, queue) && IsPath(z, p)
    ensures i < |p| && p[i] in dist && dist[p[i]] <= i && (i == |p| - 1 || Queued(queue, p[i]))
  {
    if |p| == 1 {
      i := 0;
    } else {
      var k := |p| - 1;
      var front := p[..k];
      i := PathMeetsQueue(z, dist, queue, front);
      if i == k - 1 && !Queued(queue, p[i]) {
        assert Expanded(z, dist, p[i]);
        assert Adjacent(p[i], p[k]) && Open(z, p[k]);
        i := k;
      }
    }
  }

  /** When the goal comes to the front, no path to it is shorter than its count says. */
  lemma GoalIsNearest(z: Maze, dist: Distances, queue: seq<(int, int, nat)>, p: seq<Cell>)
    requires Searching(z, dist, queue) && queue != [] && (queue[0].0, queue[0].1) == Goal(z) && Leads(z, p, Goal(z))
    ensures |p| >= queue[0].2 + 1
  {
    var i := PathMeetsQueue(z, dist, queue, p);
    if Queued(queue, p[i]) {
      var j :| 0 <= j < |queue| && (queue[j].0, queue[j].1) == p[i];
      assert j == 0 || queue[0].2 <= queue[j].2;
    }
  }

  /** When the queue is empty, no path leads to the goal. */
  lemma GoalOutOfReach(z: Maze, dist: Distances, p: seq<Cell>)
    requires Searching(z, dist, [])
    ensures !Leads(z, p, Goal(z))
  {
    if Leads(z, p, Goal(z)) {
      var i := PathMeetsQueue(z, dist, [], p);
    }
  }

  // ----- expanding a cell

  /** In the middle of expanding cell `c`, which has count `d` and has left the queue. */
  ghost predicate Expanding(z: Maze, dist: Distances, queue: seq<(int, int, nat)>, c: Cell, d: nat) {
    && Reachable(z, dist) && c in dist && dist[c] == d && c != Goal(z)
    && (forall i :: 0 <= i < |queue| ==> (queue[i].0, queue[i].1) in dist && dist[(queue[i].0, queue[i].1)] == queue[i].2)
    && (forall i, j :: 0 <= i < j < |queue| ==> queue[i].2 <= queue[j].2)
    && (forall i :: 0 <= i < |queue| ==> queue[i].2 >= d)
    && (forall b :: b in dist ==> dist[b] <= d + 1)
    && forall b :: b in dist ==> b == c || Queued(queue, b) || (b != Goal(z) && Expanded(z, dist, b))
  }

  ghost predicate Known(z: Maze, dist: Distances, b: Cell, d: nat) {
    Open(z, b) ==> b in dist && dist[b] <= d + 1
  }

  lemma Pop(z: Maze, dist: Distances, queue: seq<(int, int, nat)>)
    requires Searching(z, dist, queue) && queue != [] && (queue[0].0, queue[0].1) != Goal(z)
    ensures Expanding(z, dist, queue[1..], (queue[0].0, queue[0].1), queue[0].2)
  {
    var c, rest := (queue[0].0, queue[0].1), queue[1..];
    forall b | b in dist ensures b == c || Queued(rest, b) || (b != Goal(z) && Expanded(z, dist, b)) {
      if Queued(queue, b) && b != c {
        var i :| 0 <= i < |queue| && (queue[i].0, queue[i].1) == b;
        assert rest[i - 1] == queue[i];
      }
    }
  }

  /** An open neighbour not visited yet joins the queue at the end. */
  lemma Visit(z: Maze, dist: Distances, queue: seq<(int, int, nat)>, c: Cell, d: nat, b: Cell)
    requires MazeOk(z) && Expanding(z, dist, queue, c, d) && Adjacent(c, b) && Open(z, b) && b !in dist
    ensures Expanding(z, dist[b := d + 1], queue + [(b.0, b.1, d + 1)], c, d)
  {
    hide Reachable, Queued, Expanded, Open, Adjacent;
    VisitReachable(z, dist, c, d, b);
    var dist', queue' := dist[b := d + 1], queue + [(b.0, b.1, d + 1)];
    forall a | a in dist' ensures a == c || Queued(queue', a) || (a != Goal(z) && Expanded(z, dist', a)) {
      if a == b { QueuedLast(queue, b, d + 1); } else { QueuedStill(queue, a, b, d + 1); ExpandedStill(z, dist, dist', a); }
    }
  }

  lemma QueuedLast(queue: seq<(int, int, nat)>, b: Cell, d: nat)
    ensures Queued(queue + [(b.0, b.1, d)], b)
  {
    var queue' := queue + [(b.0, b.1, d)];
    assert (queue'[|queue|].0, queue'[|queue|].1) == b;
  }

  lemma QueuedStill(queue: seq<(int, int, nat)>, a: Cell, b: Cell, d: nat)
    ensures Queued(queue, a) ==> Queued(queue + [(b.0, b.1, d)], a)
  {
    if Queued(queue, a) {
      var i :| 0 <= i < |queue| && (queue[i].0, queue[i].1) == a;
      assert (queue + [(b.0, b.1, d)])[i] == queue[i];
    }
  }

  lemma ExpandedStill(z: Maze, dist: Distances, dist': Distances, a: Cell)
    requires Extends(dist, dist') && a in dist
    ensures Expanded(z, dist, a) ==> Expanded(z, dist', a)
  {
    hide Adjacent, Open;
  }

  lemma VisitReachable(z: Maze, dist: Distances, c: Cell, d: nat, b: Cell)
    requires MazeOk(z) && Reachable(z, dist) && c in dist && dist[c] == d && Adjacent(c, b) && Open(z, b) && b !in dist
    ensures Reachable(z, dist[b := d + 1])
  {
    var p :| Leads(z, p, c) && |p| == d + 1;
    var longer := p + [b];
    assert forall i :: 0 <= i < |p| ==> longer[i] == p[i];
    assert Leads(z, longer, b) && |longer| == d + 2;
  }

  lemma AllExpanded(z: Maze, dist: Distances, queue: seq<(int, int, nat)>, c: Cell, d: nat)
    requires Expanding(z, dist, queue, c, d)
    requires Known(z, dist, (c.0, c.1 + 1), d) && Known(z, dist, (c.0 + 1, c.1), d) && Known(z, dist, (c.0, c.1 - 1), d) && Known(z, dist, (c.0 - 1, c.1), d)
    ensures Searching(z, dist, queue)
  {
    assert Expanded(z, dist, c);
  }

  // ----- the search

  function Cells(z: Maze): set<Cell> {
    set x, y | 0 <= x < z.rows && 0 <= y < z.cols :: (x, y)
  }

  /** Falls when a cell leaves the queue, and when one joins it. */
  ghost function Measure(z: Maze, dist: Distances, queue: seq<(int, int, nat)>): nat {
    2 * |Cells(z) - dist.Keys| + |queue|
  }

  lemma MeasureFalls(z: Maze, dist: Distances, queue: seq<(int, int, nat)>)
    requires queue != []
    ensures Measure(z, dist, queue[1..]) < Measure(z, dist, queue)
  {
  }

  ghost predicate Extends(dist: Distances, dist': Distances) {
    forall a :: a in dist ==> a in dist' && dist'[a] == dist[a]
  }

  lemma KnownStays(z: Maze, dist: Distances, dist': Distances, b: Cell, d: nat)
    requires Known(z, dist, b, d) && Extends(dist, dist')
    ensures Known(z, dist', b, d)
  {
  }

  lemma VisitPays(z: Maze, dist: Distances, queue: seq<(int, int, nat)>, b: Cell, d: nat)
    requires Open(z, b) && b !in dist
    ensures Measure(z, dist[b := d + 1], queue + [(b.0, b.1, d + 1)]) <= Measure(z, dist, queue)
  {
    var left := Cells(z) - dist.Keys;
    assert b in left;
    assert Cells(z) - dist[b := d + 1].Keys == left - {b};
    assert |left - {b}| == |left| - 1;
  }

  lemma VisitedOnce(z: Maze, dist: Distances, queue: seq<(int, int, nat)>, c: Cell, d: nat, b: Cell)
    requires MazeOk(z) && Expanding(z, dist, queue, c, d) && Adjacent(c, b) && Open(z, b) && b !in dist
    ensures var dist', queue' := dist[b := d + 1], queue + [(b.0, b.1, d + 1)];
            && Expanding(z, dist', queue', c, d) && Measure(z, dist', queue') <= Measure(z, dist, queue)
            && Known(z, dist', b, d) && Extends(dist, dist')
  {
    hide Expanding, Adjacent, Measure;
    Visit(z, dist, queue, c, d, b);
    VisitPays(z, dist, queue, b, d);
  }

  lemma Passed(z: Maze, dist: Distances, queue: seq<(int, int, nat)>, c: Cell, d: nat, b: Cell)
    requires Expanding(z, dist, queue, c, d)
    ensures Extends(dist, dist) && ((Open(z, b) ==> b in dist) ==> Known(z, dist, b, d))
  {
  }

  /** One of the four tests of the loop. */
  method TryVisit(z: Maze, visited: array2<bool>, queue: seq<(int, int, nat)>, c: Cell, d: nat, b: Cell, ghost dist: Distances)
    returns (queue': seq<(int, int, nat)>, ghost dist': Distances)
    requires MazeOk(z) && Expanding(z, dist, queue, c, d) && Adjacent(c, b) && Marks(z, visited, dist)
    modifies visited
    ensures Expanding(z, dist', queue', c, d) && Marks(z, visited, dist') && Known(z, dist', b, d)
    ensures Extends(dist, dist') && Measure(z, dist', queue') <= Measure(z, dist, queue)
  {
    hide Expanding, Adjacent, Measure, Extends, Known;
    queue', dist' := queue, dist;
    Passed(z, dist, queue, c, d, b);
    if Open(z, b) && !visited[b.0, b.1] {
      VisitedOnce(z, dist, queue, c, d, b);
      queue' := queue + [(b.0, b.1, d + 1)];
      visited[b.0, b.1] := true;
      dist' := dist[b := d + 1];
    }
  }

  /** The four tests of the loop, in its order. */
  method Expand(z: Maze, visited: array2<bool>, start: seq<(int, int, nat)>, c: Cell, d: nat, ghost dist: Distances)
    returns (queue: seq<(int, int, nat)>, ghost dist': Distances)
    requires MazeOk(z) && Expanding(z, dist, start, c, d) && Marks(z, visited, dist)
    modifies visited
    ensures Searching(z, dist', queue) && Marks(z, visited, dist') && Measure(z, dist', queue) <= Measure(z, dist, start)
  {
    hide Searching, Expanding, Known, Extends, Measure, MazeOk, Marks;
    ghost var d1, d2, d3;
    queue, d1 := TryVisit(z, visited, start, c, d, (c.0, c.1 + 1), dist);
    queue, d2 := TryVisit(z, visited, queue, c, d, (c.0 + 1, c.1), d1);
    queue, d3 := TryVisit(z, visited, queue, c, d, (c.0, c.1 - 1), d2);
    queue, dist' := TryVisit(z, visited, queue, c, d, (c.0 - 1, c.1), d3);
    KnownStays(z, d1, d2, (c.0, c.1 + 1), d);
    KnownStays(z, d2, d3, (c.0, c.1 + 1), d);
    KnownStays(z, d3, dist', (c.0, c.1 + 1), d);
    KnownStays(z, d2, d3, (c.0 + 1, c.1), d);
    KnownStays(z, d3, dist', (c.0 + 1, c.1), d);
    KnownStays(z, d3, dist', (c.0, c.1 - 1), d);
    AllExpanded(z, dist', queue, c, d);
  }

  /** The marks stand for the cells with a distance. */
  ghost predicate Marks(z: Maze, visited: array2<bool>, dist: Distances)
    reads visited
  {
    && visited.Length0 == z.rows && visited.Length1 == z.cols
    && forall x, y :: 0 <= x < z.rows && 0 <= y < z.cols ==> (visited[x, y] <==> (x, y) in dist)
  }

  method NewMarks(z: Maze) returns (visited: array2<bool>)
    requires MazeOk(z)
    ensures fresh(visited) && Marks(z, visited, map[START := 0])
  {
    visited := new bool[z.rows, z.cols]((x, y) => false);
    visited[0, 0] := true;
  }

  /** The number of cells on a shortest way to the last cell, or nothing exactly when there is no way. */
  method ShortestWay(z: Maze) returns (r: Option<nat>)
    requires MazeOk(z)
    ensures r.Some? ==> (exists p :: Leads(z, p, Goal(z)) && |p| == r.value) && forall p :: Leads(z, p, Goal(z)) ==> |p| >= r.value
    ensures r.None? ==> forall p :: !Leads(z, p, Goal(z))
  {
    hide Searching, Expanding, Leads, Known, Reachable, InOrder, Cells, Measure, MazeOk, Marks;
    var visited := NewMarks(z);
    var queue: seq<(int, int, nat)> := [(0, 0, 0)];
    ghost var dist: Distances := map[START := 0];
    Start(z);
    while queue != []
      invariant Searching(z, dist, queue) && Marks(z, visited, dist)
      decreases Measure(z, dist, queue)
    {
      var (x, y, count) := queue[0];
      assert queue[0] == (x, y, count);
      if x == z.rows - 1 && y == z.cols - 1 {
        assert (queue[0].0, queue[0].1) == Goal(z);
        Found(z, dist, queue);
        return Some(count + 1);
      }
      Pop(z, dist, queue);
      MeasureFalls(z, dist, queue);
      queue, dist := Expand(z, visited, queue[1..], (x, y), count, dist);
    }
    forall p ensures !Leads(z, p, Goal(z)) { GoalOutOfReach(z, dist, p); }
    r := None;
  }

  lemma Start(z: Maze)
    requires MazeOk(z)
    ensures Searching(z, map[START := 0], [(0, 0, 0)])
  {
    var queue: seq<(int, int, nat)> := [(0, 0, 0)];
    assert Leads(z, [START], START) && |[START]| == 1;
    assert (queue[0].0, queue[0].1) == START;
    assert Queued(queue, START);
  }

  lemma Found(z: Maze, dist: Distances, queue: seq<(int, int, nat)>)
    requires Searching(z, dist, queue) && queue != [] && (queue[0].0, queue[0].1) == Goal(z)
    ensures exists p :: Leads(z, p, Goal(z)) && |p| == queue[0].2 + 1
    ensures forall p :: Leads(z, p, Goal(z)) ==> |p| >= queue[0].2 + 1
  {
    assert Goal(z) in dist && dist[Goal(z)] == queue[0].2;
    forall p | Leads(z, p, Goal(z)) ensures |p| >= queue[0].2 + 1 { GoalIsNearest(z, dist, queue, p); }
  }
}
