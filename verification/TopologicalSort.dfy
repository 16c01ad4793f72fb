module TopologicalSort {
  // Kahn's topological sort of a directed multigraph, with cycle detection.

  type Vertex = nat
  type Edges = seq<(Vertex, Vertex)>

  datatype Option<+T> = None | Some(value: T)

  ghost predicate Distinct(s: seq<Vertex>) {
    forall i, j :: 0 <= i < j < |s| ==> s[i] != s[j]
  }

  // ----- walks and orders

  /** Consecutive vertices are joined by edges. */
  ghost predicate IsWalk(es: Edges, p: seq<Vertex>) {
    |p| > 0 && forall i, j :: 0 <= i && j == i + 1 && j < |p| ==> (p[i], p[j]) in es
  }

  ghost predicate IsCycle(es: Edges, p: seq<Vertex>) {
    IsWalk(es, p) && |p| > 1 && p[0] == p[|p| - 1]
  }

  ghost predicate Acyclic(es: Edges) {
    forall p :: !IsCycle(es, p)
  }

  /** `u` stands before `v`. */
  ghost predicate Before(s: seq<Vertex>, u: Vertex, v: Vertex) {
    exists i, j :: 0 <= i < j < |s| && s[i] == u && s[j] == v
  }

  /** A permutation of the vertices in which every edge points forward. */
  ghost predicate IsOrder(n: nat, es: Edges, s: seq<Vertex>) {
    && Distinct(s) && (forall v: nat :: v in s <==> v < n)
    && forall e :: e in es ==> Before(s, e.0, e.1)
  }

  /** Along a walk, positions in an order rise. */
  lemma {:induction false} WalkRises(n: nat, es: Edges, s: seq<Vertex>, p: seq<Vertex>)
    requires IsOrder(n, es, s) && IsWalk(es, p) && |p| > 1
    ensures Before(s, p[0], p[|p| - 1])
    decreases |p|
  {
    var k := |p| - 1;
    var i := k - 1;
    assert (p[i], p[k]) in es;
    if i > 0 {
      var front := p[..k];
      WalkRises(n, es, s, front);
      BeforeIsTransitive(s, p[0], p[i], p[k]);
    }
  }

  lemma BeforeIsTransitive(s: seq<Vertex>, u: Vertex, v: Vertex, w: Vertex)
    requires Distinct(s) && Before(s, u, v) && Before(s, v, w)
    ensures Before(s, u, w)
  {
    var i, j :| 0 <= i < j < |s| && s[i] == u && s[j] == v;
    var k, l :| 0 <= k < l < |s| && s[k] == v && s[l] == w;
    assert j == k;
  }

  lemma OrderMeansAcyclic(n: nat, es: Edges, s: seq<Vertex>)
    requires IsOrder(n, es, s)
    ensures Acyclic(es)
  {
    NotBeforeItself(s);
    forall p ensures !IsCycle(es, p) {
      if IsCycle(es, p) {
        WalkRises(n, es, s, p);
        assert false;
      }
    }
  }

  lemma NotBeforeItself(s: seq<Vertex>)
    requires Distinct(s)
    ensures forall v :: !Before(s, v, v)
  {
  }

  // ----- where every vertex has a predecessor, there is a cycle

  ghost predicate HasPredecessor(es: Edges, U: set<Vertex>, v: Vertex) {
    exists u :: u in U && (u, v) in es
  }

  lemma {:induction false} DistinctFits(s: seq<Vertex>, U: set<Vertex>)
    requires Distinct(s) && forall v :: v in s ==> v in U
    ensures |s| <= |U|
    decreases |s|
  {
    if s != [] {
      var rest := s[1..];
      assert s == [s[0]] + rest && s[0] !in rest;
      DistinctFits(rest, U - {s[0]});
    }
  }

  lemma LongerWalk(es: Edges, w: seq<Vertex>, u: Vertex) returns (longer: seq<Vertex>)
    requires IsWalk(es, w) && Distinct(w) && (u, w[0]) in es
    ensures longer == [u] + w && IsWalk(es, longer) && (u !in w ==> Distinct(longer))
  {
    longer := [u] + w;
    assert forall j :: 1 <= j < |longer| ==> longer[j] == w[j - 1];
  }

  /** A walk that can be preceded by one of its own vertices closes a cycle. */
  lemma ClosedWalk(es: Edges, w: seq<Vertex>, u: Vertex) returns (p: seq<Vertex>)
    requires IsWalk(es, w) && u in w && (u, w[0]) in es
    ensures IsCycle(es, p) && forall v :: v in p ==> v in w
  {
    var i :| 0 <= i < |w| && w[i] == u;
    p := [u] + w[..i + 1];
    assert forall j :: 1 <= j < |p| ==> p[j] == w[j - 1];
  }

  /** A walk without repetition is extended backwards until it bites its own tail. */
  lemma {:induction false} FindCycle(es: Edges, U: set<Vertex>, w: seq<Vertex>) returns (p: seq<Vertex>)
    requires IsWalk(es, w) && Distinct(w) && forall v :: v in w ==> v in U
    requires forall v :: v in U ==> HasPredecessor(es, U, v)
    ensures IsCycle(es, p) && forall v :: v in p ==> v in U
    decreases |U| - |w|
  {
    DistinctFits(w, U);
    assert HasPredecessor(es, U, w[0]);
    var u :| u in U && (u, w[0]) in es;
    var longer := LongerWalk(es, w, u);
    if u in w {
      p := ClosedWalk(es, w, u);
    } else {
      DistinctFits(longer, U);
      p := FindCycle(es, U, longer);
    }
  }

  // ----- counting edges

  /** Neighbours in the order of the edge list. */
  function Adjacent(es: Edges, x: Vertex): seq<Vertex> {
    if es == [] then []
    else (if es[0].0 == x then [es[0].1] else []) + Adjacent(es[1..], x)
  }

  function Occurrences(s: seq<Vertex>, v: Vertex): nat {
    if s == [] then 0 else (if s[0] == v then 1 else 0) + Occurrences(s[1..], v)
  }

  /** The number of edges into `v` from outside `done`. */
  function InDegree(es: Edges, v: Vertex, done: set<Vertex>): nat {
    if es == [] then 0
    else (if es[0].1 == v && es[0].0 !in done then 1 else 0) + InDegree(es[1..], v, done)
  }

  lemma {:induction false} OccurrencesOfConcat(a: seq<Vertex>, b: seq<Vertex>, v: Vertex)
    ensures Occurrences(a + b, v) == Occurrences(a, v) + Occurrences(b, v)
  {
    if a == [] { assert a + b == b; }
    else {
      assert (a + b)[1..] == a[1..] + b;
      OccurrencesOfConcat(a[1..], b, v);
    }
  }

  /** Finishing `x` takes away the edges from `x`. */
  lemma {:induction false} FinishVertex(es: Edges, v: Vertex, done: set<Vertex>, x: Vertex)
    requires x !in done
    ensures InDegree(es, v, done) == InDegree(es, v, done + {x}) + Occurrences(Adjacent(es, x), v)
  {
    if es != [] {
      FinishVertex(es[1..], v, done, x);
      OccurrencesOfConcat(if es[0].0 == x then [es[0].1] else [], Adjacent(es[1..], x), v);
    }
  }

  lemma {:induction false} ZeroMeansDone(es: Edges, v: Vertex, done: set<Vertex>)
    ensures InDegree(es, v, done) == 0 <==> forall u :: (u, v) in es ==> u in done
  {
    if es != [] {
      assert es == [es[0]] + es[1..];
      ZeroMeansDone(es[1..], v, done);
      assert es[0] == (es[0].0, es[0].1);
    }
  }

  lemma {:induction false} AddNeighbour(es: Edges, e: (Vertex, Vertex), x: Vertex)
    ensures Adjacent(es + [e], x) == Adjacent(es, x) + (if e.0 == x then [e.1] else [])
  {
    var last: seq<Vertex> := if e.0 == x then [e.1] else [];
    if es == [] {
      assert es + [e] == [e] && [e][1..] == [];
      assert Adjacent([e], x) == last + Adjacent([], x) == last;
    } else {
      var first: seq<Vertex> := if es[0].0 == x then [es[0].1] else [];
      assert (es + [e])[0] == es[0] && (es + [e])[1..] == es[1..] + [e];
      AddNeighbour(es[1..], e, x);
      assert Adjacent(es + [e], x) == first + (Adjacent(es[1..], x) + last);
      assert first + (Adjacent(es[1..], x) + last) == (first + Adjacent(es[1..], x)) + last;
    }
  }

  lemma {:induction false} AddDegree(es: Edges, e: (Vertex, Vertex), x: Vertex)
    ensures InDegree(es + [e], x, {}) == InDegree(es, x, {}) + (if e.1 == x then 1 else 0)
  {
    if es == [] {
      assert es + [e] == [e] && [e][1..] == [];
    } else {
      assert (es + [e])[0] == es[0] && (es + [e])[1..] == es[1..] + [e];
      AddDegree(es[1..], e, x);
    }
  }

  // ----- the algorithm

  ghost predicate EdgesOk(n: nat, es: Edges) {
    forall e :: e in es ==> e.0 < n && e.1 < n
  }

  ghost function Done(s: seq<Vertex>): set<Vertex> {
    set v | v in s
  }

  /** In the middle of handling the last vertex of `result`, with `rest` of its neighbours to come:
      `result` and `queue` together hold, without repetition, the vertices whose degree has come down to 0,
      each after all its predecessors. */
  ghost predicate Progress(n: nat, es: Edges, result: seq<Vertex>, queue: seq<Vertex>, deg: seq<int>, rest: seq<Vertex>) {
    && |deg| == n && Distinct(result + queue) && (forall v :: v in result + queue ==> v < n)
    && (forall v: nat {:trigger DegreeOk(es, result, deg, rest, v)} :: v < n ==> DegreeOk(es, result, deg, rest, v))
    && (forall v: nat :: v < n ==> (v in result + queue <==> deg[v] == 0))
    && forall e :: e in es && e.1 in result + queue ==> Before(result + queue, e.0, e.1)
  }

  ghost predicate DegreeOk(es: Edges, result: seq<Vertex>, deg: seq<int>, rest: seq<Vertex>, v: nat)
    requires v < |deg|
  {
    deg[v] == InDegree(es, v, Done(result)) + Occurrences(rest, v)
  }

  /** The first vertex of the queue moves to the result, and its neighbours come next. */
  lemma Dequeue(n: nat, es: Edges, result: seq<Vertex>, queue: seq<Vertex>, deg: seq<int>)
    requires Progress(n, es, result, queue, deg, []) && queue != []
    ensures Progress(n, es, result + [queue[0]], queue[1..], deg, Adjacent(es, queue[0]))
  {
    var x := queue[0];
    assert result + queue == (result + [x]) + queue[1..];
    assert (result + queue)[|result|] == x;
    assert forall i :: 0 <= i < |result| ==> (result + queue)[i] == result[i];
    assert x !in result;
    assert Done(result + [x]) == Done(result) + {x};
    forall v: nat | v < n ensures DegreeOk(es, result + [x], deg, Adjacent(es, x), v) {
      assert DegreeOk(es, result, deg, [], v);
      FinishVertex(es, v, Done(result), x);
    }
    hide Adjacent, InDegree, Occurrences, Distinct, Before;
  }

  /** One neighbour less. */
  function Lowered(deg: seq<int>, v: Vertex): seq<int>
    requires v < |deg|
  {
    deg[v := deg[v] - 1]
  }

  lemma LowerDegrees(n: nat, es: Edges, result: seq<Vertex>, queue: seq<Vertex>, deg: seq<int>, rest: seq<Vertex>)
    requires Progress(n, es, result, queue, deg, rest) && rest != [] && rest[0] < n
    ensures var deg' := Lowered(deg, rest[0]);
            && deg[rest[0]] > 0 && rest[0] !in result + queue
            && forall v: nat :: v < n ==> DegreeOk(es, result, deg', rest[1..], v)
  {
    var x, deg' := rest[0], Lowered(deg, rest[0]);
    assert DegreeOk(es, result, deg, rest, x);
    forall v: nat | v < n ensures DegreeOk(es, result, deg', rest[1..], v) { assert DegreeOk(es, result, deg, rest, v); }
    hide InDegree, Distinct, Before, Done;
  }

  /** A vertex whose degree has not come down to 0 is not queued. */
  lemma PassOver(n: nat, es: Edges, result: seq<Vertex>, queue: seq<Vertex>, deg: seq<int>, rest: seq<Vertex>)
    requires Progress(n, es, result, queue, deg, rest) && rest != [] && rest[0] < n && deg[rest[0]] != 1
    ensures Progress(n, es, result, queue, Lowered(deg, rest[0]), rest[1..])
  {
    LowerDegrees(n, es, result, queue, deg, rest);
    hide InDegree, Distinct, Before, Occurrences, DegreeOk;
  }

  /** A vertex whose degree comes down to 0 has all its predecessors in the result, and is queued. */
  lemma Enqueue(n: nat, es: Edges, result: seq<Vertex>, queue: seq<Vertex>, deg: seq<int>, rest: seq<Vertex>)
    requires Progress(n, es, result, queue, deg, rest) && rest != [] && rest[0] < n && deg[rest[0]] == 1
    ensures Progress(n, es, result, queue + [rest[0]], Lowered(deg, rest[0]), rest[1..])
  {
    LowerDegrees(n, es, result, queue, deg, rest);
    var x, deg' := rest[0], Lowered(deg, rest[0]);
    var s := result + queue;
    assert DegreeOk(es, result, deg', rest[1..], x);
    ZeroMeansDone(es, x, Done(result));
    assert result + (queue + [x]) == s + [x];
    hide InDegree, Occurrences, DegreeOk;
    forall e | e in es && e.1 in s + [x] ensures Before(s + [x], e.0, e.1) {
      if e.1 == x {
        assert e == (e.0, x) && e.0 in result;
        EarlierThanLast(result, queue, e.0, x);
      } else {
        BeforeStays(s, x, e.0, e.1);
      }
    }
  }

  lemma EarlierThanLast(a: seq<Vertex>, b: seq<Vertex>, u: Vertex, x: Vertex)
    requires u in a
    ensures Before(a + b + [x], u, x)
  {
    var i :| 0 <= i < |a| && a[i] == u;
    var s := a + b + [x];
    assert s[i] == u && s[|s| - 1] == x;
  }

  lemma BeforeStays(s: seq<Vertex>, x: Vertex, u: Vertex, v: Vertex)
    requires Before(s, u, v)
    ensures Before(s + [x], u, v)
  {
    var i, j :| 0 <= i < j < |s| && s[i] == u && s[j] == v;
    assert (s + [x])[i] == u && (s + [x])[j] == v;
  }

  /** With an empty queue and all vertices handled, everything is in order. */
  lemma FinishOrder(n: nat, es: Edges, result: seq<Vertex>, deg: seq<int>)
    requires EdgesOk(n, es) && Progress(n, es, result, [], deg, []) && |result| == n
    ensures IsOrder(n, es, result)
  {
    assert result + [] == result;
    BelowFacts(n);
    DistinctSize(result);
    SubsetSize(Done(result), Below(n));
    hide InDegree, DegreeOk, Before;
    forall v: nat | v < n ensures v in result { assert v in Done(result); }
  }

  ghost function LeftOver(n: nat, result: seq<Vertex>): set<Vertex> {
    Below(n) - Done(result)
  }

  lemma LeftOverHasPredecessor(n: nat, es: Edges, result: seq<Vertex>, deg: seq<int>, v: Vertex)
    requires EdgesOk(n, es) && Progress(n, es, result, [], deg, []) && v in LeftOver(n, result)
    ensures HasPredecessor(es, LeftOver(n, result), v)
  {
    assert result + [] == result;
    BelowFacts(n);
    hide Before, Distinct;
    assert DegreeOk(es, result, deg, [], v);
    ZeroMeansDone(es, v, Done(result));
    var u :| (u, v) in es && u !in Done(result);
    assert (u, v).0 < n;
  }

  /** With an empty queue and vertices left over, these contain a cycle. */
  lemma FinishCycle(n: nat, es: Edges, result: seq<Vertex>, deg: seq<int>)
    requires EdgesOk(n, es) && Progress(n, es, result, [], deg, []) && |result| != n
    ensures exists p :: IsCycle(es, p) && forall v :: v in p ==> v < n && v !in result
  {
    SomeLeftOver(n, es, result, deg);
    forall v | v in LeftOver(n, result) ensures HasPredecessor(es, LeftOver(n, result), v) {
      LeftOverHasPredecessor(n, es, result, deg, v);
    }
    hide Progress, HasPredecessor, IsCycle, EdgesOk;
    var v :| v in LeftOver(n, result);
    var p := FindCycle(es, LeftOver(n, result), [v]);
    BelowFacts(n);
    assert IsCycle(es, p);
  }

  lemma SomeLeftOver(n: nat, es: Edges, result: seq<Vertex>, deg: seq<int>)
    requires Progress(n, es, result, [], deg, []) && |result| != n
    ensures exists v :: v in LeftOver(n, result)
  {
    assert result + [] == result;
    BelowFacts(n);
    DistinctSize(result);
    hide Before, DegreeOk;
    SubsetSize(Done(result), Below(n));
    var v :| v in Below(n) - Done(result);
    assert v in LeftOver(n, result);
  }

  ghost function Below(n: nat): set<Vertex> {
    if n == 0 then {} else Below(n - 1) + {n - 1}
  }

  lemma {:induction false} BelowFacts(n: nat)
    ensures |Below(n)| == n && forall v: nat :: v in Below(n) <==> v < n
  {
    if n > 0 { BelowFacts(n - 1); }
  }

  lemma {:induction false} DistinctSize(s: seq<Vertex>)
    requires Distinct(s)
    ensures |Done(s)| == |s|
  {
    if s != [] {
      var rest := s[..|s| - 1];
      assert s == rest + [s[|s| - 1]] && s[|s| - 1] !in rest;
      DistinctSize(rest);
      assert Done(s) == Done(rest) + {s[|s| - 1]};
    } else {
      assert Done(s) == {};
    }
  }

  lemma {:induction false} SubsetSize(a: set<Vertex>, b: set<Vertex>)
    requires a <= b
    ensures |a| <= |b| && (|a| == |b| ==> a == b) && (|a| != |b| ==> exists v :: v in b - a)
  {
    var rest := b - a;
    assert b == a + rest && a !! rest;
    assert |b| == |a| + |rest|;
    if |rest| > 0 { NonEmpty(rest); }
  }

  lemma NonEmpty(s: set<Vertex>)
    requires |s| > 0
    ensures exists v :: v in s
  {
    if forall v :: v !in s { assert false; }
  }

  /** The graph as lists of neighbours, and the in-degrees. */
  method BuildGraph(n: nat, es: Edges) returns (graph: seq<seq<Vertex>>, in_degree: array<int>)
    requires EdgesOk(n, es)
    ensures fresh(in_degree) && |graph| == in_degree.Length == n
    ensures forall v: nat :: v < n ==> graph[v] == Adjacent(es, v) && in_degree[v] == InDegree(es, v, {})
  {
    graph := seq(n, _ => []);
    in_degree := new int[n](_ => 0);
    var k := 0;
    while k < |es|
      invariant k <= |es| && |graph| == n
      invariant forall v: nat :: v < n ==> graph[v] == Adjacent(es[..k], v) && in_degree[v] == InDegree(es[..k], v, {})
    {
      var (i, j) := es[k];
      assert es[k] in es;
      forall v: nat | v < n
        ensures Adjacent(es[..k + 1], v) == Adjacent(es[..k], v) + (if i == v then [j] else [])
        ensures InDegree(es[..k + 1], v, {}) == InDegree(es[..k], v, {}) + (if j == v then 1 else 0)
      {
        assert es[..k + 1] == es[..k] + [es[k]];
        AddNeighbour(es[..k], es[k], v);
        AddDegree(es[..k], es[k], v);
      }
      hide Adjacent, InDegree;
      graph := graph[i := graph[i] + [j]];
      in_degree[j] := in_degree[j] + 1;
      k := k + 1;
    }
    assert es[..k] == es;
  }

  /** The neighbours of a finished vertex. */
  method Relax(n: nat, neighbours: seq<Vertex>, in_degree: array<int>, start: seq<Vertex>, ghost es: Edges, ghost result: seq<Vertex>)
    returns (queue: seq<Vertex>)
    requires Progress(n, es, result, start, in_degree[..], neighbours) && forall v :: v in neighbours ==> v < n
    modifies in_degree
    ensures Progress(n, es, result, queue, in_degree[..], [])
  {
    queue := start;
    var k := 0;
    assert neighbours[0..] == neighbours;
    hide Progress;
    while k < |neighbours|
      invariant k <= |neighbours| && Progress(n, es, result, queue, in_degree[..], neighbours[k..])
    {
      var i := neighbours[k];
      ghost var deg := in_degree[..];
      assert i in neighbours;
      assert neighbours[k..][1..] == neighbours[k + 1..] && neighbours[k..][0] == i;
      DegreesFit(n, es, result, queue, deg, neighbours[k..]);
      in_degree[i] := in_degree[i] - 1;
      assert in_degree[..] == Lowered(deg, i);
      if in_degree[i] == 0 {
        Enqueue(n, es, result, queue, deg, neighbours[k..]);
        queue := queue + [i];
      } else {
        PassOver(n, es, result, queue, deg, neighbours[k..]);
      }
      k := k + 1;
    }
    assert neighbours[k..] == [];
  }

  lemma DegreesFit(n: nat, es: Edges, result: seq<Vertex>, queue: seq<Vertex>, deg: seq<int>, rest: seq<Vertex>)
    requires Progress(n, es, result, queue, deg, rest)
    ensures |deg| == n && forall v :: v in result + queue ==> v < n
  {
  }

  /** What the queue reaches: distinct vertices, each after all its predecessors; and every vertex left out
      has a predecessor left out, so that the queue can reach no more. */
  ghost predicate IsReached(n: nat, es: Edges, reached: seq<Vertex>) {
    && Distinct(reached) && (forall v :: v in reached ==> v < n)
    && (forall u, v :: (u, v) in es && v in reached ==> Before(reached, u, v))
    && forall v :: v in LeftOver(n, reached) ==> HasPredecessor(es, LeftOver(n, reached), v)
  }

  lemma ReachedAll(n: nat, es: Edges, result: seq<Vertex>, deg: seq<int>)
    requires EdgesOk(n, es) && Progress(n, es, result, [], deg, [])
    ensures IsReached(n, es, result)
  {
    assert result + [] == result;
    forall v | v in LeftOver(n, result) ensures HasPredecessor(es, LeftOver(n, result), v) {
      LeftOverHasPredecessor(n, es, result, deg, v);
    }
    hide DegreeOk, HasPredecessor;
  }

  /** Returns an order exactly when the graph is acyclic; otherwise there is a cycle among the vertices that
      the queue never reached. */
  method TopologicalSort(vertices: nat, edges: Edges) returns (r: Option<seq<Vertex>>, ghost reached: seq<Vertex>)
    requires EdgesOk(vertices, edges)
    ensures r.Some? <==> Acyclic(edges)
    ensures r.Some? ==> IsOrder(vertices, edges, r.value)
    ensures r.None? ==> exists p :: IsCycle(edges, p) && forall v :: v in p ==> v < vertices && v !in reached
    ensures IsReached(vertices, edges, reached) && (r.Some? ==> reached == r.value)
  {
    var graph, in_degree := BuildGraph(vertices, edges);
    var queue: seq<Vertex> := [];
    var i := 0;
    while i < vertices
      invariant i <= vertices && Distinct(queue)
      invariant forall v: nat :: v in queue <==> v < i && in_degree[v] == 0
    {
      if in_degree[i] == 0 { queue := queue + [i]; }
      i := i + 1;
    }
    var result: seq<Vertex> := [];
    Start(vertices, edges, queue, in_degree[..]);
    NeighboursFit(vertices, edges);
    hide Progress, Adjacent, InDegree, IsReached;
    while queue != []
      invariant Progress(vertices, edges, result, queue, in_degree[..], [])
      decreases vertices - |result|
    {
      DegreesFit(vertices, edges, result, queue, in_degree[..], []);
      Room(vertices, edges, result, queue, in_degree[..]);
      Dequeue(vertices, edges, result, queue, in_degree[..]);
      var x := queue[0];
      assert x in result + queue;
      queue := queue[1..];
      result := result + [x];
      queue := Relax(vertices, graph[x], in_degree, queue, edges, result);
    }
    reached := result;
    ReachedAll(vertices, edges, result, in_degree[..]);
    if |result| != vertices {
      FinishCycle(vertices, edges, result, in_degree[..]);
      return None, reached;
    }
    FinishOrder(vertices, edges, result, in_degree[..]);
    OrderMeansAcyclic(vertices, edges, result);
    r := Some(result);
  }

  lemma NeighboursFit(n: nat, es: Edges)
    requires EdgesOk(n, es)
    ensures forall x, v :: v in Adjacent(es, x) ==> v < n
  {
    forall x, v | v in Adjacent(es, x) ensures v < n { NeighbourIsEdge(es, x, v); }
  }

  lemma {:induction false} NeighbourIsEdge(es: Edges, x: Vertex, v: Vertex)
    requires v in Adjacent(es, x)
    ensures (x, v) in es
  {
    if es[0].0 == x && es[0].1 == v {
      assert es[0] == (x, v);
    } else {
      NeighbourIsEdge(es[1..], x, v);
    }
  }

  lemma Start(n: nat, es: Edges, queue: seq<Vertex>, deg: seq<int>)
    requires |deg| == n && Distinct(queue) && forall v: nat :: v in queue <==> v < n && deg[v] == 0
    requires forall v: nat :: v < n ==> deg[v] == InDegree(es, v, {})
    ensures Progress(n, es, [], queue, deg, [])
  {
    assert [] + queue == queue;
    assert Done([]) == {};
    forall e | e in es ensures e.1 !in queue {
      assert e == (e.0, e.1);
      ZeroMeansDone(es, e.1, {});
    }
  }

  lemma Room(n: nat, es: Edges, result: seq<Vertex>, queue: seq<Vertex>, deg: seq<int>)
    requires Progress(n, es, result, queue, deg, []) && queue != []
    ensures |result| < n
  {
    BelowFacts(n);
    hide Before, DegreeOk;
    DistinctFits(result + queue, Below(n));
  }
}
