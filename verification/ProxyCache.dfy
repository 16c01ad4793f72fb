/** The proxy's object cache: an array of slots with time stamps that evicts the least recently used. */
module ProxyCache {

  const CACHE_OBJS_COUNT := 10
  const MAX_OBJECT_SIZE := 102400

  type Uri = string
  type Bytes = seq<int>

  datatype Option<+T> = None | Some(value: T)

  // ----- the history, and what a true LRU cache of it holds

  /** An insertion, or a find that hit. */
  datatype Touch = Inserted(uri: Uri, bytes: Bytes) | Hit(uri: Uri)

  function Without(s: seq<Uri>, u: Uri): seq<Uri> {
    if s == [] then [] else if s[0] == u then s[1..] else [s[0]] + Without(s[1..], u)
  }

  /** The distinct URIs of a history, the most recently touched first. */
  function Recent(h: seq<Touch>): seq<Uri> {
    if h == [] then []
    else
      var u := h[|h| - 1].uri;
      var before := Recent(h[..|h| - 1]);
      [u] + Without(before, u)
  }

  /** The bytes inserted last for a URI. */
  function LastBytes(h: seq<Touch>, u: Uri): Option<Bytes> {
    if h == [] then None
    else
      var e := h[|h| - 1];
      if e.Inserted? && e.uri == u then Some(e.bytes) else LastBytes(h[..|h| - 1], u)
  }

  function Min(a: nat, b: nat): nat {
    if a < b then a else b
  }

  /** The URIs that a cache of the given capacity holds. */
  function Held(h: seq<Touch>): seq<Uri> {
    var s := Recent(h);
    s[..Min(CACHE_OBJS_COUNT, |s|)]
  }

  ghost predicate Distinct<T>(s: seq<T>) {
    forall i, j :: 0 <= i < j < |s| ==> s[i] != s[j]
  }

  lemma {:induction false} WithoutFacts(s: seq<Uri>, u: Uri)
    requires Distinct<Uri>(s)
    ensures Distinct<Uri>(Without(s, u)) && (forall v :: v in Without(s, u) <==> v in s && v != u)
    ensures |Without(s, u)| == if u in s then |s| - 1 else |s|
  {
    if s != [] {
      assert s == [s[0]] + s[1..] && s[0] !in s[1..];
      WithoutFacts(s[1..], u);
    }
  }

  lemma {:induction false} RecentIsDistinct(h: seq<Touch>)
    ensures Distinct<Uri>(Recent(h))
  {
    if h != [] {
      RecentIsDistinct(h[..|h| - 1]);
      WithoutFacts(Recent(h[..|h| - 1]), h[|h| - 1].uri);
    }
  }

  /** Removing an element that is among the first `n` removes it from there. */
  lemma {:induction false} WithoutInside(s: seq<Uri>, u: Uri, n: nat)
    requires Distinct<Uri>(s) && n <= |s| && u in s[..n]
    ensures n >= 1 && |Without(s, u)| == |s| - 1 && Without(s, u)[..n - 1] == Without(s[..n], u)
  {
    WithoutFacts(s, u);
    var rest := s[1..];
    assert s == [s[0]] + rest && s[..n] == [s[0]] + rest[..n - 1];
    if s[0] != u { WithoutInside(rest, u, n - 1); }
  }

  /** Removing one that is not leaves those before the last of them. */
  lemma {:induction false} WithoutOutside(s: seq<Uri>, u: Uri, n: nat)
    requires Distinct<Uri>(s) && 1 <= n <= |s| && u !in s[..n]
    ensures |Without(s, u)| >= n - 1 && Without(s, u)[..n - 1] == s[..n - 1]
  {
    WithoutFacts(s, u);
    var rest := s[1..];
    assert s == [s[0]] + rest && s[..n] == [s[0]] + rest[..n - 1];
    assert s[0] != u by { assert s[..n][0] == s[0]; }
    if n > 1 { WithoutOutside(rest, u, n - 1); }
  }

  lemma {:induction false} WithoutNothing(s: seq<Uri>, u: Uri)
    requires u !in s
    ensures Without(s, u) == s
  {
    if s != [] { WithoutNothing(s[1..], u); }
  }

  /** A touch moves its URI to the front; a new one pushes out the last when the cache is full. */
  lemma HeldAfter(h: seq<Touch>, e: Touch)
    ensures Recent(h + [e]) == [e.uri] + Without(Recent(h), e.uri)
    ensures e.uri in Held(h) ==> Held(h + [e]) == [e.uri] + Without(Held(h), e.uri)
    ensures e.uri !in Held(h) ==> Held(h + [e]) == [e.uri] + Held(h)[..Min(CACHE_OBJS_COUNT - 1, |Held(h)|)]
  {
    var h', s, u := h + [e], Recent(h), e.uri;
    assert h'[..|h'| - 1] == h;
    RecentIsDistinct(h);
    var n := Min(CACHE_OBJS_COUNT, |s|);
    WithoutFacts(s, u);
    WithoutFacts(Held(h), u);
    var s' := [u] + Without(s, u);
    if u in s[..n] {
      WithoutInside(s, u, n);
      assert s'[..n] == [u] + Without(s, u)[..n - 1];
    } else if n < CACHE_OBJS_COUNT {
      assert s[..n] == s;
      WithoutNothing(s, u);
      assert s'[..n + 1] == [u] + s;
    } else {
      WithoutOutside(s, u, n);
      assert s'[..n] == [u] + Without(s, u)[..n - 1];
      assert s[..n][..n - 1] == s[..n - 1];
    }
  }

  lemma BytesAfter(h: seq<Touch>, e: Touch, u: Uri)
    ensures LastBytes(h + [e], u) == if e.Inserted? && e.uri == u then Some(e.bytes) else LastBytes(h, u)
  {
    assert (h + [e])[..|h|] == h;
  }

  // ----- the array

  datatype Slot = Slot(valid: bool, lru: int, uri: Uri, bytes: Bytes)

  /** `order` lists the valid slots, which come first, from the latest stamp to the earliest. */
  ghost predicate Ordered(cache: seq<Slot>, order: seq<nat>, time: int) {
    && |cache| == CACHE_OBJS_COUNT && |order| <= CACHE_OBJS_COUNT && Distinct<nat>(order)
    && (forall j :: 0 <= j < |order| ==> order[j] < |order|)
    && (forall i: nat :: i < CACHE_OBJS_COUNT ==> (cache[i].valid <==> i < |order|))
    && Falling(cache, order)
    && (forall i: nat :: i < |order| ==> cache[i].lru <= time && i in order)
  }

  /** The slots hold what a true LRU cache of this history holds. */
  ghost predicate Refines(cache: seq<Slot>, order: seq<nat>, h: seq<Touch>) {
    && |order| == |Held(h)|
    && forall j {:trigger EntryOk(cache, order[j], h, Held(h)[j])} :: 0 <= j < |order| ==> EntryOk(cache, order[j], h, Held(h)[j])
  }

  ghost predicate EntryOk(cache: seq<Slot>, i: nat, h: seq<Touch>, uri: Uri) {
    i < |cache| && cache[i].uri == uri && Some(cache[i].bytes) == LastBytes(h, uri)
  }

  // ----- one touch

  function Removed<T>(s: seq<T>, j: nat): seq<T> {
    if j < |s| then s[..j] + s[j + 1..] else s
  }

  lemma {:induction false} WithoutIsRemoved(s: seq<Uri>, j: nat)
    requires Distinct<Uri>(s) && j < |s|
    ensures Without(s, s[j]) == Removed(s, j)
  {
    if j > 0 {
      var rest := s[1..];
      RemovedInTail(s, j);
      assert s[0] != s[j];
      assert Distinct<Uri>(rest) by { forall a, b | 0 <= a < b < |rest| ensures rest[a] != rest[b] { assert s[a + 1] != s[b + 1]; } }
      hide Removed, Distinct;
      WithoutIsRemoved(rest, j - 1);
    } else {
      assert s[..0] + s[1..] == s[1..];
    }
  }

  lemma RemovedInTail(s: seq<Uri>, j: nat)
    requires 0 < j < |s|
    ensures s[1..][j - 1] == s[j] && Removed(s, j) == [s[0]] + Removed(s[1..], j - 1)
  {
    assert s[..j] == [s[0]] + s[1..][..j - 1];
    assert s[j + 1..] == s[1..][j..];
  }

  lemma RemovedAt<T>(s: seq<T>, j: nat, k: nat)
    requires k < |Removed(s, j)|
    ensures Removed(s, j)[k] == s[if k < j then k else k + 1]
  {
  }

  /** Slot `i` holds the entry at position `j` of the order, or is the first free slot and `j` the next position. */
  ghost predicate Position(order: seq<nat>, i: nat, j: nat) {
    if j < |order| then order[j] == i else j == |order| == i && i < CACHE_OBJS_COUNT
  }

  lemma NewOrder(order: seq<nat>, i: nat, j: nat)
    requires Distinct<nat>(order) && Position(order, i, j) && forall k :: 0 <= k < |order| ==> order[k] < |order|
    ensures var order' := [i] + Removed<nat>(order, j);
            && Distinct<nat>(order') && |order'| == (if j < |order| then |order| else |order| + 1)
            && (forall k :: 0 <= k < |order'| ==> order'[k] < |order'|)
            && (forall x :: x in order ==> x in order') && i in order'
            && forall k :: 0 < k < |order'| ==> order'[k] != i && order'[k] in order
  {
    var rest := Removed<nat>(order, j);
    forall k | 0 <= k < |rest| ensures rest[k] == order[if k < j then k else k + 1] && rest[k] != i { RemovedAt<nat>(order, j, k); }
    var order' := [i] + rest;
    forall x | x in order ensures x in order' {
      var m :| 0 <= m < |order| && order[m] == x;
      if m < j { assert order'[m + 1] == x; } else if m > j { assert order'[m] == x; } else { assert order'[0] == x; }
    }
  }

  /** Stamps fall along the order. */
  ghost predicate Falling(cache: seq<Slot>, order: seq<nat>) {
    && (forall j :: 0 <= j < |order| ==> order[j] < |cache|)
    && forall j, k :: 0 <= j < k < |order| ==> cache[order[j]].lru > cache[order[k]].lru
  }

  lemma RestFalls(cache: seq<Slot>, order: seq<nat>, j: nat)
    requires Falling(cache, order)
    ensures Falling(cache, Removed<nat>(order, j))
  {
    var rest := Removed<nat>(order, j);
    forall a | 0 <= a < |rest| ensures rest[a] == order[if a < j then a else a + 1] { RemovedAt<nat>(order, j, a); }
    hide Removed;
  }

  /** A newer slot in front, whatever it held before. */
  lemma PushFalls(cache: seq<Slot>, rest: seq<nat>, time: int, i: nat, slot: Slot)
    requires Falling(cache, rest) && i < |cache| && slot.lru == time + 1
    requires forall k :: 0 <= k < |rest| ==> rest[k] != i && cache[rest[k]].lru <= time
    ensures Falling(cache[i := slot], [i] + rest)
  {
    var cache', order' := cache[i := slot], [i] + rest;
    forall k | 0 < k < |order'| ensures order'[k] == rest[k - 1] && cache'[order'[k]] == cache[rest[k - 1]] { }
    forall a, b | 0 <= a < b < |order'| ensures cache'[order'[a]].lru > cache'[order'[b]].lru {
      if a > 0 { assert cache[rest[a - 1]].lru > cache[rest[b - 1]].lru; }
    }
  }

  lemma TouchFalls(cache: seq<Slot>, order: seq<nat>, time: int, i: nat, j: nat, slot: Slot)
    requires Falling(cache, order) && Distinct<nat>(order) && Position(order, i, j) && slot.lru == time + 1 && i < |cache|
    requires forall k :: 0 <= k < |order| ==> cache[order[k]].lru <= time && order[k] < |order|
    ensures Falling(cache[i := slot], [i] + Removed<nat>(order, j))
  {
    var rest := Removed<nat>(order, j);
    NewOrder(order, i, j);
    RestFalls(cache, order, j);
    forall k | 0 <= k < |rest| ensures rest[k] != i && rest[k] in order { assert ([i] + rest)[k + 1] == rest[k]; }
    hide Removed, Distinct, Position;
    PushFalls(cache, rest, time, i, slot);
  }

  lemma TouchOrdered(cache: seq<Slot>, order: seq<nat>, time: int, i: nat, j: nat, slot: Slot)
    requires Ordered(cache, order, time) && Position(order, i, j) && slot.valid && slot.lru == time + 1
    ensures i < |cache| && Ordered(cache[i := slot], [i] + Removed<nat>(order, j), time + 1)
  {
    hide Removed, Distinct, Falling;
    NewOrder(order, i, j);
    TouchFalls(cache, order, time, i, j, slot);
  }

  lemma TouchRefines(cache: seq<Slot>, order: seq<nat>, time: int, h: seq<Touch>, e: Touch, i: nat, j: nat, slot: Slot)
    requires Ordered(cache, order, time) && Refines(cache, order, h) && Position(order, i, j)
    requires slot.uri == e.uri && Some(slot.bytes) == LastBytes(h + [e], e.uri)
    requires Held(h + [e]) == [e.uri] + Removed<Uri>(Held(h), j)
    ensures Refines(cache[i := slot], [i] + Removed<nat>(order, j), h + [e])
  {
    hide Distinct, Held, Falling, LastBytes, EntryOk;
    NewOrder(order, i, j);
    var order', cache', held := [i] + Removed<nat>(order, j), cache[i := slot], Held(h + [e]);
    forall k | 0 <= k < |order'| ensures EntryOk(cache', order'[k], h + [e], held[k]) {
      if k == 0 { assert EntryOk(cache', i, h + [e], e.uri) by { FirstEntry(cache, i, h + [e], slot); } }
      else { OtherEntry(cache, order, h, e, i, j, slot, k); }
    }
  }

  lemma FirstEntry(cache: seq<Slot>, i: nat, h: seq<Touch>, slot: Slot)
    requires i < |cache| && Some(slot.bytes) == LastBytes(h, slot.uri)
    ensures EntryOk(cache[i := slot], i, h, slot.uri)
  {
  }

  lemma OtherEntry(cache: seq<Slot>, order: seq<nat>, h: seq<Touch>, e: Touch, i: nat, j: nat, slot: Slot, k: nat)
    requires Refines(cache, order, h) && Position(order, i, j) && i < |cache| && Distinct<nat>(order)
    requires Held(h + [e]) == [e.uri] + Removed<Uri>(Held(h), j) && 0 < k <= |Removed<nat>(order, j)| && Removed<nat>(order, j)[k - 1] != i
    ensures EntryOk(cache[i := slot], Removed<nat>(order, j)[k - 1], h + [e], Held(h + [e])[k])
  {
    hide Distinct, Held, LastBytes, Removed;
    RemovedAt<nat>(order, j, k - 1);
    RemovedSize(order, Held(h), j);
    RemovedAt<Uri>(Held(h), j, k - 1);
    HeldIsDistinct(h + [e]);
    FirstIsNoOther(Held(h + [e]), k);
    var m := if k - 1 < j then k - 1 else k;
    assert EntryOk(cache, order[m], h, Held(h)[m]);
    BytesAfter(h, e, Held(h)[m]);
  }

  lemma RemovedSize(a: seq<nat>, b: seq<Uri>, j: nat)
    requires |a| == |b|
    ensures |Removed<nat>(a, j)| == |Removed<Uri>(b, j)| == (if j < |a| then |a| - 1 else |a|)
  {
  }

  lemma FirstIsNoOther(s: seq<Uri>, k: nat)
    requires Distinct<Uri>(s) && 0 < k < |s|
    ensures s[k] != s[0]
  {
  }

  lemma HeldIsDistinct(h: seq<Touch>)
    ensures Distinct<Uri>(Held(h))
  {
    RecentIsDistinct(h);
    hide Recent;
  }

  // ----- the cache

  class Cache {
    const cache: array<Slot>
    var cache_time: int
    ghost var order: seq<nat>
    /** Every insertion and every hit so far. */
    ghost var history: seq<Touch>

    ghost predicate Valid()
      reads this, cache
    {
      Ordered(cache[..], order, cache_time) && Refines(cache[..], order, history)
    }

    /** `cache_init`. */
    constructor ()
      ensures Valid() && history == [] && fresh(cache)
    {
      cache := new Slot[CACHE_OBJS_COUNT](_ => Slot(false, 0, "", []));
      cache_time := 0;
      order := [];
      history := [];
      new;
      assert Recent([]) == [];
    }

    /** `cache_find` hits exactly when the URI is among the ten distinct ones touched most recently; it then
        returns the bytes inserted last for it. */
    method Find(uri: Uri) returns (r: Option<Bytes>)
      requires Valid()
      modifies this, cache
      ensures Valid()
      ensures r.Some? <==> uri in Held(old(history))
      ensures r.Some? ==> r == LastBytes(old(history), uri) && history == old(history) + [Hit(uri)]
      ensures r.None? ==> history == old(history) && cache[..] == old(cache[..])
    {
      hide Distinct, Held, LastBytes, Removed, Falling;
      var i := 0;
      while i < CACHE_OBJS_COUNT
        invariant i <= CACHE_OBJS_COUNT && cache[..] == old(cache[..]) && history == old(history) && order == old(order) && Valid()
        invariant forall k :: 0 <= k < i ==> !(cache[k].valid && cache[k].uri == uri)
      {
        if cache[i].valid && cache[i].uri == uri {
          ghost var j := Present(cache[..], order, cache_time, history, uri, i);
          BytesAfter(history, Hit(uri), uri);
          r := Some(cache[i].bytes);
          Touched(i, j, cache[i].(lru := cache_time + 1), Hit(uri));
          return;
        }
        i := i + 1;
      }
      Absent(cache[..], order, cache_time, history, uri);
      r := None;
    }

    /** `cache_insert`: objects within the size limit enter the history, larger ones change nothing. */
    method Insert(uri: Uri, bytes: Bytes)
      requires Valid()
      modifies this, cache
      ensures Valid()
      ensures history == if |bytes| > MAX_OBJECT_SIZE then old(history) else old(history) + [Inserted(uri, bytes)]
    {
      if |bytes| > MAX_OBJECT_SIZE { return; }
      hide Distinct, Held, LastBytes, Removed, Falling, EntryOk;
      var target := 0;
      var i := 0;
      ghost var e := Inserted(uri, bytes);
      while i < CACHE_OBJS_COUNT
        invariant i <= CACHE_OBJS_COUNT && cache[..] == old(cache[..]) && history == old(history) && order == old(order) && Valid()
        invariant cache_time == old(cache_time)
        invariant forall k :: 0 <= k < i ==> cache[k].valid && cache[k].uri != uri
        invariant 0 <= target < CACHE_OBJS_COUNT && (if i == 0 then target == 0 else target < i) && forall k :: 0 <= k < i ==> cache[target].lru <= cache[k].lru
      {
        if cache[i].valid && cache[i].uri == uri {
          target := i;
          break;
        }
        if !cache[i].valid {
          target := i;
          break;
        }
        if cache[i].lru < cache[target].lru { target := i; }
        i := i + 1;
      }
      ghost var j := InsertPosition(cache[..], order, cache_time, history, e, i, target);
      BytesAfter(history, e, uri);
      Touched(target, j, Slot(true, cache_time + 1, uri, bytes), e);
    }

    /** Slot `i` gets the content and the next stamp. */
    method Touched(i: nat, ghost j: nat, slot: Slot, ghost e: Touch)
      requires Valid() && Position(order, i, j) && i < CACHE_OBJS_COUNT
      requires slot.valid && slot.lru == cache_time + 1 && slot.uri == e.uri && Some(slot.bytes) == LastBytes(history + [e], e.uri)
      requires Held(history + [e]) == [e.uri] + Removed<Uri>(Held(history), j)
      modifies this, cache
      ensures Valid() && history == old(history) + [e]
    {
      hide Ordered, Refines, Held, LastBytes, Removed, Distinct, Position;
      TouchOrdered(cache[..], order, cache_time, i, j, slot);
      TouchRefines(cache[..], order, cache_time, history, e, i, j, slot);
      cache_time := cache_time + 1;
      ghost var before := cache[..];
      cache[i] := slot;
      assert cache[..] == before[i := slot];
      order := [i] + Removed<nat>(order, j);
      history := history + [e];
    }
  }

  /** A slot with the URI stands where the URI stands. */
  lemma Present(cache: seq<Slot>, order: seq<nat>, time: int, h: seq<Touch>, uri: Uri, i: nat) returns (j: nat)
    requires Ordered(cache, order, time) && Refines(cache, order, h) && i < CACHE_OBJS_COUNT && cache[i].valid && cache[i].uri == uri
    ensures Position(order, i, j) && j < |order| && uri in Held(h) && Some(cache[i].bytes) == LastBytes(h, uri)
    ensures forall e: Touch :: e.uri == uri ==> Held(h + [e]) == [uri] + Removed<Uri>(Held(h), j)
  {
    j :| 0 <= j < |order| && order[j] == i;
    assert EntryOk(cache, order[j], h, Held(h)[j]);
    assert Held(h)[j] == uri;
    HeldIsDistinct(h);
    WithoutIsRemoved(Held(h), j);
    forall e: Touch | e.uri == uri ensures Held(h + [e]) == [uri] + Removed<Uri>(Held(h), j) { HeldAfter(h, e); }
    hide Held, Removed, Distinct, Falling;
  }

  lemma Absent(cache: seq<Slot>, order: seq<nat>, time: int, h: seq<Touch>, uri: Uri)
    requires Ordered(cache, order, time) && Refines(cache, order, h)
    requires forall k: nat :: k < CACHE_OBJS_COUNT ==> !(cache[k].valid && cache[k].uri == uri)
    ensures uri !in Held(h)
  {
    hide Held, Distinct, Falling;
    forall k | 0 <= k < |Held(h)| ensures Held(h)[k] != uri {
      assert EntryOk(cache, order[k], h, Held(h)[k]);
      assert cache[order[k]].uri == Held(h)[k] && cache[order[k]].valid;
    }
  }

  /** The slot that an insertion picks holds the URI, or is the first free one, or has the earliest stamp. */
  lemma InsertPosition(cache: seq<Slot>, order: seq<nat>, time: int, h: seq<Touch>, e: Touch, i: nat, target: nat) returns (j: nat)
    requires Ordered(cache, order, time) && Refines(cache, order, h) && i <= CACHE_OBJS_COUNT && target < CACHE_OBJS_COUNT
    requires forall k: nat :: k < i ==> cache[k].valid && cache[k].uri != e.uri
    requires i < CACHE_OBJS_COUNT ==> target == i && (cache[i].valid ==> cache[i].uri == e.uri)
    requires i == CACHE_OBJS_COUNT ==> forall k: nat :: k < i ==> cache[target].lru <= cache[k].lru
    ensures Position(order, target, j) && Held(h + [e]) == [e.uri] + Removed<Uri>(Held(h), j)
  {
    if i < CACHE_OBJS_COUNT && cache[i].valid {
      j := Present(cache, order, time, h, e.uri, i);
    } else if i < CACHE_OBJS_COUNT {
      j := FreePosition(cache, order, time, h, e, i);
    } else {
      j := OldestPosition(cache, order, time, h, e, target);
    }
  }

  lemma FreePosition(cache: seq<Slot>, order: seq<nat>, time: int, h: seq<Touch>, e: Touch, i: nat) returns (j: nat)
    requires Ordered(cache, order, time) && Refines(cache, order, h) && i < CACHE_OBJS_COUNT && !cache[i].valid
    requires forall k: nat :: k < i ==> cache[k].valid && cache[k].uri != e.uri
    ensures Position(order, i, j) && Held(h + [e]) == [e.uri] + Removed<Uri>(Held(h), j)
  {
    hide Distinct, Held, LastBytes, Falling, EntryOk;
    j := |order|;
    assert i == 0 || cache[i - 1].valid;
    Absent(cache, order, time, h, e.uri);
    HeldAfter(h, e);
    assert Held(h)[..Min(CACHE_OBJS_COUNT - 1, |Held(h)|)] == Held(h);
  }

  lemma OldestPosition(cache: seq<Slot>, order: seq<nat>, time: int, h: seq<Touch>, e: Touch, target: nat) returns (j: nat)
    requires Ordered(cache, order, time) && Refines(cache, order, h) && target < CACHE_OBJS_COUNT
    requires forall k: nat :: k < CACHE_OBJS_COUNT ==> cache[k].valid && cache[k].uri != e.uri && cache[target].lru <= cache[k].lru
    ensures Position(order, target, j) && Held(h + [e]) == [e.uri] + Removed<Uri>(Held(h), j)
  {
    hide Distinct, Held, LastBytes, EntryOk;
    assert cache[CACHE_OBJS_COUNT - 1].valid && cache[target].valid;
    j :| 0 <= j < |order| && order[j] == target;
    var last := |order| - 1;
    assert cache[order[j]].lru <= cache[order[last]].lru;
    assert j == last;
    Absent(cache, order, time, h, e.uri);
    HeldAfter(h, e);
    assert Held(h)[..last] == Removed<Uri>(Held(h), last);
  }
}
