/** What a run of opens, closes and removals does to the files on disk, whoever makes the calls: a file goes
    exactly when it has been removed and nobody has it open any more. */
module InodeHistory {
  import opened InodeIo

  /** The sectors of an inode and its data. */
  ghost function Footprint(sector: nat, d: InodeDisk): set<nat> {
    {sector} + Extent(d.start, BytesToSectors(d.length))
  }

  function Extent(start: nat, n: nat): set<nat> {
    if n == 0 then {} else Extent(start, n - 1) + {start + n - 1}
  }

  /** The files on disk occupy sectors in use, each its own. */
  ghost predicate FilesOk(files: map<nat, InodeDisk>, used: set<nat>) {
    && (forall s :: s in files ==> Footprint(s, files[s]) <= used)
    && forall s, t :: s in files && t in files && s != t ==> Footprint(s, files[s]) !! Footprint(t, files[t])
  }

  /** The files and the sectors in use; `count` tells of each file how many have it open, and `marked` are the
      open ones to be deleted. */
  datatype View = View(files: map<nat, InodeDisk>, used: set<nat>, count: map<nat, nat>, marked: set<nat>)

  ghost predicate ViewOk(v: View) {
    && FilesOk(v.files, v.used) && v.count.Keys == v.files.Keys
    && forall s :: s in v.marked ==> s in v.count && v.count[s] > 0
  }

  /** The calls, by the sector of the inode. */
  datatype Call = Open(sector: nat) | Remove(sector: nat) | Close(sector: nat)

  /** A file is opened by those who find it on disk; the others hold an inode that is open. */
  ghost predicate Allowed(v: View, c: Call) {
    c.sector in v.count && (c.Open? || v.count[c.sector] > 0)
  }

  ghost function After(v: View, c: Call): View
    requires ViewOk(v) && Allowed(v, c)
  {
    match c
    case Open(s) => v.(count := v.count[s := v.count[s] + 1])
    case Remove(s) => v.(marked := v.marked + {s})
    case Close(s) => if v.count[s] == 1 && s in v.marked then Deleted(Left(v, s), s) else Left(v, s)
  }

  /** One opener less; with the last one the in-memory inode goes, and its mark with it. */
  ghost function Left(v: View, s: nat): View
    requires s in v.count && v.count[s] > 0
  {
    v.(count := v.count[s := v.count[s] - 1], marked := if v.count[s] == 1 then v.marked - {s} else v.marked)
  }

  ghost function Deleted(v: View, s: nat): View
    requires s in v.files
  {
    View(v.files - {s}, v.used - Footprint(s, v.files[s]), v.count - {s}, v.marked)
  }

  lemma AfterKeeps(v: View, c: Call)
    requires ViewOk(v) && Allowed(v, c)
    ensures ViewOk(After(v, c))
  {
    hide FilesOk, Footprint;
    if c.Close? {
      var v1 := Left(v, c.sector);
      assert ViewOk(v1);
      DeletedKeeps(v1, c.sector);
    }
  }

  lemma DeletedKeeps(v: View, s: nat)
    requires ViewOk(v) && s in v.files
    ensures s !in v.marked ==> ViewOk(Deleted(v, s))
  {
    FilesAfter(v.files, v.used, s);
    hide FilesOk, Footprint;
  }

  lemma FilesAfter(files: map<nat, InodeDisk>, used: set<nat>, sector: nat)
    requires FilesOk(files, used) && sector in files
    ensures FilesOk(files - {sector}, used - Footprint(sector, files[sector]))
  {
    hide Footprint;
  }

  ghost predicate Run(v: View, calls: seq<Call>, v': View)
    requires ViewOk(v)
    decreases |calls|
  {
    if calls == [] then v' == v
    else Allowed(v, calls[0]) && (AfterKeeps(v, calls[0]); Run(After(v, calls[0]), calls[1..], v'))
  }

  /** How many still have the file open after the calls, the calls of a file gone since included. */
  ghost function Balance(v: View, calls: seq<Call>, s: nat): int
    requires s in v.count
  {
    var begun: int := v.count[s] + multiset(calls)[Open(s)];
    begun - multiset(calls)[Close(s)]
  }

  /** A file is gone after a run exactly when it has been removed, before or on the way, and as many have
      closed it as had opened it; and one that is still there is open to exactly those left. */
  lemma {:induction false} GoneIffRemovedAndClosed(v: View, calls: seq<Call>, v': View, s: nat)
    requires ViewOk(v) && Run(v, calls, v') && s in v.files
    ensures s !in v'.files <==> (s in v.marked || Remove(s) in calls) && Balance(v, calls, s) == 0
    ensures s in v'.files ==> v'.files[s] == v.files[s] && v'.count.Keys == v'.files.Keys && v'.count[s] == Balance(v, calls, s)
    decreases |calls|
  {
    hide ViewOk, Balance, After, Allowed;
    OpenersBefore(v, calls, s);
    if calls != [] {
      var v1 := After(v, calls[0]);
      AfterKeeps(v, calls[0]);
      OneCall(v, calls, s);
      if s in v1.files {
        GoneIffRemovedAndClosed(v1, calls[1..], v', s);
      } else {
        NeverBack(v1, calls[1..], v', s);
      }
    }
  }

  lemma OpenersBefore(v: View, calls: seq<Call>, s: nat)
    requires ViewOk(v) && s in v.files
    ensures v.count.Keys == v.files.Keys && (s in v.marked ==> v.count[s] > 0)
    ensures calls == [] ==> Balance(v, calls, s) == v.count[s]
  {
    hide FilesOk;
  }

  /** The first call of a run: the file stays with the same balance for the rest, or it goes with a close that
      no call on it can follow. */
  lemma OneCall(v: View, calls: seq<Call>, s: nat)
    requires ViewOk(v) && calls != [] && Allowed(v, calls[0]) && s in v.files
    ensures var c, v1 := calls[0], After(v, calls[0]);
            && v1.count.Keys == v1.files.Keys
            && (s in v1.files ==>
                  && v1.files[s] == v.files[s] && Balance(v1, calls[1..], s) == Balance(v, calls, s)
                  && (s in v1.marked || Remove(s) in calls[1..] <==> s in v.marked || Remove(s) in calls))
            && (s !in v1.files ==>
                  && c == Close(s) && s in v.marked
                  && ((forall e :: e in calls[1..] ==> e.sector != s) ==> Balance(v, calls, s) == 0))
  {
    hide FilesOk;
    assert calls == [calls[0]] + calls[1..];
  }

  /** Nobody calls on a file that is gone, and nothing brings it back. */
  lemma {:induction false} NeverBack(v: View, calls: seq<Call>, v': View, s: nat)
    requires ViewOk(v) && Run(v, calls, v') && s !in v.files
    ensures s !in v'.files && forall c :: c in calls ==> c.sector != s
    decreases |calls|
  {
    hide FilesOk;
    if calls != [] {
      AfterKeeps(v, calls[0]);
      NeverBack(After(v, calls[0]), calls[1..], v', s);
    }
  }

  /** The sectors in use after a run are those in use before, without those of the files that have gone. */
  lemma {:induction false} SectorsGivenBack(v: View, calls: seq<Call>, v': View)
    requires ViewOk(v) && Run(v, calls, v')
    ensures ViewOk(v') && v'.files.Keys <= v.files.Keys
    ensures forall x :: x in v'.used <==> x in v.used && forall s :: s in v.files && s !in v'.files ==> x !in Footprint(s, v.files[s])
    decreases |calls|
  {
    hide FilesOk, Footprint;
    if calls != [] {
      var v1 := After(v, calls[0]);
      AfterKeeps(v, calls[0]);
      SectorsGivenBack(v1, calls[1..], v');
      forall s | s in v1.files ensures v1.files[s] == v.files[s] { }
    }
  }

  /** Nothing but a removal deletes: a file that is not marked and that nobody removes keeps its data and its
      sectors, however often it is opened and closed. */
  lemma NotRemovedStays(v: View, calls: seq<Call>, v': View, s: nat)
    requires ViewOk(v) && Run(v, calls, v') && s in v.files && s !in v.marked && Remove(s) !in calls
    ensures s in v'.files && v'.files[s] == v.files[s] && Footprint(s, v.files[s]) <= v'.used
  {
    GoneIffRemovedAndClosed(v, calls, v', s);
    SectorsGivenBack(v, calls, v');
  }
}
