/** The table of open inodes: one `struct inode` per sector, counted openers, and sectors given back when
    the last opener of a removed inode closes it. */
module InodeTable {
  import opened InodeIo
  import opened InodeHistory

  ghost predicate Unique(s: seq<Inode>) {
    forall i, j :: 0 <= i < j < |s| ==> s[i] != s[j] && s[i].sector != s[j].sector
  }

  /** An open inode holds what the disk has for its sector, counts its openers, and is marked as the view says. */
  ghost predicate InodeOk(x: Inode, openers: multiset<Inode>, v: View)
    reads x
  {
    && x.sector in v.files && x.data == v.files[x.sector] && x.sector in v.count
    && x.open_cnt == openers[x] == v.count[x.sector] > 0 && (x.removed <==> x.sector in v.marked)
  }

  ghost predicate OpenOk(s: seq<Inode>, openers: multiset<Inode>, v: View)
    reads s
  {
    forall x :: x in s ==> InodeOk(x, openers, v)
  }

  /** The open inodes are those with openers. */
  ghost predicate Listed(s: seq<Inode>, openers: multiset<Inode>, v: View) {
    && (forall x :: x in openers ==> x in s)
    && forall t :: t in v.count && v.count[t] > 0 ==> t in Sectors(s)
  }

  ghost function Sectors(s: seq<Inode>): set<nat> {
    set x | x in s :: x.sector
  }

  /** The views differ in the opener count and the mark of one sector only. */
  ghost predicate OnlyAt(v: View, v': View, sector: nat) {
    && v'.files == v.files && v'.count.Keys == v.count.Keys
    && (forall t :: t in v.count && t != sector ==> v'.count[t] == v.count[t])
    && forall t :: t != sector ==> (t in v'.marked <==> t in v.marked)
  }

  /** The inodes on a list do not change with what is known of another sector. */
  lemma OthersOk(s: seq<Inode>, openers: multiset<Inode>, v: View, openers': multiset<Inode>, v': View, inode: Inode)
    requires forall x :: x in s && x != inode ==> x.sector != inode.sector && InodeOk(x, openers, v)
    requires OnlyAt(v, v', inode.sector) && forall x :: x != inode ==> openers'[x] == openers[x]
    requires inode in s ==> InodeOk(inode, openers', v')
    ensures OpenOk(s, openers', v')
  {
    forall x | x in s ensures InodeOk(x, openers', v') {
      if x != inode { assert InodeOk(x, openers, v) && x.sector != inode.sector; }
    }
  }

  lemma ListedMore(s: seq<Inode>, openers: multiset<Inode>, v: View, s': seq<Inode>, v': View, inode: Inode)
    requires Listed(s, openers, v) && OnlyAt(v, v', inode.sector) && inode in s' && forall x :: x in s ==> x in s'
    ensures Listed(s', openers + multiset{inode}, v')
  {
    forall t | t in v'.count && v'.count[t] > 0 ensures t in Sectors(s') {
      if t != inode.sector {
        assert t in Sectors(s);
      }
    }
  }

  lemma ListedLess(s: seq<Inode>, openers: multiset<Inode>, v: View, s': seq<Inode>, openers': multiset<Inode>, v': View, inode: Inode)
    requires Listed(s, openers, v) && OnlyAt(v, v', inode.sector) && openers' == openers - multiset{inode}
    requires forall x :: x in s && x != inode ==> x in s'
    requires inode in s' || (openers'[inode] == 0 && inode.sector in v'.count && v'.count[inode.sector] == 0)
    ensures Listed(s', openers', v')
  {
    forall x | x in openers' ensures x in s' { assert x in openers; }
    forall t | t in v'.count && v'.count[t] > 0 ensures t in Sectors(s') {
      if t != inode.sector {
        assert t in Sectors(s);
      }
    }
  }

  lemma UniqueMore(s: seq<Inode>, inode: Inode)
    requires Unique(s) && forall x :: x in s ==> x.sector != inode.sector
    ensures Unique([inode] + s)
  {
    var s' := [inode] + s;
    forall i, j | 0 <= i < j < |s'| ensures s'[i] != s'[j] && s'[i].sector != s'[j].sector {
      assert s'[j] == s[j - 1] && (i > 0 ==> s'[i] == s[i - 1]);
    }
  }

  lemma KeysAre(v: View)
    requires ViewOk(v)
    ensures v.count.Keys == v.files.Keys && forall s :: s in v.marked ==> s in v.count && v.count[s] > 0
  {
    hide FilesOk;
  }

  lemma LeftIsOnlyAt(v: View, s: nat)
    requires ViewOk(v) && Allowed(v, Close(s))
    ensures OnlyAt(v, Left(v, s), s) && Left(v, s).files == v.files && Left(v, s).used == v.used && ViewOk(Left(v, s))
    ensures s in Left(v, s).count && Left(v, s).count[s] == v.count[s] - 1
    ensures v.count[s] > 1 ==> Left(v, s).marked == v.marked
    ensures s in v.count && v.count[s] == 1 ==> s !in Left(v, s).marked
  {
    hide FilesOk, Footprint;
  }

  lemma OneLess(openers: multiset<Inode>, openers': multiset<Inode>, inode: Inode)
    requires inode in openers && openers' == openers - multiset{inode}
    ensures openers'[inode] == openers[inode] - 1 && forall x :: x != inode ==> openers'[x] == openers[x]
  {
  }

  lemma OpenIsOnlyAt(v: View, c: Call)
    requires ViewOk(v) && Allowed(v, c) && !c.Close?
    ensures OnlyAt(v, After(v, c), c.sector) && c.sector in After(v, c).count && After(v, c).files == v.files && After(v, c).used == v.used
    ensures c.Open? ==> After(v, c).count[c.sector] == v.count[c.sector] + 1 && After(v, c).marked == v.marked
    ensures c.Remove? ==> c.sector in After(v, c).marked && After(v, c).count == v.count
  {
    hide FilesOk, Footprint;
  }

  class Table {
    var open_inodes: seq<Inode>
    /** The inodes on disk, and the sectors that the free map has marked as used. */
    var files: map<nat, InodeDisk>
    var used: set<nat>
    /** Every open that has not been closed. */
    ghost var openers: multiset<Inode>
    /** What the table says of each file, by sector. */
    ghost var view: View

    ghost predicate Valid()
      reads this, open_inodes
    {
      && ViewOk(view) && view.files == files && view.used == used && Unique(open_inodes)
      && OpenOk(open_inodes, openers, view) && Listed(open_inodes, openers, view)
    }

    /** The open inode of a sector, if there is one. */
    method Find(sector: nat) returns (i: nat)
      requires Valid()
      ensures i <= |open_inodes| && (i < |open_inodes| ==> open_inodes[i].sector == sector)
      ensures i == |open_inodes| ==> forall x :: x in open_inodes ==> x.sector != sector
    {
      i := 0;
      while i < |open_inodes|
        invariant i <= |open_inodes| && forall j :: 0 <= j < i ==> open_inodes[j].sector != sector
      {
        if open_inodes[i].sector == sector { return; }
        i := i + 1;
      }
    }

    /** `inode_open`: opening a sector that is open returns the same inode; `memory` says whether a new one can
        be allocated. */
    method InodeOpen(sector: nat, memory: bool) returns (r: Inode?)
      requires Valid() && sector in files
      modifies `open_inodes, `openers, `view, open_inodes`open_cnt
      ensures Valid() && view == if r == null then old(view) else After(old(view), Open(sector))
      ensures r == null ==> !memory && openers == old(openers) && open_inodes == old(open_inodes) && forall x :: x in open_inodes ==> x.sector != sector
      ensures r != null ==> r.sector == sector && r.data == files[sector] && openers == old(openers) + multiset{r}
      ensures r != null && r !in old(open_inodes) ==>
                fresh(r) && open_inodes == [r] + old(open_inodes) && !r.removed && r.deny_write_cnt == 0 && r.open_cnt == 1
      ensures r != null && r in old(open_inodes) ==> open_inodes == old(open_inodes)
      ensures forall x :: x in old(open_inodes) && x.sector == sector ==> r == x
    {
      hide FilesOk, Unique, OpenOk;
      OneInode(open_inodes, openers, view, sector);
      var i := Find(sector);
      if i < |open_inodes| {
        r := open_inodes[i];
        Reopen(open_inodes[i]);
      } else if memory {
        r := Fresh(sector);
      } else {
        r := null;
      }
    }

    /** `inode_reopen`. */
    method Reopen(inode: Inode)
      requires Valid() && inode in open_inodes
      modifies `openers, `view, inode`open_cnt
      ensures Valid() && openers == old(openers) + multiset{inode} && inode.data == files[inode.sector]
      ensures view == After(old(view), Open(inode.sector))
    {
      hide ViewOk, Unique, OnlyAt, OpenOk, Listed, After;
      OneInode(open_inodes, openers, view, inode.sector);
      AfterKeeps(view, Open(inode.sector));
      OpenIsOnlyAt(view, Open(inode.sector));
      ListedMore(open_inodes, openers, view, open_inodes, After(view, Open(inode.sector)), inode);
      inode.open_cnt := inode.open_cnt + 1;
      OthersOk(open_inodes, openers, view, openers + multiset{inode}, After(view, Open(inode.sector)), inode);
      openers := openers + multiset{inode};
      view := After(view, Open(inode.sector));
    }

    /** An inode read in for its first opener. */
    method Fresh(sector: nat) returns (inode: Inode)
      requires Valid() && sector in files && forall x :: x in open_inodes ==> x.sector != sector
      modifies `open_inodes, `openers, `view
      ensures Valid() && open_inodes == [inode] + old(open_inodes) && openers == old(openers) + multiset{inode}
      ensures fresh(inode) && inode.sector == sector && inode.data == files[sector]
      ensures !inode.removed && inode.deny_write_cnt == 0 && inode.open_cnt == 1
      ensures view == After(old(view), Open(sector))
    {
      hide ViewOk, Unique, OnlyAt, OpenOk, Listed, After;
      OneInode(open_inodes, openers, view, sector);
      KeysAre(view);
      AfterKeeps(view, Open(sector));
      OpenIsOnlyAt(view, Open(sector));
      inode := new Inode(sector, files[sector]);
      UniqueMore(open_inodes, inode);
      ListedMore(open_inodes, openers, view, [inode] + open_inodes, After(view, Open(sector)), inode);
      OthersOk([inode] + open_inodes, openers, view, openers + multiset{inode}, After(view, Open(sector)), inode);
      open_inodes := [inode] + open_inodes;
      openers := openers + multiset{inode};
      view := After(view, Open(sector));
    }

    /** `inode_remove`: the inode will go when its last opener closes it. */
    method InodeRemove(inode: Inode)
      requires Valid() && inode in openers
      modifies `view, inode`removed
      ensures Valid() && inode.removed && view == After(old(view), Remove(inode.sector))
    {
      hide ViewOk, Unique, OnlyAt, OpenOk, After;
      OneInode(open_inodes, openers, view, inode.sector);
      AfterKeeps(view, Remove(inode.sector));
      OpenIsOnlyAt(view, Remove(inode.sector));
      inode.removed := true;
      OthersOk(open_inodes, openers, view, openers, After(view, Remove(inode.sector)), inode);
      view := After(view, Remove(inode.sector));
    }

    /** `inode_close`: the last close drops the inode, and gives back its sectors if it has been removed. */
    method InodeClose(inode: Inode)
      requires Valid() && inode in openers
      modifies this, inode`open_cnt
      ensures Valid() && openers == old(openers) - multiset{inode} && inode.open_cnt == openers[inode]
      ensures view == After(old(view), Close(inode.sector))
      ensures openers[inode] > 0 || !inode.removed ==> files == old(files) && used == old(used)
      ensures openers[inode] == 0 && inode.removed ==>
                files == old(files) - {inode.sector} && used == old(used) - Footprint(inode.sector, inode.data)
      ensures inode in open_inodes <==> openers[inode] > 0
      ensures forall x :: x != inode ==> (x in open_inodes <==> x in old(open_inodes))
    {
      hide ViewOk, Footprint, Extent, OpenOk, Listed, Unique;
      OneInode(open_inodes, openers, view, inode.sector);
      AfterKeeps(view, Close(inode.sector));
      Dismiss(inode);
      if inode.open_cnt == 0 && inode.removed {
        FreeFile(inode);
      }
    }

    /** The sectors of a file that nobody has open any more go back to the map of free sectors. */
    method FreeFile(inode: Inode)
      requires Valid() && inode.sector in files && inode.data == files[inode.sector]
      requires forall x :: x in open_inodes ==> x.sector != inode.sector
      requires inode.sector !in view.marked
      modifies `used, `files, `view
      ensures Valid() && files == old(files) - {inode.sector} && used == old(used) - Footprint(inode.sector, inode.data)
      ensures view == Deleted(old(view), inode.sector)
    {
      hide FilesOk, Footprint, Extent, OpenOk, Listed, Unique;
      DeletedKeeps(view, inode.sector);
      NoneLeft(open_inodes, openers, view, inode.sector);
      FootprintIs(inode.sector, inode.data);
      used := used - {inode.sector};
      Release(inode.data.start, BytesToSectors(inode.data.length));
      files := files - {inode.sector};
      view := Deleted(view, inode.sector);
    }

    /** One opener less; the last one takes the inode off the list. */
    method Dismiss(inode: Inode)
      requires Valid() && inode in openers
      modifies `open_inodes, `openers, `view, inode`open_cnt
      ensures Valid() && openers == old(openers) - multiset{inode} && inode.open_cnt == openers[inode]
      ensures view == Left(old(view), inode.sector)
      ensures inode.sector in files && inode.data == files[inode.sector] && (inode in open_inodes <==> openers[inode] > 0)
      ensures forall x :: x != inode ==> (x in open_inodes <==> x in old(open_inodes))
      ensures openers[inode] == 0 ==> forall x :: x in open_inodes ==> x.sector != inode.sector
    {
      hide ViewOk, Unique, OnlyAt, OpenOk, Listed, Left;
      OneInode(open_inodes, openers, view, inode.sector);
      LeftIsOnlyAt(view, inode.sector);
      ghost var s, o, v := open_inodes, openers - multiset{inode}, Left(view, inode.sector);
      OneLess(openers, o, inode);
      inode.open_cnt := inode.open_cnt - 1;
      if inode.open_cnt == 0 {
        open_inodes := Without(open_inodes, inode);
      }
      OthersOk(open_inodes, openers, view, o, v, inode);
      ListedLess(s, openers, view, open_inodes, o, v, inode);
      openers, view := o, v;
    }

    /** `free_map_release`. */
    method Release(start: nat, n: nat)
      modifies `used
      ensures used == old(used) - Extent(start, n)
    {
      var i := 0;
      while i < n
        invariant i <= n && used == old(used) - Extent(start, i)
      {
        used := used - {start + i};
        i := i + 1;
      }
    }
  }

  /** Of the open inodes only one has a given sector. */
  lemma OneInode(s: seq<Inode>, openers: multiset<Inode>, v: View, sector: nat)
    requires Unique(s) && OpenOk(s, openers, v) && Listed(s, openers, v)
    ensures forall x, y :: x in s && y in s && x.sector == sector && y.sector == sector ==> x == y
    ensures forall x :: x in openers <==> x in s
    ensures forall x :: x in s ==> InodeOk(x, openers, v)
    ensures sector in v.count && (forall x :: x in s ==> x.sector != sector) ==> v.count[sector] == 0
  {
  }

  lemma NoneLeft(s: seq<Inode>, openers: multiset<Inode>, v: View, sector: nat)
    requires OpenOk(s, openers, v) && Listed(s, openers, v) && sector in v.files && forall x :: x in s ==> x.sector != sector
    ensures OpenOk(s, openers, Deleted(v, sector)) && Listed(s, openers, Deleted(v, sector))
  {
    forall x | x in s ensures InodeOk(x, openers, Deleted(v, sector)) { assert InodeOk(x, openers, v); }
  }

  lemma FootprintIs(sector: nat, d: InodeDisk)
    ensures forall used: set<nat> :: used - {sector} - Extent(d.start, BytesToSectors(d.length)) == used - Footprint(sector, d)
  {
    hide Extent, BytesToSectors;
  }

  /** `list_remove`. */
  method Without(s: seq<Inode>, x: Inode) returns (r: seq<Inode>)
    requires x in s && Unique(s)
    ensures Unique(r) && forall y :: y in r <==> y in s && y != x
  {
    ghost var m :| 0 <= m < |s| && s[m] == x;
    var i := 0;
    while s[i] != x
      invariant i <= m && forall j :: 0 <= j < i ==> s[j] != x
      decreases m - i
    {
      i := i + 1;
    }
    r := s[..i] + s[i + 1..];
    assert forall j :: 0 <= j < |r| ==> r[j] == s[if j < i then j else j + 1];
    forall y | y in s && y != x ensures y in r {
      var k :| 0 <= k < |s| && s[k] == y;
      if k < i { assert r[k] == y; } else { assert r[k - 1] == y; }
    }
  }
}
