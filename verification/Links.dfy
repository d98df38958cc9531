// Directories and link counts (kernel/sysfile.c, kernel/fs.c): what create, link and unlink do to the
// entries of directories and the nlink of inodes.

module LinkState {

  const ROOTINO: nat := 1
  const DIRSIZ: nat := 14

  /** A C string: its characters, without the NUL that ends it. */
  type CString = s: string | '\0' !in s

  /** What a directory entry's name field can hold. */
  type Name = s: CString | |s| <= DIRSIZ

  datatype Kind = Free | Dir | File | Device

  /** A directory entry; inum 0 is an empty one. */
  datatype Dirent = Dirent(inum: nat, name: Name)

  /** An inode as these operations see it; files have no entries. */
  datatype Node = Node(kind: Kind, nlink: nat, entries: seq<Dirent>)

  /** A directory that is itself linked. */
  predicate Live(nodes: seq<Node>, d: nat) {
    d < |nodes| && nodes[d].kind == Dir && nodes[d].nlink > 0
  }

  /** Entry k of directory d counts as a link to inode i: "." does not. */
  predicate Names(nodes: seq<Node>, d: nat, k: nat, i: nat) {
    Live(nodes, d) && k < |nodes[d].entries| && nodes[d].entries[k].inum == i && nodes[d].entries[k].name != "."
  }

  ghost function Refs(nodes: seq<Node>, i: nat): set<(nat, nat)> {
    set d: nat, k: nat | d < |nodes| && k < |nodes[d].entries| && Names(nodes, d, k, i) :: (d, k)
  }

  /** The link count of inode i is the number of live entries that name it. */
  ghost predicate CountAt(nodes: seq<Node>, i: nat)
    requires i < |nodes|
  {
    nodes[i].nlink == |Refs(nodes, i)|
  }

  predicate Dots(name: string) {
    name == "." || name == ".."
  }

  predicate NodeAt(nodes: seq<Node>, d: nat)
    requires d < |nodes|
  {
    var r := nodes[d];
    && (forall k | 0 <= k < |r.entries| :: r.entries[k].inum < |nodes|)
    && (r.kind == Free ==> r.nlink == 0)
    && (r.kind != Dir ==> r.entries == [])
    && (r.kind == Dir ==>
          && 2 <= |r.entries| && r.entries[0] == Dirent(d, ".") && r.entries[1].name == ".." && r.entries[1].inum != 0
          && forall k | 2 <= k < |r.entries| && r.entries[k].inum != 0 :: !Dots(r.entries[k].name) && r.nlink > 0)
  }

  /** No two live names of a directory are equal. */
  predicate NamesDiffer(nodes: seq<Node>, d: nat, j: nat, k: nat)
    requires d < |nodes| && j < |nodes[d].entries| && k < |nodes[d].entries|
  {
    var e, f := nodes[d].entries[j], nodes[d].entries[k];
    e.inum != 0 && f.inum != 0 && e.name == f.name ==> j == k
  }

  predicate IsDir(nodes: seq<Node>, c: nat) {
    c < |nodes| && nodes[c].kind == Dir
  }

  /** A directory is named only in its parent, at place at[c]. */
  predicate NamedAt(nodes: seq<Node>, at: map<nat, (nat, nat)>, d: nat, k: nat)
    requires d < |nodes| && k < |nodes[d].entries|
  {
    var c := nodes[d].entries[k].inum;
    nodes[d].kind == Dir && k >= 2 && c != 0 && IsDir(nodes, c) ==> c != ROOTINO && c in at && at[c] == (d, k)
  }

  predicate PlacedAt(nodes: seq<Node>, at: map<nat, (nat, nat)>, c: nat)
    requires c < |nodes|
  {
    Live(nodes, c) && |nodes[c].entries| >= 2 ==>
      if c == ROOTINO then nodes[c].entries[1].inum == ROOTINO
      else c in at
           && (var (d, k) := at[c];
               Live(nodes, d) && 2 <= k < |nodes[d].entries| && nodes[d].entries[k].inum == c
               && nodes[c].entries[1].inum == d)
  }

  ghost predicate CountsOk(nodes: seq<Node>) {
    forall i {:trigger CountAt(nodes, i)} | 0 < i < |nodes| :: CountAt(nodes, i)
  }

  ghost predicate LinksOk(nodes: seq<Node>, at: map<nat, (nat, nat)>) {
    && ROOTINO < |nodes| && Live(nodes, ROOTINO)
    && CountsOk(nodes)
    && (forall d {:trigger NodeAt(nodes, d)} | 0 <= d < |nodes| :: NodeAt(nodes, d))
    && (forall d, j, k {:trigger NamesDiffer(nodes, d, j, k)}
          | 0 <= d < |nodes| && 0 <= j < |nodes[d].entries| && 0 <= k < |nodes[d].entries| ::
              NamesDiffer(nodes, d, j, k))
    && (forall d, k {:trigger NamedAt(nodes, at, d, k)} | 0 <= d < |nodes| && 0 <= k < |nodes[d].entries| ::
          NamedAt(nodes, at, d, k))
    && (forall c {:trigger PlacedAt(nodes, at, c)} | 0 <= c < |nodes| :: PlacedAt(nodes, at, c))
    && nodes[0].kind == Free
  }

  /** An entry written into an empty slot, or after the last one. */
  function Put(nodes: seq<Node>, d: nat, k: nat, e: Dirent): seq<Node>
    requires d < |nodes| && k <= |nodes[d].entries|
  {
    var es := nodes[d].entries;
    nodes[d := nodes[d].(entries := if k < |es| then es[k := e] else es + [e])]
  }

  function WithLinks(nodes: seq<Node>, i: nat, n: nat): seq<Node>
    requires i < |nodes|
  {
    nodes[i := nodes[i].(nlink := n)]
  }

  /** What the kernel sees of a name: its first DIRSIZ characters. */
  function Cut(s: CString): Name {
    if |s| <= DIRSIZ then s else s[..DIRSIZ]
  }

  /** Where a name is in a directory; |entries| if it is not there. */
  function Find(es: seq<Dirent>, name: string): (k: nat)
    ensures k <= |es|
    ensures k < |es| ==> es[k].inum != 0 && es[k].name == name
    ensures forall j | 0 <= j < k :: es[j].inum == 0 || es[j].name != name
  {
    if es == [] then 0
    else if es[0].inum != 0 && es[0].name == name then 0
    else Find(es[1..], name) + 1
  }

  /** The inode that a name stands for; 0 if there is none. */
  function Lookup(es: seq<Dirent>, name: string): nat {
    if Find(es, name) < |es| then es[Find(es, name)].inum else 0
  }

  /** The first empty slot of a directory; |entries| if there is none. */
  function Slot(es: seq<Dirent>): (k: nat)
    ensures k <= |es|
    ensures k < |es| ==> es[k].inum == 0
    ensures forall j | 0 <= j < k :: es[j].inum != 0
  {
    if es == [] then 0 else if es[0].inum == 0 then 0 else Slot(es[1..]) + 1
  }
}

module LinkFacts {
  import opened LinkState

  // ---- what single changes do to the links of an inode ----

  lemma RefsAfterPut(nodes: seq<Node>, d: nat, k: nat, e: Dirent, i: nat)
    requires d < |nodes| && k <= |nodes[d].entries|
    ensures var t := Put(nodes, d, k, e);
            Refs(t, i) == if !Live(nodes, d) then Refs(nodes, i)
                          else if e.inum == i && e.name != "." then Refs(nodes, i) + {(d, k)}
                          else Refs(nodes, i) - {(d, k)}
  {
    var t := Put(nodes, d, k, e);
    forall x: nat, y: nat
      ensures (x, y) in Refs(t, i) <==>
              if (x, y) == (d, k) && Live(nodes, d) then e.inum == i && e.name != "." else (x, y) in Refs(nodes, i)
    {
      assert Names(t, x, y, i) <==>
             if (x, y) == (d, k) && Live(nodes, d) then e.inum == i && e.name != "." else Names(nodes, x, y, i);
    }
  }

  /** A count that changes without a directory dying or coming to life. */
  lemma RefsAfterCount(nodes: seq<Node>, j: nat, n: nat, i: nat)
    requires j < |nodes| && (nodes[j].kind == Dir ==> (nodes[j].nlink > 0 <==> n > 0))
    ensures Refs(WithLinks(nodes, j, n), i) == Refs(nodes, i)
  {
    var t := WithLinks(nodes, j, n);
    forall x: nat, y: nat ensures (x, y) in Refs(t, i) <==> (x, y) in Refs(nodes, i) {
      assert Names(t, x, y, i) <==> Names(nodes, x, y, i);
    }
  }

  /** A directory with nothing but "." and ".." dies: its parent loses a link. */
  lemma RefsAfterDeath(nodes: seq<Node>, c: nat, i: nat)
    requires Live(nodes, c) && NodeAt(nodes, c) && i != 0
    requires forall k | 2 <= k < |nodes[c].entries| :: nodes[c].entries[k].inum == 0
    ensures Refs(WithLinks(nodes, c, 0), i) == Refs(nodes, i) - {(c, 1)}
    ensures nodes[c].entries[1].inum == i <==> (c, 1) in Refs(nodes, i)
  {
    var t := WithLinks(nodes, c, 0);
    forall x: nat, y: nat ensures (x, y) in Refs(t, i) <==> (x, y) in Refs(nodes, i) && (x, y) != (c, 1) {
      assert Names(t, x, y, i) <==> Names(nodes, x, y, i) && (x, y) != (c, 1);
    }
    assert (c, 1) in Refs(nodes, i) <==> Names(nodes, c, 1, i);
  }

  lemma IsRef(nodes: seq<Node>, d: nat, k: nat, i: nat)
    ensures (d, k) in Refs(nodes, i) <==> Names(nodes, d, k, i)
  {
  }

  /** A free inode is named nowhere. */
  lemma FreeUnnamed(nodes: seq<Node>, at: map<nat, (nat, nat)>, i: nat, d: nat, k: nat)
    requires LinksOk(nodes, at) && 0 < i < |nodes| && nodes[i].nlink == 0
    ensures Refs(nodes, i) == {} && !Names(nodes, d, k, i)
    ensures d < |nodes| && k < |nodes[d].entries| && nodes[d].entries[k].inum == i && nodes[d].nlink > 0 ==>
              nodes[d].entries[k].name == "."
  {
    assert CountAt(nodes, i);
    IsRef(nodes, d, k, i);
    if d < |nodes| && k < |nodes[d].entries| {
      assert NodeAt(nodes, d);
    }
  }

  /** Where a new entry may go. */
  predicate MayEnter(nodes: seq<Node>, d: nat, k: nat, name: Name) {
    && d < |nodes| && nodes[d].kind == Dir && k == Slot(nodes[d].entries) && !Dots(name)
    && Find(nodes[d].entries, name) == |nodes[d].entries|
  }

  lemma EntersPastDots(nodes: seq<Node>, at: map<nat, (nat, nat)>, d: nat, k: nat, name: Name)
    requires LinksOk(nodes, at) && MayEnter(nodes, d, k, name)
    ensures 2 <= k <= |nodes[d].entries|
    ensures forall i | 0 < i < |nodes| :: (d, k) !in Refs(nodes, i)
  {
    assert NodeAt(nodes, d);
    assert k != 0 && k != 1;
    forall i | 0 < i < |nodes| ensures (d, k) !in Refs(nodes, i) {
      IsRef(nodes, d, k, i);
    }
  }

  /** A new entry for an inode that is no directory, together with one more link. */
  ghost function Entered(nodes: seq<Node>, i: nat, d: nat, k: nat, name: Name): seq<Node>
    requires i < |nodes| && d < |nodes| && k <= |nodes[d].entries| && nodes[i].kind != Dir
  {
    Put(WithLinks(nodes, i, nodes[i].nlink + 1), d, k, Dirent(i, name))
  }

  lemma EnteredCounts(nodes: seq<Node>, at: map<nat, (nat, nat)>, i: nat, d: nat, k: nat, name: Name, x: nat)
    requires LinksOk(nodes, at) && MayEnter(nodes, d, k, name) && 0 < i < |nodes| && nodes[i].kind != Dir
    requires k <= |nodes[d].entries| && 0 < x < |nodes| && Live(nodes, d)
    ensures CountAt(Entered(nodes, i, d, k, name), x)
  {
    var s := WithLinks(nodes, i, nodes[i].nlink + 1);
    EntersPastDots(nodes, at, d, k, name);
    RefsAfterCount(nodes, i, nodes[i].nlink + 1, x);
    RefsAfterPut(s, d, k, Dirent(i, name), x);
    assert CountAt(nodes, x);
    if x != i {
      assert Refs(nodes, x) - {(d, k)} == Refs(nodes, x);
    }
  }

  /** The new entry upsets nothing but counts. */
  lemma EnteredShape(nodes: seq<Node>, at: map<nat, (nat, nat)>, i: nat, d: nat, k: nat, name: Name)
    requires LinksOk(nodes, at) && MayEnter(nodes, d, k, name) && 0 < i < |nodes| && nodes[i].kind != Dir
    requires nodes[i].kind != Free && k <= |nodes[d].entries| && Live(nodes, d)
    ensures LinksOk(Entered(nodes, i, d, k, name), at)
  {
    hide Refs, CountAt, Find, Slot;
    var t := Entered(nodes, i, d, k, name);
    EntersPastDots(nodes, at, d, k, name);
    forall x | 0 < x < |t| ensures CountAt(t, x) {
      EnteredCounts(nodes, at, i, d, k, name, x);
    }
    forall x | 0 <= x < |t| ensures NodeAt(t, x) {
      assert NodeAt(nodes, x);
    }
    forall x, y, z | 0 <= x < |t| && 0 <= y < |t[x].entries| && 0 <= z < |t[x].entries|
        ensures NamesDiffer(t, x, y, z) {
      EnteredNames(nodes, i, d, k, name, x, y, z);
    }
    forall x, y | 0 <= x < |t| && 0 <= y < |t[x].entries| ensures NamedAt(t, at, x, y) {
      assert (x, y) != (d, k) ==> NamedAt(nodes, at, x, y);
    }
    forall x | 0 <= x < |t| ensures PlacedAt(t, at, x) {
      assert PlacedAt(nodes, at, x) && NodeAt(nodes, x);
    }
    assert Live(t, ROOTINO);
  }

  lemma EnteredNames(nodes: seq<Node>, i: nat, d: nat, k: nat, name: Name, x: nat, y: nat, z: nat)
    requires MayEnter(nodes, d, k, name) && k <= |nodes[d].entries| && i < |nodes| && nodes[i].kind != Dir
    requires forall d, j, k {:trigger NamesDiffer(nodes, d, j, k)}
      | 0 <= d < |nodes| && 0 <= j < |nodes[d].entries| && 0 <= k < |nodes[d].entries| :: NamesDiffer(nodes, d, j, k)
    requires var t := Entered(nodes, i, d, k, name); x < |t| && y < |t[x].entries| && z < |t[x].entries|
    ensures NamesDiffer(Entered(nodes, i, d, k, name), x, y, z)
  {
    if x < |nodes| && y < |nodes[x].entries| && z < |nodes[x].entries| {
      assert NamesDiffer(nodes, x, y, z);
    }
  }

  /** An entry in a directory that is no longer linked is no link: the count is then one too high. */
  lemma EnteredDead(nodes: seq<Node>, at: map<nat, (nat, nat)>, i: nat, d: nat, k: nat, name: Name)
    requires LinksOk(nodes, at) && 0 < i < |nodes| && nodes[i].kind != Dir
    requires d < |nodes| && k <= |nodes[d].entries| && !Live(nodes, d)
    ensures !CountsOk(Entered(nodes, i, d, k, name))
  {
    var s := WithLinks(nodes, i, nodes[i].nlink + 1);
    RefsAfterCount(nodes, i, nodes[i].nlink + 1, i);
    RefsAfterPut(s, d, k, Dirent(i, name), i);
    assert CountAt(nodes, i) && !CountAt(Entered(nodes, i, d, k, name), i);
  }

  // ---- making and freeing an inode that nothing names ----

  lemma RefsAfterReplace(nodes: seq<Node>, i: nat, r: Node, x: nat)
    requires i < |nodes| && !Live(nodes, i) && !(r.kind == Dir && r.nlink > 0)
    ensures Refs(nodes[i := r], x) == Refs(nodes, x)
  {
    var t := nodes[i := r];
    forall y: nat, z: nat ensures (y, z) in Refs(t, x) <==> (y, z) in Refs(nodes, x) {
      assert Names(t, y, z, x) <==> Names(nodes, y, z, x);
    }
  }

  /** Inode i, without links, becomes free, or a file, or a directory of its own with "." and "..". */
  lemma Replaced(nodes: seq<Node>, at: map<nat, (nat, nat)>, i: nat, r: Node)
    requires LinksOk(nodes, at) && 0 < i < |nodes| && nodes[i].nlink == 0 && r.nlink == 0
    requires NodeAt(nodes[i := r], i)
    requires r.kind == Dir ==> |r.entries| == 2 && forall j, k | 0 <= j < k < 2 ::
        r.entries[j].name != r.entries[k].name
    ensures LinksOk(nodes[i := r], at)
  {
    var t := nodes[i := r];
    assert NodeAt(nodes, i);
    forall x | 0 < x < |t| ensures CountAt(t, x) {
      assert CountAt(nodes, x);
      RefsAfterReplace(nodes, i, r, x);
    }
    forall x | 0 <= x < |t| ensures NodeAt(t, x) {
      assert NodeAt(nodes, x);
    }
    forall x, y, z | 0 <= x < |t| && 0 <= y < |t[x].entries| && 0 <= z < |t[x].entries|
        ensures NamesDiffer(t, x, y, z) {
      assert x != i ==> NamesDiffer(nodes, x, y, z);
    }
    forall x, y | 0 <= x < |t| && 0 <= y < |t[x].entries| ensures NamedAt(t, at, x, y) {
      if x != i && y >= 2 {
        FreeUnnamed(nodes, at, i, x, y);
        assert NamedAt(nodes, at, x, y) && NodeAt(nodes, x);
      }
    }
    forall x | 0 <= x < |t| ensures PlacedAt(t, at, x) {
      assert PlacedAt(nodes, at, x) && NodeAt(nodes, x);
    }
  }

  // ---- a new directory gets its name ----

  /** A directory with nothing in it that is not linked. */
  predicate Loose(nodes: seq<Node>, i: nat, parent: nat) {
    && i < |nodes| && nodes[i] == Node(Dir, 0, [Dirent(i, "."), Dirent(parent, "..")])
  }

  ghost function DirEntered(nodes: seq<Node>, i: nat, d: nat, k: nat, name: Name): seq<Node>
    requires i < |nodes| && d < |nodes| && k <= |nodes[d].entries| && i != d
  {
    Put(WithLinks(WithLinks(nodes, i, 1), d, nodes[d].nlink + 1), d, k, Dirent(i, name))
  }

  /** Entry (y, z) names x afterwards if it did before, or is the new directory's ".." or its name. */
  lemma DirEnteredName(nodes: seq<Node>, i: nat, d: nat, k: nat, name: Name, x: nat, y: nat, z: nat)
    requires Loose(nodes, i, d) && MayEnter(nodes, d, k, name) && Live(nodes, d) && i != d && x != 0
    requires k <= |nodes[d].entries|
    ensures Names(DirEntered(nodes, i, d, k, name), y, z, x) <==>
            Names(nodes, y, z, x) || (x == d && (y, z) == (i, 1)) || (x == i && (y, z) == (d, k))
  {
  }

  lemma DirEnteredRefs(nodes: seq<Node>, i: nat, d: nat, k: nat, name: Name, x: nat)
    requires Loose(nodes, i, d) && MayEnter(nodes, d, k, name) && Live(nodes, d) && i != d && x != 0
    requires k <= |nodes[d].entries|
    ensures Refs(DirEntered(nodes, i, d, k, name), x)
            == Refs(nodes, x) + (if x == d then {(i, 1)} else {}) + (if x == i then {(d, k)} else {})
    ensures (i, 1) !in Refs(nodes, x) && (d, k) !in Refs(nodes, x)
  {
    var t := DirEntered(nodes, i, d, k, name);
    forall y: nat, z: nat
      ensures (y, z) in Refs(t, x) <==>
              (y, z) in Refs(nodes, x) || (x == d && (y, z) == (i, 1)) || (x == i && (y, z) == (d, k))
    {
      DirEnteredName(nodes, i, d, k, name, x, y, z);
      IsRef(t, y, z, x);
      IsRef(nodes, y, z, x);
    }
    IsRef(nodes, i, 1, x);
    IsRef(nodes, d, k, x);
  }

  lemma DirEnteredCount(nodes: seq<Node>, at: map<nat, (nat, nat)>, i: nat, d: nat, k: nat, name: Name, x: nat)
    requires LinksOk(nodes, at) && Loose(nodes, i, d) && Live(nodes, d) && MayEnter(nodes, d, k, name)
    requires i != 0 && i != d && 0 < x < |nodes| && k <= |nodes[d].entries|
    ensures CountAt(DirEntered(nodes, i, d, k, name), x)
  {
    DirEnteredRefs(nodes, i, d, k, name, x);
    assert CountAt(nodes, x);
    hide Refs;
    assert x == i ==> Refs(nodes, i) == {};
  }

  lemma DirEnteredNames(nodes: seq<Node>, at: map<nat, (nat, nat)>, i: nat, d: nat, k: nat, name: Name, x: nat)
    requires LinksOk(nodes, at) && Loose(nodes, i, d) && Live(nodes, d) && MayEnter(nodes, d, k, name)
    requires i != 0 && i != d && x < |nodes| && k <= |nodes[d].entries|
    ensures var t := DirEntered(nodes, i, d, k, name);
            && NodeAt(t, x)
            && forall y, z | 0 <= y < |t[x].entries| && 0 <= z < |t[x].entries| :: NamesDiffer(t, x, y, z)
  {
    var t := DirEntered(nodes, i, d, k, name);
    EntersPastDots(nodes, at, d, k, name);
    assert NodeAt(nodes, x);
    forall y, z | 0 <= y < |t[x].entries| && 0 <= z < |t[x].entries| ensures NamesDiffer(t, x, y, z) {
      if y < |nodes[x].entries| && z < |nodes[x].entries| {
        assert NamesDiffer(nodes, x, y, z);
      }
    }
  }

  lemma DirEnteredPlaces(nodes: seq<Node>, at: map<nat, (nat, nat)>, i: nat, d: nat, k: nat, name: Name, x: nat)
    requires LinksOk(nodes, at) && Loose(nodes, i, d) && Live(nodes, d) && MayEnter(nodes, d, k, name)
    requires i != 0 && i != d && x < |nodes| && k <= |nodes[d].entries| && i != ROOTINO
    ensures var t, at' := DirEntered(nodes, i, d, k, name), at[i := (d, k)];
            && PlacedAt(t, at', x)
            && forall y | 0 <= y < |t[x].entries| :: NamedAt(t, at', x, y)
  {
    var t, at' := DirEntered(nodes, i, d, k, name), at[i := (d, k)];
    EntersPastDots(nodes, at, d, k, name);
    assert NodeAt(nodes, x) && PlacedAt(nodes, at, x);
    forall y | 0 <= y < |t[x].entries| ensures NamedAt(t, at', x, y) {
      if (x, y) != (d, k) && y >= 2 {
        FreeUnnamed(nodes, at, i, x, y);
        assert NamedAt(nodes, at, x, y);
      }
    }
  }

  lemma DirEnteredOk(nodes: seq<Node>, at: map<nat, (nat, nat)>, i: nat, d: nat, k: nat, name: Name)
    requires LinksOk(nodes, at) && Loose(nodes, i, d) && Live(nodes, d) && MayEnter(nodes, d, k, name)
    requires i != 0 && d != 0 && i != d && k <= |nodes[d].entries| && i != ROOTINO
    ensures LinksOk(DirEntered(nodes, i, d, k, name), at[i := (d, k)])
  {
    var t, at' := DirEntered(nodes, i, d, k, name), at[i := (d, k)];
    forall x | 0 < x < |t| ensures CountAt(t, x) {
      DirEnteredCount(nodes, at, i, d, k, name, x);
    }
    forall x | 0 <= x < |t| ensures NodeAt(t, x) {
      DirEnteredNames(nodes, at, i, d, k, name, x);
    }
    forall x, y, z | 0 <= x < |t| && 0 <= y < |t[x].entries| && 0 <= z < |t[x].entries|
        ensures NamesDiffer(t, x, y, z) {
      DirEnteredNames(nodes, at, i, d, k, name, x);
    }
    forall x, y | 0 <= x < |t| && 0 <= y < |t[x].entries| ensures NamedAt(t, at', x, y) {
      DirEnteredPlaces(nodes, at, i, d, k, name, x);
    }
    forall x | 0 <= x < |t| ensures PlacedAt(t, at', x) {
      DirEnteredPlaces(nodes, at, i, d, k, name, x);
    }
  }

  /** In a directory that is no longer linked, mkdir brings the directory back, and its ".." is a link
      that its parent does not count. */
  lemma DirEnteredDead(nodes: seq<Node>, at: map<nat, (nat, nat)>, i: nat, d: nat, k: nat, name: Name)
    requires LinksOk(nodes, at) && Loose(nodes, i, d) && MayEnter(nodes, d, k, name) && nodes[d].nlink == 0
    requires k <= |nodes[d].entries| && i != 0 && i != d && d != 0
    ensures !CountsOk(DirEntered(nodes, i, d, k, name))
  {
    EntersPastDots(nodes, at, d, k, name);
    assert NodeAt(nodes, d);
    var t, p := DirEntered(nodes, i, d, k, name), nodes[d].entries[1].inum;
    DeadRefs(nodes, at, i, d, k, name, p);
    assert CountAt(nodes, p);
    hide Refs;
    assert !CountAt(t, p);
  }

  lemma DeadRefs(nodes: seq<Node>, at: map<nat, (nat, nat)>, i: nat, d: nat, k: nat, name: Name, p: nat)
    requires LinksOk(nodes, at) && Loose(nodes, i, d) && MayEnter(nodes, d, k, name) && nodes[d].nlink == 0
    requires 2 <= k <= |nodes[d].entries| && i != d && 0 < p < |nodes| && p == nodes[d].entries[1].inum
    ensures Refs(DirEntered(nodes, i, d, k, name), p)
            == Refs(nodes, p) + {(d, 1)} + (if p == d then {(i, 1)} else {}) + (if p == i then {(d, k)} else {})
    ensures (d, 1) !in Refs(nodes, p) && (i, 1) !in Refs(nodes, p) && (d, k) !in Refs(nodes, p)
  {
    var t := DirEntered(nodes, i, d, k, name);
    assert NodeAt(nodes, d);
    forall y: nat, z: nat
      ensures (y, z) in Refs(t, p) <==>
              (y, z) in Refs(nodes, p) || (y, z) == (d, 1) || (p == d && (y, z) == (i, 1))
                  || (p == i && (y, z) == (d, k))
    {
      DeadName(nodes, i, d, k, name, p, y, z);
      IsRef(t, y, z, p);
      IsRef(nodes, y, z, p);
    }
    IsRef(nodes, d, 1, p);
    IsRef(nodes, i, 1, p);
    IsRef(nodes, d, k, p);
  }

  lemma DeadName(nodes: seq<Node>, i: nat, d: nat, k: nat, name: Name, p: nat, y: nat, z: nat)
    requires Loose(nodes, i, d) && MayEnter(nodes, d, k, name) && nodes[d].nlink == 0 && NodeAt(nodes, d) && i != d
    requires 2 <= k <= |nodes[d].entries| && p != 0 && p == nodes[d].entries[1].inum
    ensures Names(DirEntered(nodes, i, d, k, name), y, z, p) <==>
            Names(nodes, y, z, p) || (y, z) == (d, 1) || (p == d && (y, z) == (i, 1)) || (p == i && (y, z) == (d, k))
  {
  }

  // ---- unlink ----

  const ERASED: Dirent := Dirent(0, "")

  /** A name that unlink takes away: not "." or "..", and found. */
  predicate MayErase(nodes: seq<Node>, d: nat, k: nat) {
    && d < |nodes| && nodes[d].kind == Dir && k < |nodes[d].entries| && nodes[d].entries[k].inum != 0
    && !Dots(nodes[d].entries[k].name)
  }

  /** The directory is live, and so is what it names. */
  lemma ErasedIsLinked(nodes: seq<Node>, at: map<nat, (nat, nat)>, d: nat, k: nat)
    requires LinksOk(nodes, at) && MayErase(nodes, d, k)
    ensures k >= 2 && Live(nodes, d) && nodes[d].entries[k].inum < |nodes|
    ensures (d, k) in Refs(nodes, nodes[d].entries[k].inum) && nodes[nodes[d].entries[k].inum].nlink >= 1
    ensures nodes[nodes[d].entries[k].inum].kind != Free
    ensures forall x | 0 < x < |nodes| && x != nodes[d].entries[k].inum :: (d, k) !in Refs(nodes, x)
  {
    var i := nodes[d].entries[k].inum;
    assert NodeAt(nodes, d) && NodeAt(nodes, i) && CountAt(nodes, i);
    IsRef(nodes, d, k, i);
    assert Refs(nodes, i) != {};
    forall x | 0 < x < |nodes| && x != i ensures (d, k) !in Refs(nodes, x) {
      IsRef(nodes, d, k, x);
    }
  }

  ghost function Erased(nodes: seq<Node>, i: nat, d: nat, k: nat): seq<Node>
    requires i < |nodes| && d < |nodes| && k <= |nodes[d].entries| && nodes[i].nlink >= 1 && nodes[i].kind != Dir
  {
    WithLinks(Put(nodes, d, k, ERASED), i, nodes[i].nlink - 1)
  }

  lemma ErasedCount(nodes: seq<Node>, at: map<nat, (nat, nat)>, i: nat, d: nat, k: nat, x: nat)
    requires LinksOk(nodes, at) && MayErase(nodes, d, k) && nodes[d].entries[k].inum == i < |nodes|
    requires nodes[i].kind != Dir && nodes[i].nlink >= 1 && 0 < x < |nodes|
    ensures CountAt(Erased(nodes, i, d, k), x)
  {
    ErasedIsLinked(nodes, at, d, k);
    var s := Put(nodes, d, k, ERASED);
    RefsAfterPut(nodes, d, k, ERASED, x);
    RefsAfterCount(s, i, nodes[i].nlink - 1, x);
    assert CountAt(nodes, x);
    hide Refs;
    assert x != i ==> Refs(nodes, x) - {(d, k)} == Refs(nodes, x);
  }

  lemma ErasedOk(nodes: seq<Node>, at: map<nat, (nat, nat)>, i: nat, d: nat, k: nat)
    requires LinksOk(nodes, at) && MayErase(nodes, d, k) && nodes[d].entries[k].inum == i < |nodes|
    requires nodes[i].kind != Dir && nodes[i].nlink >= 1
    ensures LinksOk(Erased(nodes, i, d, k), at)
  {
    var t := Erased(nodes, i, d, k);
    ErasedIsLinked(nodes, at, d, k);
    forall x | 0 < x < |t| ensures CountAt(t, x) {
      ErasedCount(nodes, at, i, d, k, x);
    }
    forall x | 0 <= x < |t| ensures NodeAt(t, x) && PlacedAt(t, at, x) {
      assert NodeAt(nodes, x) && PlacedAt(nodes, at, x);
    }
    forall x, y, z | 0 <= x < |t| && 0 <= y < |t[x].entries| && 0 <= z < |t[x].entries|
        ensures NamesDiffer(t, x, y, z) {
      assert NamesDiffer(nodes, x, y, z);
    }
    forall x, y | 0 <= x < |t| && 0 <= y < |t[x].entries| ensures NamedAt(t, at, x, y) {
      assert NamedAt(nodes, at, x, y);
    }
  }

  predicate Empty(nodes: seq<Node>, i: nat) {
    i < |nodes| && forall k | 2 <= k < |nodes[i].entries| :: nodes[i].entries[k].inum == 0
  }

  /** An empty directory is linked by its one name alone, and its parent by more than that. */
  lemma EmptyDirLinks(nodes: seq<Node>, at: map<nat, (nat, nat)>, i: nat, d: nat, k: nat)
    requires LinksOk(nodes, at) && MayErase(nodes, d, k) && nodes[d].entries[k].inum == i < |nodes|
    requires nodes[i].kind == Dir && Empty(nodes, i)
    ensures i != d && i != ROOTINO && nodes[i].nlink == 1 && Refs(nodes, i) == {(d, k)}
    ensures 2 <= |nodes[i].entries| && nodes[i].entries[1].inum == d
    ensures (i, 1) in Refs(nodes, d) && nodes[d].nlink >= 2
  {
    ErasedIsLinked(nodes, at, d, k);
    assert NamedAt(nodes, at, d, k) && NodeAt(nodes, i) && PlacedAt(nodes, at, i);
    IsRef(nodes, i, 1, d);
    forall x: nat, y: nat ensures (x, y) in Refs(nodes, i) <==> (x, y) == (d, k) {
      IsRef(nodes, x, y, i);
      if Names(nodes, x, y, i) {
        OnlyName(nodes, at, i, d, k, x, y);
      }
    }
    assert Refs(nodes, i) == {(d, k)};
    assert CountAt(nodes, i) && CountAt(nodes, d);
    AnotherLink(nodes, at, i, d);
  }

  lemma OnlyName(nodes: seq<Node>, at: map<nat, (nat, nat)>, i: nat, d: nat, k: nat, x: nat, y: nat)
    requires LinksOk(nodes, at) && MayErase(nodes, d, k) && nodes[d].entries[k].inum == i < |nodes|
    requires nodes[i].kind == Dir && Empty(nodes, i) && Names(nodes, x, y, i)
    ensures (x, y) == (d, k)
  {
    assert NamedAt(nodes, at, d, k) && NodeAt(nodes, d) && NodeAt(nodes, x);
    assert NamedAt(nodes, at, x, y) && PlacedAt(nodes, at, x);
  }

  /** A live directory is linked by its own name, or by its own ".." if it is the root. */
  lemma AnotherLink(nodes: seq<Node>, at: map<nat, (nat, nat)>, i: nat, d: nat)
    requires LinksOk(nodes, at) && Live(nodes, d) && d != 0 && (i, 1) in Refs(nodes, d) && i != d
    ensures nodes[d].nlink >= 2
  {
    assert NodeAt(nodes, d) && PlacedAt(nodes, at, d) && CountAt(nodes, d);
    var own := if d == ROOTINO then (d, 1) else at[d];
    if d != ROOTINO {
      assert NodeAt(nodes, own.0);
    }
    IsRef(nodes, own.0, own.1, d);
    assert own != (i, 1);
    assert {own, (i, 1)} <= Refs(nodes, d);
    Subset({own, (i, 1)}, Refs(nodes, d));
  }

  lemma Subset(a: set<(nat, nat)>, b: set<(nat, nat)>)
    requires a <= b
    ensures |a| <= |b|
  {
    assert b == a + (b - a);
  }

  ghost function DirErased(nodes: seq<Node>, i: nat, d: nat, k: nat): seq<Node>
    requires i < |nodes| && d < |nodes| && k <= |nodes[d].entries| && nodes[i].nlink >= 1 && nodes[d].nlink >= 1
    requires i != d
  {
    WithLinks(WithLinks(Put(nodes, d, k, ERASED), d, nodes[d].nlink - 1), i, nodes[i].nlink - 1)
  }

  lemma DirErasedRefs(nodes: seq<Node>, at: map<nat, (nat, nat)>, i: nat, d: nat, k: nat, x: nat)
    requires LinksOk(nodes, at) && MayErase(nodes, d, k) && nodes[d].entries[k].inum == i < |nodes|
    requires nodes[i].kind == Dir && Empty(nodes, i) && i != d && nodes[i].nlink == 1 && nodes[d].nlink >= 2
    requires 0 < x < |nodes|
    ensures Refs(DirErased(nodes, i, d, k), x) == Refs(nodes, x) - {(d, k)} - {(i, 1)}
  {
    ErasedIsLinked(nodes, at, d, k);
    assert NodeAt(nodes, i);
    var s1 := Put(nodes, d, k, ERASED);
    var s2 := WithLinks(s1, d, nodes[d].nlink - 1);
    RefsAfterPut(nodes, d, k, ERASED, x);
    RefsAfterCount(s1, d, nodes[d].nlink - 1, x);
    assert s2[i] == nodes[i] && NodeAt(s2, i);
    RefsAfterDeath(s2, i, x);
  }

  lemma DirErasedCount(nodes: seq<Node>, at: map<nat, (nat, nat)>, i: nat, d: nat, k: nat, x: nat)
    requires LinksOk(nodes, at) && MayErase(nodes, d, k) && nodes[d].entries[k].inum == i < |nodes|
    requires nodes[i].kind == Dir && Empty(nodes, i) && 0 < x < |nodes|
    ensures i != d && nodes[i].nlink == 1 && nodes[d].nlink >= 2 && CountAt(DirErased(nodes, i, d, k), x)
  {
    ErasedIsLinked(nodes, at, d, k);
    EmptyDirLinks(nodes, at, i, d, k);
    DirErasedRefs(nodes, at, i, d, k, x);
    assert CountAt(nodes, x);
    IsRef(nodes, i, 1, x);
    assert x != d ==> (i, 1) !in Refs(nodes, x);
    hide Refs;
    if x == i {
      assert Refs(nodes, x) - {(d, k)} - {(i, 1)} == {};
    } else if x == d {
      assert Refs(nodes, x) - {(d, k)} == Refs(nodes, x);
    } else {
      assert Refs(nodes, x) - {(d, k)} - {(i, 1)} == Refs(nodes, x);
    }
  }

  lemma DirErasedOk(nodes: seq<Node>, at: map<nat, (nat, nat)>, i: nat, d: nat, k: nat)
    requires LinksOk(nodes, at) && MayErase(nodes, d, k) && nodes[d].entries[k].inum == i < |nodes|
    requires nodes[i].kind == Dir && Empty(nodes, i)
    ensures i != d && nodes[i].nlink == 1 && nodes[d].nlink >= 2 && LinksOk(DirErased(nodes, i, d, k), at)
  {
    ErasedIsLinked(nodes, at, d, k);
    EmptyDirLinks(nodes, at, i, d, k);
    var t := DirErased(nodes, i, d, k);
    forall x | 0 < x < |t| ensures CountAt(t, x) {
      DirErasedCount(nodes, at, i, d, k, x);
    }
    forall x | 0 <= x < |t| ensures NodeAt(t, x) && PlacedAt(t, at, x) {
      assert NodeAt(nodes, x) && PlacedAt(nodes, at, x);
      DirErasedPlaced(nodes, at, i, d, k, x);
    }
    forall x, y, z | 0 <= x < |t| && 0 <= y < |t[x].entries| && 0 <= z < |t[x].entries|
        ensures NamesDiffer(t, x, y, z) {
      assert NamesDiffer(nodes, x, y, z);
    }
    forall x, y | 0 <= x < |t| && 0 <= y < |t[x].entries| ensures NamedAt(t, at, x, y) {
      assert NamedAt(nodes, at, x, y);
    }
  }

  lemma DirErasedPlaced(nodes: seq<Node>, at: map<nat, (nat, nat)>, i: nat, d: nat, k: nat, x: nat)
    requires LinksOk(nodes, at) && MayErase(nodes, d, k) && nodes[d].entries[k].inum == i < |nodes|
    requires nodes[i].kind == Dir && Empty(nodes, i) && i != d && nodes[i].nlink == 1 && nodes[d].nlink >= 2
    requires x < |nodes|
    ensures PlacedAt(DirErased(nodes, i, d, k), at, x)
  {
    assert PlacedAt(nodes, at, x) && NodeAt(nodes, x) && NodeAt(nodes, i);
  }
}
