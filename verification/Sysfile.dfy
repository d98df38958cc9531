// create, link and unlink (kernel/sysfile.c), and the directory operations they use (kernel/fs.c). That
// writei runs out of disk space is a parameter, `full`.

module SysfileFacts {
  import opened LinkState
  import opened LinkFacts

  lemma FindIs(es: seq<Dirent>, name: string, k: nat)
    requires k <= |es| && (k < |es| ==> es[k].inum != 0 && es[k].name == name)
    requires forall j | 0 <= j < k :: es[j].inum == 0 || es[j].name != name
    ensures Find(es, name) == k
  {
  }

  lemma SlotIs(es: seq<Dirent>, k: nat)
    requires k <= |es| && (k < |es| ==> es[k].inum == 0)
    requires forall j | 0 <= j < k :: es[j].inum != 0
    ensures Slot(es) == k
  {
  }

  lemma PutIs(nodes: seq<Node>, d: nat, k: nat, e: Dirent)
    requires d < |nodes| && k <= |nodes[d].entries|
    ensures Put(nodes, d, k, e) == nodes[d := nodes[d].(entries := EntryPut(nodes[d].entries, k, e))]
  {
  }

  function EntryPut(es: seq<Dirent>, k: nat, e: Dirent): seq<Dirent>
    requires k <= |es|
  {
    if k < |es| then es[k := e] else es + [e]
  }

  /** A name entered where it was missing stands for its inode, and no other name changes. */
  lemma LookupEntered(es: seq<Dirent>, i: nat, name: Name, n: string)
    requires i != 0 && Find(es, name) == |es|
    ensures Lookup(EntryPut(es, Slot(es), Dirent(i, name)), n) == if n == name then i else Lookup(es, n)
  {
    var k, t := Slot(es), EntryPut(es, Slot(es), Dirent(i, name));
    if n == name {
      FindIs(t, n, k);
    } else {
      FindIs(t, n, if Find(es, n) < |es| then Find(es, n) else |t|);
    }
  }

  /** A name taken away stands for nothing, and no other name changes. */
  lemma LookupErased(es: seq<Dirent>, k: nat, n: string)
    requires k < |es| && es[k].inum != 0
    requires forall j | 0 <= j < |es| && es[j].inum != 0 && es[j].name == es[k].name :: j == k
    ensures Lookup(es[k := ERASED], n) == if n == es[k].name then 0 else Lookup(es, n)
  {
    var t := es[k := ERASED];
    if n == es[k].name {
      FindIs(t, n, |t|);
      assert Find(t, n) == |t|;
    } else {
      FindIs(t, n, Find(es, n));
      assert Find(t, n) == Find(es, n) && Find(es, n) != k;
    }
  }

  /** What the names of a directory stand for after one has been entered, or erased. */
  lemma AllEntered(es: seq<Dirent>, i: nat, name: Name)
    requires i != 0 && Find(es, name) == |es|
    ensures forall n: string ::
              Lookup(EntryPut(es, Slot(es), Dirent(i, name)), n) == if n == name then i else Lookup(es, n)
  {
    forall n: string
      ensures Lookup(EntryPut(es, Slot(es), Dirent(i, name)), n) == if n == name then i else Lookup(es, n)
    {
      LookupEntered(es, i, name, n);
    }
  }

  lemma NameIsOnce(nodes: seq<Node>, at: map<nat, (nat, nat)>, d: nat, k: nat)
    requires LinksOk(nodes, at) && d < |nodes| && k < |nodes[d].entries| && nodes[d].entries[k].inum != 0
    ensures var es := nodes[d].entries;
      forall j | 0 <= j < |es| && es[j].inum != 0 && es[j].name == es[k].name :: j == k
  {
    var es := nodes[d].entries;
    forall j | 0 <= j < |es| && es[j].inum != 0 && es[j].name == es[k].name ensures j == k {
      assert NamesDiffer(nodes, d, j, k);
    }
  }

  /** A directory has "." and "..", so no such name can be entered. */
  lemma DotsAreThere(nodes: seq<Node>, at: map<nat, (nat, nat)>, d: nat, name: string)
    requires LinksOk(nodes, at) && IsDir(nodes, d)
    ensures Dots(name) ==> Find(nodes[d].entries, name) < |nodes[d].entries|
    ensures |nodes[d].entries| >= 2
  {
    assert NodeAt(nodes, d);
  }

  /** All a fresh file system has is its root. */
  lemma RootAlone(nodes: seq<Node>)
    requires ROOTINO < |nodes| && nodes[ROOTINO] == Node(Dir, 1, [Dirent(ROOTINO, "."), Dirent(ROOTINO, "..")])
    requires forall i | 0 <= i < |nodes| && i != ROOTINO :: nodes[i] == Node(Free, 0, [])
    ensures LinksOk(nodes, map[])
  {
    forall i | 0 < i < |nodes| ensures CountAt(nodes, i) {
      forall x: nat, y: nat ensures (x, y) in Refs(nodes, i) <==> i == ROOTINO && (x, y) == (ROOTINO, 1) {
        IsRef(nodes, x, y, i);
      }
      assert Refs(nodes, i) == if i == ROOTINO then {(ROOTINO, 1)} else {};
    }
  }

  /** What create has made before it enters the name: an inode that nothing names. */
  lemma LooseMade(nodes: seq<Node>, at: map<nat, (nat, nat)>, i: nat, d: nat)
    requires LinksOk(nodes, at) && 0 < i < |nodes| && nodes[i].kind == Free && 0 < d < |nodes|
    ensures LinksOk(nodes[i := Node(Dir, 0, [Dirent(i, "."), Dirent(d, "..")])], at)
  {
    assert NodeAt(nodes, i);
    Replaced(nodes, at, i, Node(Dir, 0, [Dirent(i, "."), Dirent(d, "..")]));
  }

  lemma FileMade(nodes: seq<Node>, at: map<nat, (nat, nat)>, i: nat, kind: Kind)
    requires LinksOk(nodes, at) && 0 < i < |nodes| && nodes[i].kind == Free && kind != Dir && kind != Free
    ensures LinksOk(nodes[i := Node(kind, 0, [])], at)
  {
    assert NodeAt(nodes, i);
    Replaced(nodes, at, i, Node(kind, 0, []));
  }

  lemma FreeIs(nodes: seq<Node>, at: map<nat, (nat, nat)>, i: nat)
    requires LinksOk(nodes, at) && i < |nodes| && nodes[i].kind == Free
    ensures nodes[i] == Node(Free, 0, [])
  {
    assert NodeAt(nodes, i);
  }

  /** What create makes of the file system. */
  ghost function Made(nodes: seq<Node>, i: nat, d: nat, name: Name, kind: Kind): seq<Node>
    requires i < |nodes| && d < |nodes| && i != d
  {
    var k := Slot(nodes[d].entries);
    if kind == Dir then DirEntered(nodes[i := Node(Dir, 0, [Dirent(i, "."), Dirent(d, "..")])], i, d, k, name)
    else Entered(nodes[i := Node(kind, 0, [])], i, d, k, name)
  }

  /** Link counts are right after create exactly if the directory was linked. */
  lemma MadeOk(nodes: seq<Node>, at: map<nat, (nat, nat)>, i: nat, d: nat, name: Name, kind: Kind)
    requires LinksOk(nodes, at) && 0 < i < |nodes| && nodes[i].kind == Free && IsDir(nodes, d) && kind != Free
    requires Find(nodes[d].entries, name) == |nodes[d].entries|
    ensures i != d && i != ROOTINO && d != 0
    ensures Live(nodes, d) ==>
              LinksOk(Made(nodes, i, d, name, kind), if kind == Dir then at[i := (d, Slot(nodes[d].entries))] else at)
    ensures CountsOk(Made(nodes, i, d, name, kind)) <==> Live(nodes, d)
  {
    var k := Slot(nodes[d].entries);
    DotsAreThere(nodes, at, d, name);
    if kind == Dir {
      var s := nodes[i := Node(Dir, 0, [Dirent(i, "."), Dirent(d, "..")])];
      LooseMade(nodes, at, i, d);
      if Live(nodes, d) {
        DirEnteredOk(s, at, i, d, k, name);
      } else {
        DirEnteredDead(s, at, i, d, k, name);
      }
    } else {
      var s := nodes[i := Node(kind, 0, [])];
      FileMade(nodes, at, i, kind);
      if Live(nodes, d) {
        EnteredShape(s, at, i, d, k, name);
      } else {
        EnteredDead(s, at, i, d, k, name);
      }
    }
  }

  lemma Linked(nodes: seq<Node>, at: map<nat, (nat, nat)>, i: nat, d: nat, name: Name)
    requires LinksOk(nodes, at) && 0 < i < |nodes| && nodes[i].kind != Free && nodes[i].kind != Dir && IsDir(nodes, d)
    requires Find(nodes[d].entries, name) == |nodes[d].entries|
    ensures var t := Entered(nodes, i, d, Slot(nodes[d].entries), name);
            (CountsOk(t) <==> Live(nodes, d)) && (Live(nodes, d) ==> LinksOk(t, at))
  {
    DotsAreThere(nodes, at, d, name);
    if Live(nodes, d) {
      EnteredShape(nodes, at, i, d, Slot(nodes[d].entries), name);
    } else {
      EnteredDead(nodes, at, i, d, Slot(nodes[d].entries), name);
    }
  }

  /** What create returns for a name that is there: a file or device, if a file was asked for. */
  function Opened(nodes: seq<Node>, d: nat, k: nat, kind: Kind): nat
    requires d < |nodes| && k < |nodes[d].entries| && nodes[d].entries[k].inum < |nodes|
  {
    var i := nodes[d].entries[k].inum;
    if kind == File && (nodes[i].kind == File || nodes[i].kind == Device) then i else 0
  }

  /** What unlink does: entry k of d is gone, what it named has one link less, and so has d if that was a
      directory. */
  ghost predicate Unlinked(nodes: seq<Node>, t: seq<Node>, d: nat, k: nat) {
    && d < |nodes| && k < |nodes[d].entries|
    && var i := nodes[d].entries[k].inum;
       && i < |nodes| && nodes[i].nlink >= 1
       && if nodes[i].kind == Dir then i != d && nodes[d].nlink >= 1 && t == DirErased(nodes, i, d, k)
          else t == Erased(nodes, i, d, k)
  }

  lemma NodesSize(nodes: seq<Node>, at: map<nat, (nat, nat)>)
    requires LinksOk(nodes, at)
    ensures |nodes| > ROOTINO
  {
  }

  lemma InumInRange(nodes: seq<Node>, at: map<nat, (nat, nat)>, d: nat, k: nat)
    requires LinksOk(nodes, at) && d < |nodes| && k < |nodes[d].entries|
    ensures nodes[d].entries[k].inum < |nodes|
  {
    assert NodeAt(nodes, d);
  }

  function DotsOf(kind: Kind, i: nat, d: nat): seq<Dirent> {
    if kind == Dir then [Dirent(i, "."), Dirent(d, "..")] else []
  }

  /** create's steps, put together, make what they should. */
  lemma MadeIs(nodes: seq<Node>, i: nat, d: nat, name: Name, kind: Kind)
    requires i < |nodes| && d < |nodes| && i != d && kind != Free
    ensures var k := Slot(nodes[d].entries);
            var t := Put(nodes[i := Node(kind, 1, DotsOf(kind, i, d))], d, k, Dirent(i, name));
            Made(nodes, i, d, name, kind) == if kind == Dir then WithLinks(t, d, t[d].nlink + 1) else t
  {
    var k := Slot(nodes[d].entries);
    var t := Put(nodes[i := Node(kind, 1, DotsOf(kind, i, d))], d, k, Dirent(i, name));
    if kind == Dir {
      assert Made(nodes, i, d, name, kind) == WithLinks(t, d, t[d].nlink + 1);
    } else {
      assert Made(nodes, i, d, name, kind) == t;
    }
  }

  lemma FirstDots(i: nat, d: nat)
    requires i != 0
    ensures Find([], ".") == 0 && Slot([]) == 0
    ensures Find([Dirent(i, ".")], "..") == 1 && Slot([Dirent(i, ".")]) == 1
  {
    FindIs([Dirent(i, ".")], "..", 1);
    SlotIs([Dirent(i, ".")], 1);
  }
}

module Sysfile {
  import opened LinkState
  import opened LinkFacts
  import opened SysfileFacts

  /** Character `i` of a C string, whose end is a NUL. */
  function CharAt(s: CString, i: nat): char
    requires i <= |s|
  {
    if i < |s| then s[i] else '\0'
  }

  /** namecmp, which is strncmp up to DIRSIZ characters, finds two names equal. */
  method SameName(p: CString, q: CString) returns (same: bool)
    ensures same <==> Cut(p) == Cut(q)
  {
    var n, i := DIRSIZ, 0;
    while n > 0 && CharAt(p, i) != '\0' && CharAt(p, i) == CharAt(q, i)
      invariant 0 <= n == DIRSIZ - i && i <= |p| && i <= |q| && p[..i] == q[..i]
    {
      n, i := n - 1, i + 1;
    }
    same := n == 0 || CharAt(p, i) == CharAt(q, i);
    assert i == |p| ==> p[..i] == p;
    assert i == |q| ==> q[..i] == q;
    assert n > 0 && i < |p| ==> Cut(p)[i] == p[i];
    assert n > 0 && i < |q| ==> Cut(q)[i] == q[i];
  }

  class Dirs {
    var nodes: seq<Node>
    ghost var at: map<nat, (nat, nat)>

    ghost predicate Ok()
      reads this
    {
      LinksOk(nodes, at)
    }

    constructor (n: nat)
      requires n > ROOTINO
      ensures Ok() && |nodes| == n
      ensures forall i | 0 <= i < n ::
                nodes[i] == if i == ROOTINO then Node(Dir, 1, [Dirent(ROOTINO, "."), Dirent(ROOTINO, "..")])
                    else Node(Free, 0, [])
    {
      var root := Node(Dir, 1, [Dirent(ROOTINO, "."), Dirent(ROOTINO, "..")]);
      nodes, at := seq(n, i => if i == ROOTINO then root else Node(Free, 0, [])), map[];
      RootAlone(seq(n, i => if i == ROOTINO then root else Node(Free, 0, [])));
    }

    /** dirlookup: the slot of a name; the number of slots if there is none. */
    method DirLookup(d: nat, name: CString) returns (k: nat)
      requires d < |nodes|
      ensures k == Find(nodes[d].entries, Cut(name))
    {
      var es := nodes[d].entries;
      k := 0;
      while k < |es|
        invariant k <= |es| && forall j | 0 <= j < k :: es[j].inum == 0 || es[j].name != Cut(name)
      {
        if es[k].inum != 0 {
          var same := SameName(name, es[k].name);
          if same {
            break;
          }
        }
        k := k + 1;
      }
      FindIs(es, Cut(name), k);
    }

    /** Write a new entry into a directory; false if the name is there already or the disk is full. */
    method DirLink(d: nat, name: CString, inum: nat, full: bool) returns (ok: bool)
      requires d < |nodes|
      modifies this`nodes
      ensures ok <==> Find(old(nodes)[d].entries, Cut(name)) == |old(nodes)[d].entries| && !full
      ensures nodes == if ok then Put(old(nodes), d, Slot(old(nodes)[d].entries), Dirent(inum, Cut(name)))
                       else old(nodes)
    {
      var found := DirLookup(d, name);
      var es := nodes[d].entries;
      if found < |es| {
        return false;
      }
      var k := 0;
      while k < |es| && es[k].inum != 0
        invariant k <= |es| && forall j | 0 <= j < k :: es[j].inum != 0
      {
        k := k + 1;
      }
      SlotIs(es, k);
      if full {
        return false;
      }
      var de := Dirent(inum, Cut(name));       // strncpy
      nodes := nodes[d := nodes[d].(entries := if k < |es| then es[k := de] else es + [de])];
      ok := true;
    }

    /** Is a directory empty except for "." and ".."? */
    method IsDirEmpty(d: nat) returns (empty: bool)
      requires d < |nodes|
      ensures empty <==> Empty(nodes, d)
    {
      var es := nodes[d].entries;
      var k := 2;
      while k < |es|
        invariant 2 <= k && forall j | 2 <= j < k && j < |es| :: es[j].inum == 0
      {
        if es[k].inum != 0 {
          return false;
        }
        k := k + 1;
      }
      empty := true;
    }

    /** sys_link for the inode `i` that namei found; `parent` is the directory that nameiparent found for
        the new name, or -1. */
    method Link(i: nat, parent: int, name: CString, full: bool) returns (ok: bool)
      requires Ok() && 0 < i < |nodes| && nodes[i].kind != Free
      requires parent == -1 || (0 <= parent && IsDir(nodes, parent))
      modifies this`nodes
      ensures !ok ==> nodes == old(nodes)
      ensures ok <==> && old(nodes)[i].kind != Dir && parent != -1 && !full
                      && Find(old(nodes)[parent].entries, Cut(name)) == |old(nodes)[parent].entries|
      ensures ok ==> nodes == Entered(old(nodes), i, parent, Slot(old(nodes)[parent].entries), Cut(name))
      // The new name is the inode's, every other name stands for what it did, and the inode has one link more.
      ensures ok ==> && |nodes| == |old(nodes)| && nodes[i] == old(nodes)[i].(nlink := old(nodes)[i].nlink + 1)
                     && forall n: string :: Lookup(nodes[parent].entries, n)
                                    == if n == Cut(name) then i else Lookup(old(nodes)[parent].entries, n)
      // The counts are right afterwards exactly if the new name's directory is itself linked.
      ensures ok ==> (CountsOk(nodes) <==> Live(old(nodes), parent)) && (Live(old(nodes), parent) ==> Ok())
    {
      hide LinksOk, CountsOk, Live;
      if nodes[i].kind == Dir {
        return false;
      }
      nodes := nodes[i := nodes[i].(nlink := nodes[i].nlink + 1)];
      ok := false;
      if parent != -1 {
        ok := DirLink(parent, name, i, full);
      }
      if !ok {
        nodes := nodes[i := nodes[i].(nlink := nodes[i].nlink - 1)];
        assert nodes == old(nodes);
      } else {
        Linked(old(nodes), at, i, parent, Cut(name));
        AllEntered(old(nodes)[parent].entries, i, Cut(name));
      }
    }

    /** sys_unlink for a name in directory `d`. */
    method Unlink(d: nat, name: CString) returns (ok: bool)
      requires Ok() && IsDir(nodes, d)
      modifies this`nodes
      ensures Ok()
      ensures !ok ==> nodes == old(nodes)
      ensures var k := Find(old(nodes)[d].entries, Cut(name));
              ok <==> !Dots(Cut(name)) && k < |old(nodes)[d].entries|
                      && (IsDir(old(nodes), old(nodes)[d].entries[k].inum) ==>
                          Empty(old(nodes), old(nodes)[d].entries[k].inum))
      ensures ok ==> Unlinked(old(nodes), nodes, d, Find(old(nodes)[d].entries, Cut(name)))
      // The name stands for nothing any more, every other name for what it did.
      ensures ok ==> && |nodes| == |old(nodes)|
                     && forall n: string :: Lookup(nodes[d].entries, n)
                                    == if n == Cut(name) then 0 else Lookup(old(nodes)[d].entries, n)
    {
      hide LinksOk, Names, Lookup;
      var dot := SameName(name, ".");
      var dotDot := SameName(name, "..");
      if dot || dotDot {
        return false;
      }
      var k := DirLookup(d, name);
      if k == |nodes[d].entries| {
        return false;
      }
      var i := nodes[d].entries[k].inum;
      ErasedIsLinked(nodes, at, d, k);
      NameIsOnce(nodes, at, d, k);
      ghost var es := nodes[d].entries;
      assert es[k].name == Cut(name);
      if nodes[i].kind == Dir {
        var empty := IsDirEmpty(i);
        if !empty {
          return false;
        }
        DirErasedOk(nodes, at, i, d, k);
      } else {
        ErasedOk(nodes, at, i, d, k);
      }
      nodes := nodes[d := nodes[d].(entries := nodes[d].entries[k := Dirent(0, "")])];
      if nodes[i].kind == Dir {
        nodes := nodes[d := nodes[d].(nlink := nodes[d].nlink - 1)];
      }
      nodes := nodes[i := nodes[i].(nlink := nodes[i].nlink - 1)];
      ok := true;
      assert nodes[d].entries == es[k := ERASED];
      forall n: string ensures Lookup(nodes[d].entries, n) == if n == Cut(name) then 0 else Lookup(es, n) {
        LookupErased(es, k, n);
      }
    }

    /** ialloc: the first free inode; 0 if there is none. */
    method Ialloc() returns (i: nat)
      requires |nodes| > 0
      ensures i == 0 ==> forall j | 0 < j < |nodes| :: nodes[j].kind != Free
      ensures i != 0 ==> i < |nodes| && nodes[i].kind == Free && forall j | 0 < j < i :: nodes[j].kind != Free
    {
      i := 1;
      while i < |nodes|
        invariant 1 <= i <= |nodes| && forall j | 0 < j < i :: nodes[j].kind != Free
      {
        if nodes[i].kind == Free {
          return;
        }
        i := i + 1;
      }
      i := 0;
    }

    /** create's dirlinks for its new inode r: "." and ".." for a directory, and the name itself. */
    method Fill(d: nat, r: nat, name: CString, kind: Kind, full1: bool, full2: bool, full3: bool) returns (ok: bool)
      requires d < |nodes| && 0 < r < |nodes| && r != d && nodes[r] == Node(kind, 1, [])
      requires Find(nodes[d].entries, Cut(name)) == |nodes[d].entries|
      modifies this`nodes
      ensures |nodes| == |old(nodes)|
      ensures ok <==> !full3 && (kind == Dir ==> !full1 && !full2)
      ensures ok ==> nodes == Put(old(nodes)[r := Node(kind, 1, DotsOf(kind, r, d))], d, Slot(old(nodes)[d].entries),
                                  Dirent(r, Cut(name)))
      ensures !ok ==> nodes == old(nodes)[r := nodes[r]]
    {
      FirstDots(r, d);
      if kind == Dir {
        ok := DirLink(r, ".", r, full1);
        if !ok {
          return;
        }
        assert nodes[r].entries == [Dirent(r, ".")];
        ok := DirLink(r, "..", d, full2);
        if !ok {
          return;
        }
        assert nodes[r].entries == DotsOf(kind, r, d);
      }
      assert nodes == old(nodes)[r := Node(kind, 1, DotsOf(kind, r, d))];
      ok := DirLink(d, name, r, full3);
    }

    /** create: the inode of the new, or already existing, file; 0 on failure, which leaves everything as it
        was. `full1`, `full2` and `full3` say which of its dirlinks finds the disk full. */
    method Create(d: nat, name: CString, kind: Kind, full1: bool, full2: bool, full3: bool)
        returns (r: nat, isNew: bool)
      requires Ok() && IsDir(nodes, d) && kind != Free
      modifies this`nodes, this`at
      ensures !isNew ==> nodes == old(nodes) && at == old(at)
      ensures var k := Find(old(nodes)[d].entries, Cut(name));
              k < |old(nodes)[d].entries| ==>
                !isNew && old(nodes)[d].entries[k].inum < |old(nodes)| && r == Opened(old(nodes), d, k, kind)
      // Only a file is opened instead of made, and only if a file or a device is there.
      ensures var k := Find(old(nodes)[d].entries, Cut(name));
              k < |old(nodes)[d].entries| ==>
                var i := old(nodes)[d].entries[k].inum;
                && (kind != File || IsDir(old(nodes), i) ==> r == 0)
                && (kind == File && i < |old(nodes)| && old(nodes)[i].kind in {File, Device} ==> r == i)
      ensures isNew <==> && Find(old(nodes)[d].entries, Cut(name)) == |old(nodes)[d].entries|
                         && (exists j :: 0 < j < |old(nodes)| && old(nodes)[j].kind == Free)
                         && !full3 && (kind == Dir ==> !full1 && !full2)
      ensures !isNew && Find(old(nodes)[d].entries, Cut(name)) == |old(nodes)[d].entries| ==> r == 0
      ensures isNew ==> && 0 < r < |old(nodes)| && r != d && old(nodes)[r].kind == Free
                        && (forall j | 0 < j < r :: old(nodes)[j].kind != Free)
                        && nodes == Made(old(nodes), r, d, Cut(name), kind)
      // The new inode is of the type asked for, the name is its, every other name stands for what it did.
      ensures isNew ==> && |nodes| == |old(nodes)| && nodes[r] == Node(kind, 1, DotsOf(kind, r, d))
                        && forall n: string :: Lookup(nodes[d].entries, n)
                                       == if n == Cut(name) then r else Lookup(old(nodes)[d].entries, n)
      // The counts are right afterwards exactly if the directory is itself linked.
      ensures isNew ==> (CountsOk(nodes) <==> Live(old(nodes), d)) && (Live(old(nodes), d) ==> Ok())
    {
      hide LinksOk, CountsOk, Live, NodeAt, Find, Slot, Put, Made;
      NodesSize(nodes, at);
      isNew := false;
      var k := DirLookup(d, name);
      if k < |nodes[d].entries| {
        InumInRange(nodes, at, d, k);
        var i := nodes[d].entries[k].inum;
        if kind == File && (nodes[i].kind == File || nodes[i].kind == Device) {
          return i, false;
        }
        return 0, false;
      }
      r := Ialloc();
      if r == 0 {
        return;
      }
      assert nodes[r].kind == Free;
      FreeIs(nodes, at, r);
      MadeOk(nodes, at, r, d, Cut(name), kind);
      nodes := nodes[r := Node(kind, 1, [])];
      isNew := Fill(d, r, name, kind, full1, full2, full3);
      if isNew {
        assert old(nodes)[r := Node(kind, 1, [])][r := Node(kind, 1, DotsOf(kind, r, d))]
            == old(nodes)[r := Node(kind, 1, DotsOf(kind, r, d))];
        MadeIs(old(nodes), r, d, Cut(name), kind);
        AllEntered(old(nodes)[d].entries, r, Cut(name));
        PutIs(old(nodes)[r := Node(kind, 1, DotsOf(kind, r, d))], d, Slot(old(nodes)[d].entries), Dirent(r, Cut(name)));
        if kind == Dir {
          nodes := nodes[d := nodes[d].(nlink := nodes[d].nlink + 1)];
          at := at[r := (d, Slot(old(nodes)[d].entries))];
        }
      } else {
        nodes := nodes[r := nodes[r].(nlink := 0)];
        nodes := nodes[r := Node(Free, 0, [])];        // iput, the last reference
        assert nodes == old(nodes);
        r := 0;
      }
    }

    /** iput of the last reference to an inode that has no links: it is freed. */
    method Reclaim(i: nat)
      requires Ok() && 0 < i < |nodes| && nodes[i].nlink == 0
      modifies this`nodes
      ensures Ok() && nodes == old(nodes)[i := Node(Free, 0, [])]
    {
      Replaced(nodes, at, i, Node(Free, 0, []));
      nodes := nodes[i := Node(Free, 0, [])];
    }
  }

  /** A name made in a directory that has been removed: mkdir a, rmdir a by somebody else, and a file
      created in it through the old working directory. */
  method CreateInRemoved() returns (fs: Dirs)
    ensures !CountsOk(fs.nodes)
  {
    hide LinksOk, CountsOk, Lookup;
    fs := new Dirs(4);
    ghost var root := Node(Dir, 1, [Dirent(1, "."), Dirent(1, "..")]);
    assert fs.nodes == [Node(Free, 0, []), root, Node(Free, 0, []), Node(Free, 0, [])];
    FindIs(root.entries, "a", 2);
    SlotIs(root.entries, 2);
    assert fs.nodes[2].kind == Free;
    var r, isNew := fs.Create(1, "a", Dir, false, false, false);
    assert r == 2 && isNew;
    ghost var full := root.(nlink := 2, entries := root.entries + [Dirent(2, "a")]);
    ghost var sub := Node(Dir, 1, [Dirent(2, "."), Dirent(1, "..")]);
    assert fs.nodes == [Node(Free, 0, []), full, sub, Node(Free, 0, [])];
    assert Live([Node(Free, 0, []), root, Node(Free, 0, []), Node(Free, 0, [])], 1);
    FindIs(full.entries, "a", 2);
    var gone := fs.Unlink(1, "a");
    assert gone;
    ghost var dead := sub.(nlink := 0);
    assert fs.nodes[2] == dead && fs.nodes[3] == Node(Free, 0, []);
    FindIs(dead.entries, "f", 2);
    var f, made := fs.Create(2, "f", File, false, false, false);
  }
}
