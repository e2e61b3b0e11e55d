/** What adding a name, removing one and writing a file do to the very simple file system,
    and that each keeps it consistent. */
module VsfsSteps {
  import opened DirEntries
  import opened Sequences
  import opened VsfsState

  /** A name is added for a new file, for a new directory with a block, or for a file that
      has another name. */
  datatype How = NewFile | NewDir(fb: int) | Link

  /** A listed directory, its inode and its block. */
  ghost predicate Place(s: State, parent: Path, pn: int, pb: int) {
    && parent in s.dirs && parent in s.names && s.names[parent] == pn && 0 <= pn < |s.inodes|
    && s.inodes[pn].ftype == Dir && s.inodes[pn].addr == pb && 0 <= pb < |s.blocks| && s.blocks[pb].ftype == Dir
  }

  function AddEntry(b: Block, e: Entry): Block {
    b.(dirList := b.dirList + [e], dirUsed := b.dirUsed + 1)
  }

  function Inc(i: Inode): Inode {
    i.(refCnt := i.refCnt + 1)
  }

  ghost predicate CanAdd(s: State, parent: Path, name: string, n: int, how: How, pn: int, pb: int) {
    && Place(s, parent, pn, pb) && |s.blocks[pb].dirList| < MAXUSED && !HasName(s.blocks[pb].dirList, name)
    && 0 <= n < |s.inodes| && |s.ibits.bmap| == |s.inodes| && |s.dbits.bmap| == |s.blocks|
    && parent + [name] !in s.files && parent + [name] !in s.dirs
    && match how
       case NewFile => s.inodes[n].ftype == Free
       case NewDir(fb) => s.inodes[n].ftype == Free && 0 <= fb < |s.blocks| && s.blocks[fb].ftype == Free
       case Link => s.inodes[n].ftype == File
  }

  ghost function AddedInodes(s: State, n: int, how: How, pn: int): seq<Inode>
    requires 0 <= n < |s.inodes| && 0 <= pn < |s.inodes|
  {
    match how
    case NewFile => s.inodes[n := Inode(File, -1, 1)]
    case NewDir(fb) => s.inodes[n := Inode(Dir, fb, 2)][pn := Inc(s.inodes[n := Inode(Dir, fb, 2)][pn])]
    case Link => s.inodes[n := Inc(s.inodes[n])]
  }

  function DirBlock(was: Block, n: int, pn: int): Block {
    Block(Dir, 2, [Entry(".", n), Entry("..", pn)], was.data)
  }

  ghost function AddedBlocks(s: State, name: string, n: int, how: How, pn: int, pb: int): seq<Block>
    requires 0 <= pb < |s.blocks| && (how.NewDir? ==> 0 <= how.fb < |s.blocks|)
  {
    var blocks := if how.NewDir? then s.blocks[how.fb := DirBlock(s.blocks[how.fb], n, pn)] else s.blocks;
    blocks[pb := AddEntry(blocks[pb], Entry(name, n))]
  }

  ghost function Added(s: State, parent: Path, name: string, n: int, how: How, pn: int, pb: int): State
    requires CanAdd(s, parent, name, n, how, pn, pb)
  {
    var path := parent + [name];
    State(if how == Link then s.ibits else Mark(s.ibits, n), AddedInodes(s, n, how, pn),
          if how.NewDir? then Mark(s.dbits, how.fb) else s.dbits, AddedBlocks(s, name, n, how, pn, pb),
          if how.NewDir? then s.files else s.files + [path], if how.NewDir? then s.dirs + [path] else s.dirs,
          s.names[path := n])
  }

  lemma InRange(s: State, i: int)
    requires BitmapsOk(s)
    ensures 0 <= i < |s.inodes| ==> (s.ibits.bmap[i] == 0 <==> s.inodes[i].ftype == Free)
    ensures 0 <= i < |s.blocks| ==> (s.dbits.bmap[i] == 0 <==> s.blocks[i].ftype == Free)
  {
  }

  lemma AddBitmaps(s: State, parent: Path, name: string, n: int, how: How, pn: int, pb: int)
    requires CanAdd(s, parent, name, n, how, pn, pb) && BitmapsOk(s)
    ensures BitmapsOk(Added(s, parent, name, n, how, pn, pb))
  {
    hide Ones, HasName, BitsOk, Inc, NoDuplicates;
    InRange(s, n);
    if how != Link {
      assert s.ibits.bmap[n] == 0 by { InRange(s, n); }
      MarkOk(s.ibits, |s.inodes|, n);
    }
    if how.NewDir? {
      assert s.dbits.bmap[how.fb] == 0 by { InRange(s, how.fb); }
      MarkOk(s.dbits, |s.blocks|, how.fb);
    }
    AddTypes(s, parent, name, n, how, pn, pb);
  }

  /** The types after adding a name. */
  lemma AddTypes(s: State, parent: Path, name: string, n: int, how: How, pn: int, pb: int)
    requires CanAdd(s, parent, name, n, how, pn, pb)
    ensures var s' := Added(s, parent, name, n, how, pn, pb);
      && |s'.inodes| == |s.inodes| && |s'.blocks| == |s.blocks|
      && (forall i :: 0 <= i < |s.inodes| ==>
            if i == n && how != Link
            then s'.inodes[i] == Inode(if how.NewDir? then Dir else File, if how.NewDir? then how.fb else -1,
              if how.NewDir? then 2 else 1)
            else s'.inodes[i] == s.inodes[i].(refCnt := s'.inodes[i].refCnt))
      && (forall i :: 0 <= i < |s.inodes| && i != n ==>
            s'.inodes[i].refCnt == s.inodes[i].refCnt + if how.NewDir? && i == pn then 1 else 0)
      && (how == Link ==> s'.inodes[n].refCnt == s.inodes[n].refCnt + 1)
      && (forall b :: 0 <= b < |s.blocks| ==>
            s'.blocks[b] == if how.NewDir? && b == how.fb then DirBlock(s.blocks[b], n, pn)
                            else if b == pb then AddEntry(s.blocks[b], Entry(name, n)) else s.blocks[b])
  {
    hide HasName;
  }

  lemma AddOwners(s: State, parent: Path, name: string, n: int, how: How, pn: int, pb: int)
    requires CanAdd(s, parent, name, n, how, pn, pb) && OwnersOk(s) && BitmapsOk(s)
    ensures OwnersOk(Added(s, parent, name, n, how, pn, pb))
  {
    hide HasName, BitsOk, Added, Owned;
    var s' := Added(s, parent, name, n, how, pn, pb);
    AddTypes(s, parent, name, n, how, pn, pb);
    forall b | 0 <= b < |s'.blocks| && s'.blocks[b].ftype != Free ensures Owned(s', b) {
      if how.NewDir? && b == how.fb {
        OwnedBy(s', n, b);
      } else {
        assert Owned(s, b);
        var m := OwnerOf(s, b);
        OwnedBy(s', m, b);
      }
    }
    FreeIsUnowned(s);
  }

  lemma OwnedBy(s: State, n: int, b: int)
    requires 0 <= n < |s.inodes| && s.inodes[n].addr == b
    ensures Owned(s, b)
  {
  }

  lemma OwnerOf(s: State, b: int) returns (n: int)
    requires Owned(s, b)
    ensures 0 <= n < |s.inodes| && s.inodes[n].addr == b
  {
    n :| 0 <= n < |s.inodes| && s.inodes[n].addr == b;
  }

  lemma FreeIsUnowned(s: State)
    requires OwnersOk(s) && BitmapsOk(s)
    ensures forall m :: 0 <= m < |s.inodes| && 0 <= s.inodes[m].addr < |s.blocks| ==>
      s.blocks[s.inodes[m].addr].ftype == s.inodes[m].ftype != Free
  {
  }

  lemma AddIndex(s: State, parent: Path, name: string, n: int, how: How, pn: int, pb: int)
    requires CanAdd(s, parent, name, n, how, pn, pb) && IndexOk(s)
    ensures IndexOk(Added(s, parent, name, n, how, pn, pb))
  {
    hide HasName, BitsOk, Added, Named, Live;
    var s', path := Added(s, parent, name, n, how, pn, pb), parent + [name];
    AddTypes(s, parent, name, n, how, pn, pb);
    AddPaths(s, parent, name, n, how, pn, pb);
    assert Parent(path) == parent;
    forall p | p in s'.files ensures IsKind(s', p, File) {
      if p in s.files { assert IsKind(s, p, File); }
    }
    forall p | p in s'.dirs ensures IsKind(s', p, Dir) {
      if p in s.dirs { assert IsKind(s, p, Dir); }
    }
    forall m | 0 <= m < |s'.inodes| && s'.inodes[m].ftype != Free ensures Named(s', m) {
      if m == n && how != Link {
        NamedBy(s', path, m);
      } else {
        assert Named(s, m);
        var p := NameOf(s, m);
        NamedBy(s', p, m);
      }
    }
    forall p, q | p in s'.dirs && q in s'.dirs && s'.names[p] == s'.names[q] ensures p == q {
      if p in s.dirs { assert IsKind(s, p, Dir); }
      if q in s.dirs { assert IsKind(s, q, Dir); }
    }
  }

  lemma NamedBy(s: State, p: Path, n: int)
    requires Live(s, p) && p in s.names && s.names[p] == n
    ensures Named(s, n)
  {
  }

  lemma NameOf(s: State, n: int) returns (p: Path)
    requires Named(s, n)
    ensures Live(s, p) && p in s.names && s.names[p] == n
  {
    p :| Live(s, p) && p in s.names && s.names[p] == n;
  }

  /** The lists and the names after adding one. */
  lemma AddPaths(s: State, parent: Path, name: string, n: int, how: How, pn: int, pb: int)
    requires CanAdd(s, parent, name, n, how, pn, pb) && NoDuplicates(s.files) && NoDuplicates(s.dirs)
    ensures var s', path := Added(s, parent, name, n, how, pn, pb), parent + [name];
      && NoDuplicates(s'.files) && NoDuplicates(s'.dirs) && !Live(s, path) && Live(s', path)
      && (forall p :: p in s'.files <==> p in s.files || (p == path && !how.NewDir?))
      && (forall p :: p in s'.dirs <==> p in s.dirs || (p == path && how.NewDir?))
      && (forall p :: Live(s', p) <==> Live(s, p) || p == path)
      && path in s'.names && s'.names[path] == n
      && (forall p :: p != path ==> (p in s'.names <==> p in s.names) && (p in s.names ==> s'.names[p] == s.names[p]))
  {
    hide HasName, AddedInodes, AddedBlocks;
  }

  // ----- directories

  /** The index changes at one path only. */
  ghost predicate SameButFor(s: State, s': State, path: Path) {
    forall q :: q != path ==>
      && (Live(s', q) <==> Live(s, q)) && (q in s'.names <==> q in s.names) && (q in s.names ==>
            s'.names[q] == s.names[q])
  }

  lemma SameIs(s: State, s': State, path: Path, q: Path, n: int)
    requires SameButFor(s, s', path) && q != path
    ensures Is(s, q, n) ==> Is(s', q, n)
    ensures Live(s', q) ==> Live(s, q)
  {
  }

  /** A directory that the path is not in keeps its block in order. */
  lemma OtherDir(s: State, s': State, p: Path, es: seq<Entry>, path: Path)
    requires DirOk(s, p, es) && SameButFor(s, s', path) && p != path && Parent(p) != path
    requires path != [] && Parent(path) != p
    ensures DirOk(s', p, es)
  {
    hide SameButFor, Live, HasName, Is;
    forall name ensures p + [name] != path && Parent(p + [name]) == p { assert (p + [name])[..|p|] == p; }
    forall i | 0 <= i < |es| ensures EntryOk(s', p, es[i]) {
      assert EntryOk(s, p, es[i]);
      SameIs(s, s', path, p, es[i].inum);
      SameIs(s, s', path, Parent(p), es[i].inum);
      SameIs(s, s', path, p + [es[i].name], es[i].inum);
    }
    forall name | Live(s', p + [name]) ensures HasName(es, name) && name != "."
      && name != ".." { SameIs(s, s', path, p + [name], 0); }
  }

  lemma GrownDir(s: State, s': State, p: Path, es: seq<Entry>, name: string, n: int)
    requires DirOk(s, p, es) && SameButFor(s, s', p + [name]) && !HasName(es, name) && |es| < MAXUSED
    requires Parent(p) != p + [name] && Is(s', p + [name], n)
    ensures DirOk(s', p, es + [Entry(name, n)])
  {
    hide SameButFor, Live, Is, HasName;
    var e, path := Entry(name, n), p + [name];
    var es' := es + [e];
    assert path[|p|] == name && |path| == |p| + 1;
    forall nm ensures HasName(es', nm) <==> HasName(es, nm) || nm == name { NameAppended(es, e, nm); }
    forall i | 0 <= i < |es| ensures EntryOk(s', p, es'[i]) && es[i].name != name {
      NameAt(es, i);
      assert EntryOk(s, p, es[i]);
      SameIs(s, s', path, p, es[i].inum);
      SameIs(s, s', path, Parent(p), es[i].inum);
      assert (p + [es[i].name])[|p|] == es[i].name;
      SameIs(s, s', path, p + [es[i].name], es[i].inum);
    }
    forall nm | Live(s', p + [nm]) ensures HasName(es', nm) && nm != "." && nm != ".." {
      if nm != name {
        assert (p + [nm])[|p|] == nm;
        SameIs(s, s', path, p + [nm], 0);
      }
    }
  }

  lemma NewDirOk(s: State, path: Path, n: int, pn: int)
    requires Is(s, path, n) && Is(s, Parent(path), pn) && forall nm :: !Live(s, path + [nm])
    ensures DirOk(s, path, [Entry(".", n), Entry("..", pn)])
  {
    hide Is, Live;
    var es := [Entry(".", n), Entry("..", pn)];
    assert es[0].name == "." && es[1].name == ".." && |"."| != |".."|;
  }

  lemma AddDirs(s: State, parent: Path, name: string, n: int, how: How, pn: int, pb: int)
    requires CanAdd(s, parent, name, n, how, pn, pb) && IndexOk(s) && OwnersOk(s) && DirsOk(s)
    ensures DirsOk(Added(s, parent, name, n, how, pn, pb))
  {
    hide HasName, DirOk, IndexOk, OwnersOk, Added, SameButFor, Live, Is, CanAdd, Place;
    var s', path := Added(s, parent, name, n, how, pn, pb), parent + [name];
    assert Parent(path) == parent;
    AddFacts(s, parent, name, n, how, pn, pb);
    forall p, b | IsDirBlock(s', p, b)
      ensures s'.blocks[b].dirUsed == |s'.blocks[b].dirList| && DirOk(s', p, s'.blocks[b].dirList)
    {
      AddOneDir(s, parent, name, n, how, pn, pb, p, b);
    }
  }

  lemma AddFacts(s: State, parent: Path, name: string, n: int, how: How, pn: int, pb: int)
    requires CanAdd(s, parent, name, n, how, pn, pb) && IndexOk(s)
    ensures var s', path := Added(s, parent, name, n, how, pn, pb), parent + [name];
      && SameButFor(s, s', path) && Is(s', path, n) && Is(s', parent, pn) && !Live(s, path) && parent in s.dirs
      && (forall nm :: !Live(s', path + [nm]))
  {
    hide HasName, Added;
    var s', path := Added(s, parent, name, n, how, pn, pb), parent + [name];
    AddPaths(s, parent, name, n, how, pn, pb);
    forall nm ensures !Live(s', path + [nm]) {
      assert Parent(path + [nm]) == path && |path + [nm]| > |path|;
    }
    assert |parent| < |path|;
  }

  lemma AddOneDir(s: State, parent: Path, name: string, n: int, how: How, pn: int, pb: int, p: Path, b: int)
    requires CanAdd(s, parent, name, n, how, pn, pb) && IndexOk(s) && OwnersOk(s) && DirsOk(s)
    requires IsDirBlock(Added(s, parent, name, n, how, pn, pb), p, b)
    ensures var s' := Added(s, parent, name, n, how, pn, pb);
      s'.blocks[b].dirUsed == |s'.blocks[b].dirList| && DirOk(s', p, s'.blocks[b].dirList)
  {
    hide HasName, DirOk, OwnersOk, IndexOk, DirsOk, Added, SameButFor, Live, Is;
    var s', path := Added(s, parent, name, n, how, pn, pb), parent + [name];
    assert Parent(path) == parent;
    AddFacts(s, parent, name, n, how, pn, pb);
    AddTypes(s, parent, name, n, how, pn, pb);
    AddedDirs(s, parent, name, n, how, pn, pb, p);
    if p == path {
      NewDirOk(s', path, n, pn);
    } else {
      var es := DirectoryOf(s, p);
      AboveListed(s, p);
      AddedBlockIs(s, parent, name, n, how, pn, pb, p, b);
      if p == parent {
        assert |Parent(p)| <= |p| < |path|;
        GrownDir(s, s', p, es, name, n);
      } else {
        ParentListed(s, p);
        OtherDir(s, s', p, es, path);
      }
    }
  }

  lemma ParentListed(s: State, p: Path)
    requires IndexOk(s) && Live(s, p)
    ensures Parent(p) in s.dirs && Live(s, Parent(p))
  {
  }

  lemma AddedDirs(s: State, parent: Path, name: string, n: int, how: How, pn: int, pb: int, p: Path)
    requires CanAdd(s, parent, name, n, how, pn, pb) && IndexOk(s)
    ensures var s', path := Added(s, parent, name, n, how, pn, pb), parent + [name];
      && (p in s'.dirs ==> p in s.dirs || (p == path && how.NewDir?))
      && (p in s'.dirs && p == path ==> how.NewDir? && s'.names[p] == n)
      && (p in s.dirs ==> p != path && p in s.names && s'.names[p] == s.names[p] && Live(s, p))
      && (p in s.dirs && s.names[p] == pn ==> p == parent) && pn != n
      && (p in s.dirs && Parent(p) in s.dirs ==> Parent(p) != path)
  {
    hide HasName, Added;
    AddPaths(s, parent, name, n, how, pn, pb);
    if p in s.dirs { assert IsKind(s, p, Dir); }
  }

  /** The block of an old directory after adding a name. */
  lemma AddedBlockIs(s: State, parent: Path, name: string, n: int, how: How, pn: int, pb: int, p: Path, b: int)
    requires CanAdd(s, parent, name, n, how, pn, pb) && IndexOk(s) && OwnersOk(s) && p in s.dirs
    requires IsDirBlock(Added(s, parent, name, n, how, pn, pb), p, b)
    ensures IsDirBlock(s, p, b) && s.blocks[b].ftype == Dir
    ensures Added(s, parent, name, n, how, pn, pb).blocks[b]
         == if p == parent then AddEntry(s.blocks[b], Entry(name, n)) else s.blocks[b]
    ensures p == parent ==> b == pb
  {
    hide HasName, Added, Live, Named, Owned;
    AddTypes(s, parent, name, n, how, pn, pb);
    AddedDirs(s, parent, name, n, how, pn, pb, p);
    assert IsKind(s, p, Dir);
  }

  // ----- link counts

  lemma RefsInAppend(es: seq<Entry>, e: Entry, n: int)
    ensures RefsIn(es + [e], n) == RefsIn(es, n) + if e.inum == n then 1 else 0
  {
    assert (es + [e])[..|es|] == es;
  }

  lemma {:induction false} RefsPut(blocks: seq<Block>, b: int, x: Block, n: int)
    requires 0 <= b < |blocks|
    ensures Refs(blocks[b := x], n) == Refs(blocks, n) - RefsIn(blocks[b].dirList, n) + RefsIn(x.dirList, n)
  {
    var last := |blocks| - 1;
    if b == last {
      assert blocks[b := x][..last] == blocks[..last];
    } else {
      assert blocks[b := x][..last] == blocks[..last][b := x];
      RefsPut(blocks[..last], b, x, n);
    }
  }

  lemma AddRefs(s: State, parent: Path, name: string, n: int, how: How, pn: int, pb: int, m: int)
    requires CanAdd(s, parent, name, n, how, pn, pb) && BitmapsOk(s)
    ensures Refs(Added(s, parent, name, n, how, pn, pb).blocks, m)
         == Refs(s.blocks, m) + (if m == n then 1 else 0)
            + if how.NewDir? then (if m == n then 1 else 0) + (if m == pn then 1 else 0) else 0
  {
    hide HasName, Refs, RefsIn, Mark, AddedInodes, NoDuplicates;
    var s' := Added(s, parent, name, n, how, pn, pb);
    var e := Entry(name, n);
    if how.NewDir? {
      var added := DirBlock(s.blocks[how.fb], n, pn);
      RefsPut(s.blocks, how.fb, added, m);
      NewDirRefs(n, pn, m);
      RefsPut(s.blocks[how.fb := added], pb, AddEntry(s.blocks[pb], e), m);
    } else {
      RefsPut(s.blocks, pb, AddEntry(s.blocks[pb], e), m);
    }
    RefsInAppend(s.blocks[pb].dirList, e, m);
  }

  lemma NewDirRefs(n: int, pn: int, m: int)
    ensures RefsIn([], m) == 0
    ensures RefsIn([Entry(".", n), Entry("..", pn)], m) == (if m == n then 1 else 0) + if m == pn then 1 else 0
  {
    var a, b := Entry(".", n), Entry("..", pn);
    RefsInAppend([], a, m);
    RefsInAppend([a], b, m);
    assert [] + [a] == [a] && [a] + [b] == [a, b];
  }

  lemma AddCounts(s: State, parent: Path, name: string, n: int, how: How, pn: int, pb: int)
    requires CanAdd(s, parent, name, n, how, pn, pb) && BitmapsOk(s) && CountsOk(s)
    ensures CountsOk(Added(s, parent, name, n, how, pn, pb))
  {
    hide HasName, Refs, Added, BitmapsOk, Inc;
    var s' := Added(s, parent, name, n, how, pn, pb);
    AddTypes(s, parent, name, n, how, pn, pb);
    forall m ensures Refs(s'.blocks, m) == Refs(s.blocks, m) + (if m == n then 1 else 0)
            + if how.NewDir? then (if m == n then 1 else 0) + (if m == pn then 1 else 0) else 0
    {
      AddRefs(s, parent, name, n, how, pn, pb, m);
    }
    assert Refs(s.blocks, n) == if how == Link then s.inodes[n].refCnt else 0;
  }

  lemma {:induction false} NamesOfSame(files: seq<Path>, names: map<Path, int>, path: Path, n: int, m: int)
    requires path !in files
    ensures NamesOf(files, names[path := n], m) == NamesOf(files, names, m)
  {
    if files != [] {
      assert files[|files| - 1] in files;
      NamesOfSame(files[..|files| - 1], names, path, n, m);
    }
  }

  lemma AddNames(files: seq<Path>, names: map<Path, int>, path: Path, n: int, m: int)
    requires path !in files
    ensures NamesOf(files + [path], names[path := n], m) == NamesOf(files, names, m) + if m == n then 1 else 0
  {
    assert (files + [path])[..|files|] == files;
    NamesOfSame(files, names, path, n, m);
  }

  lemma {:induction false} NamesOfNone(files: seq<Path>, names: map<Path, int>, n: int)
    requires forall p :: p in files && p in names ==> names[p] != n
    ensures NamesOf(files, names, n) == 0
  {
    if files != [] {
      assert files[|files| - 1] in files;
      NamesOfNone(files[..|files| - 1], names, n);
    }
  }

  lemma {:induction false} NamesOfSome(files: seq<Path>, names: map<Path, int>, n: int)
    requires NamesOf(files, names, n) > 0
    ensures exists p :: p in files && p in names && names[p] == n
  {
    var last := files[|files| - 1];
    assert last in files;
    if !(last in names && names[last] == n) {
      NamesOfSome(files[..|files| - 1], names, n);
      var p :| p in files[..|files| - 1] && p in names && names[p] == n;
      assert p in files;
    }
  }

  lemma {:induction false} NamesOfAtLeast(files: seq<Path>, names: map<Path, int>, p: Path, n: int)
    requires p in files && p in names && names[p] == n
    ensures NamesOf(files, names, n) > 0
  {
    var last := |files| - 1;
    if files[last] != p {
      assert files == files[..last] + [files[last]];
      NamesOfAtLeast(files[..last], names, p, n);
    }
  }

  lemma AddFiles(s: State, parent: Path, name: string, n: int, how: How, pn: int, pb: int)
    requires CanAdd(s, parent, name, n, how, pn, pb) && FilesOk(s) && IndexOk(s)
    ensures FilesOk(Added(s, parent, name, n, how, pn, pb))
  {
    hide HasName, NamesOf, AddedBlocks, AddedInodes, Named;
    var s', path := Added(s, parent, name, n, how, pn, pb), parent + [name];
    AddTypes(s, parent, name, n, how, pn, pb);
    if how == NewFile {
      forall p | p in s.files && p in s.names ensures s.names[p] != n { assert IsKind(s, p, File); }
      NamesOfNone(s.files, s.names, n);
    }
    forall m | 0 <= m < |s'.inodes| && s'.inodes[m].ftype == File
      ensures s'.inodes[m].refCnt == NamesOf(s'.files, s'.names, m)
    {
      if how.NewDir? { NamesOfSame(s.files, s.names, path, n, m); } else { AddNames(s.files, s.names, path, n, m); }
    }
  }

  /** Adding a name keeps the file system consistent. */
  lemma AddKeeps(s: State, parent: Path, name: string, n: int, how: How, pn: int, pb: int)
    requires Inv(s) && CanAdd(s, parent, name, n, how, pn, pb)
    ensures Inv(Added(s, parent, name, n, how, pn, pb))
  {
    hide BitmapsOk, IndexOk, OwnersOk, DirsOk, CountsOk, FilesOk, Added, CanAdd;
    AddBitmaps(s, parent, name, n, how, pn, pb);
    AddIndex(s, parent, name, n, how, pn, pb);
    AddOwners(s, parent, name, n, how, pn, pb);
    AddDirs(s, parent, name, n, how, pn, pb);
    AddCounts(s, parent, name, n, how, pn, pb);
    AddFiles(s, parent, name, n, how, pn, pb);
  }

  // ----- removing a name of a file

  /** File k of the list has entry i of its directory. */
  ghost predicate CanRemove(s: State, k: int, i: int, pn: int, pb: int) {
    && 0 <= k < |s.files| && s.files[k] != [] && s.files[k] in s.names && Place(s, Parent(s.files[k]), pn, pb)
    && 0 <= i < |s.blocks[pb].dirList|
      && s.blocks[pb].dirList[i] == Entry(s.files[k][|s.files[k]| - 1], s.names[s.files[k]])
    && 0 <= s.names[s.files[k]] < |s.inodes| && s.inodes[s.names[s.files[k]]].ftype == File
    && |s.ibits.bmap| == |s.inodes| && |s.dbits.bmap| == |s.blocks|
    && (s.inodes[s.names[s.files[k]]].addr != -1 ==>
          0 <= s.inodes[s.names[s.files[k]]].addr < |s.blocks| && s.inodes[s.names[s.files[k]]].addr != pb
          && s.blocks[s.inodes[s.names[s.files[k]]].addr].ftype == File)
  }

  function DelEntry(b: Block, i: int): Block
    requires 0 <= i < |b.dirList|
  {
    b.(dirList := Without(b.dirList, i), dirUsed := b.dirUsed - 1)
  }

  /** A file block given back. */
  function Freed(b: Block): Block {
    b.(data := "", ftype := Free)
  }

  ghost predicate LastName(s: State, n: int)
    requires 0 <= n < |s.inodes|
  {
    s.inodes[n].refCnt == 1
  }

  ghost function RemovedBlocks(s: State, n: int, i: int, pb: int): seq<Block>
    requires 0 <= n < |s.inodes| && 0 <= pb < |s.blocks| && 0 <= i < |s.blocks[pb].dirList|
    requires s.inodes[n].addr != -1 ==> 0 <= s.inodes[n].addr < |s.blocks| && s.inodes[n].addr != pb
  {
    var blocks := if LastName(s, n)
      && s.inodes[n].addr != -1 then s.blocks[s.inodes[n].addr := Freed(s.blocks[s.inodes[n].addr])]
                  else s.blocks;
    blocks[pb := DelEntry(blocks[pb], i)]
  }

  ghost function Removed(s: State, k: int, i: int, pn: int, pb: int): State
    requires CanRemove(s, k, i, pn, pb)
  {
    var n := s.names[s.files[k]];
    var node := s.inodes[n];
    State(if LastName(s, n) then Clear(s.ibits, n) else s.ibits,
          s.inodes[n := if LastName(s, n) then Inode(Free, -1, node.refCnt) else node.(refCnt := node.refCnt - 1)],
          if LastName(s, n) && node.addr != -1 then Clear(s.dbits, node.addr) else s.dbits,
          RemovedBlocks(s, n, i, pb), Without(s.files, k), s.dirs, s.names)
  }

  lemma RemoveBitmaps(s: State, k: int, i: int, pn: int, pb: int)
    requires CanRemove(s, k, i, pn, pb) && BitmapsOk(s)
    ensures BitmapsOk(Removed(s, k, i, pn, pb))
  {
    hide Ones, BitsOk, Without, DelEntry;
    var n := s.names[s.files[k]];
    InUse(s, n);
    if LastName(s, n) {
      ClearOk(s.ibits, |s.inodes|, n);
      if s.inodes[n].addr != -1 { ClearOk(s.dbits, |s.blocks|, s.inodes[n].addr); }
    }
    assert DelEntry(s.blocks[pb], i).ftype == Dir by { DelEntryType(s.blocks[pb], i); }
  }

  lemma DelEntryType(b: Block, i: int)
    requires 0 <= i < |b.dirList|
    ensures DelEntry(b, i).ftype == b.ftype
  {
  }

  lemma InUse(s: State, n: int)
    requires BitmapsOk(s) && 0 <= n < |s.inodes| && s.inodes[n].ftype == File
    ensures s.ibits.bmap[n] == 1
    ensures 0 <= s.inodes[n].addr < |s.blocks| && s.blocks[s.inodes[n].addr].ftype == File ==>
      s.dbits.bmap[s.inodes[n].addr] == 1
  {
  }

  /** The types after removing a name. */
  lemma RemoveTypes(s: State, k: int, i: int, pn: int, pb: int)
    requires CanRemove(s, k, i, pn, pb)
    ensures var s', n := Removed(s, k, i, pn, pb), s.names[s.files[k]];
      && |s'.inodes| == |s.inodes| && |s'.blocks| == |s.blocks| && 0 <= n < |s.inodes|
      && (forall m :: 0 <= m < |s.inodes| && m != n ==> s'.inodes[m] == s.inodes[m])
      && s'.inodes[n] == (if LastName(s, n) then Inode(Free, -1, 1) else s.inodes[n].(refCnt := s.inodes[n].refCnt - 1))
      && (forall b :: 0 <= b < |s.blocks| ==>
            s'.blocks[b] == if b == pb then DelEntry(s.blocks[b], i)
                            else if LastName(s, n) && b == s.inodes[n].addr then Freed(s.blocks[b]) else s.blocks[b])
  {
    hide Without, DelEntry, Freed;
  }

  lemma RemoveOwners(s: State, k: int, i: int, pn: int, pb: int)
    requires CanRemove(s, k, i, pn, pb) && OwnersOk(s)
    ensures OwnersOk(Removed(s, k, i, pn, pb))
  {
    hide Removed, Without, DelEntry, Owned;
    var s', n := Removed(s, k, i, pn, pb), s.names[s.files[k]];
    RemoveTypes(s, k, i, pn, pb);
    DelEntryType(s.blocks[pb], i);
    forall b | 0 <= b < |s'.blocks| && s'.blocks[b].ftype != Free ensures Owned(s', b) {
      assert Owned(s, b);
      var m := OwnerOf(s, b);
      OwnedBy(s', m, b);
    }
  }

  lemma WithoutPaths(q: seq<Path>, k: int)
    requires NoDuplicates(q) && 0 <= k < |q|
    ensures NoDuplicates(Without(q, k)) && forall p :: p in Without(q, k) <==> p in q && p != q[k]
  {
    var r := Without(q, k);
    forall j | 0 <= j < |r| ensures r[j] == q[if j < k then j else j + 1] {}
    forall p | p in q && p != q[k] ensures p in r {
      var j :| 0 <= j < |q| && q[j] == p;
      assert r[if j < k then j else j - 1] == p;
    }
  }

  lemma {:induction false} NamesWithout(files: seq<Path>, names: map<Path, int>, k: int, n: int)
    requires 0 <= k < |files|
    ensures NamesOf(Without(files, k), names, n)
         == NamesOf(files, names, n) - if files[k] in names && names[files[k]] == n then 1 else 0
  {
    hide Without;
    WithoutInner(files, k);
    if k < |files| - 1 { NamesWithout(files[..|files| - 1], names, k, n); }
  }

  lemma RemoveFiles(s: State, k: int, i: int, pn: int, pb: int)
    requires CanRemove(s, k, i, pn, pb) && FilesOk(s)
    ensures FilesOk(Removed(s, k, i, pn, pb))
    ensures var s', n := Removed(s, k, i, pn, pb), s.names[s.files[k]];
      LastName(s, n) <==> NamesOf(s'.files, s'.names, n) == 0
  {
    hide NamesOf, Without, RemovedBlocks;
    var s', n := Removed(s, k, i, pn, pb), s.names[s.files[k]];
    forall m ensures NamesOf(s'.files, s'.names, m) == NamesOf(s.files, s.names, m) - if m == n then 1 else 0 {
      NamesWithout(s.files, s.names, k, m);
    }
  }

  lemma RemoveIndex(s: State, k: int, i: int, pn: int, pb: int)
    requires CanRemove(s, k, i, pn, pb) && IndexOk(s) && FilesOk(s)
    ensures IndexOk(Removed(s, k, i, pn, pb))
  {
    hide Removed, Without, NamesOf, Named, Live, FilesOk;
    var s', path := Removed(s, k, i, pn, pb), s.files[k];
    var n := s.names[path];
    RemoveTypes(s, k, i, pn, pb);
    RemovePaths(s, k, i, pn, pb);
    RemoveFiles(s, k, i, pn, pb);
    forall p | p in s'.files ensures IsKind(s', p, File) {
      assert IsKind(s, p, File);
      if s.names[p] == n { NamesOfAtLeast(s'.files, s'.names, p, n); }
    }
    forall p | p in s'.dirs ensures IsKind(s', p, Dir) { assert IsKind(s, p, Dir); }
    forall m | 0 <= m < |s'.inodes| && s'.inodes[m].ftype != Free ensures Named(s', m) {
      if m == n {
        NamesOfSome(s'.files, s'.names, n);
        var p :| p in s'.files && p in s'.names && s'.names[p] == n;
        NamedBy(s', p, m);
      } else {
        assert Named(s, m);
        var p := NameOf(s, m);
        NamedBy(s', p, m);
      }
    }
  }

  lemma RemovePaths(s: State, k: int, i: int, pn: int, pb: int)
    requires CanRemove(s, k, i, pn, pb) && NoDuplicates(s.files) && forall p :: p in s.files ==> p !in s.dirs
    ensures var s', path := Removed(s, k, i, pn, pb), s.files[k];
      && NoDuplicates(s'.files) && s'.dirs == s.dirs && s'.names == s.names
      && path in s.files && path !in s.dirs
      && (forall p :: p in s'.files <==> p in s.files && p != path)
      && (forall p :: p in s'.files ==> Live(s', p))
      && (forall p :: Live(s', p) <==> Live(s, p) && p != path)
  {
    hide Without, RemovedBlocks;
    WithoutPaths(s.files, k);
  }

  // ----- directories

  lemma ShrunkDir(s: State, s': State, p: Path, es: seq<Entry>, i: int)
    requires 0 <= i < |es| && DirOk(s, p, es) && SameButFor(s, s', p + [es[i].name]) && !Live(s', p + [es[i].name])
    requires Parent(p) != p + [es[i].name] && es[i].name != "." && es[i].name != ".."
    ensures DirOk(s', p, Without(es, i))
  {
    hide SameButFor, Live, Is, HasName;
    var name, path, r := es[i].name, p + [es[i].name], Without(es, i);
    assert path[|p|] == name && |path| == |p| + 1;
    forall nm ensures HasName(r, nm) <==> HasName(es, nm) && nm != name { NameWithout(es, i, nm); }
    forall j | 0 <= j < |r| ensures r[j] == es[if j < i then j else j + 1] && EntryOk(s', p, r[j]) {
      var e := r[j];
      assert EntryOk(s, p, e);
      assert (p + [e.name])[|p|] == e.name;
      SameIs(s, s', path, p, e.inum);
      SameIs(s, s', path, Parent(p), e.inum);
      SameIs(s, s', path, p + [e.name], e.inum);
    }
    forall nm | Live(s', p + [nm]) ensures HasName(r, nm) && nm != "." && nm != ".." {
      assert nm != name;
      assert (p + [nm])[|p|] == nm;
      SameIs(s, s', path, p + [nm], 0);
    }
  }

  lemma RemoveDirs(s: State, k: int, i: int, pn: int, pb: int)
    requires CanRemove(s, k, i, pn, pb) && IndexOk(s) && OwnersOk(s) && DirsOk(s)
    ensures DirsOk(Removed(s, k, i, pn, pb))
  {
    hide HasName, DirOk, IndexOk, OwnersOk, Removed, CanRemove;
    var s' := Removed(s, k, i, pn, pb);
    forall p, b | IsDirBlock(s', p, b)
      ensures s'.blocks[b].dirUsed == |s'.blocks[b].dirList| && DirOk(s', p, s'.blocks[b].dirList)
    {
      RemoveOneDir(s, k, i, pn, pb, p, b);
    }
  }

  lemma RemoveOneDir(s: State, k: int, i: int, pn: int, pb: int, p: Path, b: int)
    requires CanRemove(s, k, i, pn, pb) && IndexOk(s) && OwnersOk(s) && DirsOk(s)
    requires IsDirBlock(Removed(s, k, i, pn, pb), p, b)
    ensures var s' := Removed(s, k, i, pn, pb);
      s'.blocks[b].dirUsed == |s'.blocks[b].dirList| && DirOk(s', p, s'.blocks[b].dirList)
  {
    hide HasName, DirOk, OwnersOk, IndexOk, DirsOk, Removed, SameButFor, Live, Without;
    var s', path := Removed(s, k, i, pn, pb), s.files[k];
    RemoveFacts(s, k, i, pn, pb, p);
    RemovedBlockIs(s, k, i, pn, pb, p, b);
    var es := DirectoryOf(s, p);
    ParentListed(s, p);
    if p == Parent(path) {
      assert path == p + [es[i].name];
      EntryOfFile(s, p, es, i);
      DelLength(s.blocks[b], i);
      ShrunkDir(s, s', p, es, i);
    } else {
      OtherDir(s, s', p, es, path);
    }
  }

  /** The entry removed is neither of a directory's own two. */
  lemma EntryOfFile(s: State, p: Path, es: seq<Entry>, i: int)
    requires DirOk(s, p, es) && 0 <= i < |es| && p + [es[i].name] in s.files
    ensures es[i].name != "." && es[i].name != ".."
  {
    hide HasName;
    assert Live(s, p + [es[i].name]);
  }

  lemma DelLength(b: Block, i: int)
    requires 0 <= i < |b.dirList|
    ensures |DelEntry(b, i).dirList| == |b.dirList| - 1 && DelEntry(b, i).dirUsed == b.dirUsed - 1
    ensures DelEntry(b, i).dirList == Without(b.dirList, i)
  {
  }

  lemma RemoveFacts(s: State, k: int, i: int, pn: int, pb: int, p: Path)
    requires CanRemove(s, k, i, pn, pb) && IndexOk(s)
    ensures var s', path := Removed(s, k, i, pn, pb), s.files[k];
      && SameButFor(s, s', path) && !Live(s', path) && path in s.files && path !in s.dirs && s'.dirs == s.dirs
        && s'.names == s.names
      && (p in s.dirs ==> p != path && Live(s, p)) && (Parent(p) in s.dirs ==> Parent(p) != path)
  {
    hide HasName, Removed, Named, IsKind, Place;
    RemovePaths(s, k, i, pn, pb);
  }

  lemma RemovedBlockIs(s: State, k: int, i: int, pn: int, pb: int, p: Path, b: int)
    requires CanRemove(s, k, i, pn, pb) && IndexOk(s) && OwnersOk(s)
    requires IsDirBlock(Removed(s, k, i, pn, pb), p, b)
    ensures p in s.dirs && IsDirBlock(s, p, b)
    ensures p == Parent(s.files[k]) ==> b == pb
    ensures Removed(s, k, i, pn, pb).blocks[b]
         == if p == Parent(s.files[k]) then DelEntry(s.blocks[pb], i) else s.blocks[b]
  {
    hide HasName, Removed, Named, Owned, Live, DelEntry;
    RemovePaths(s, k, i, pn, pb);
    RemoveTypes(s, k, i, pn, pb);
    assert IsKind(s, p, Dir);
  }

  // ----- link counts

  lemma {:induction false} RefsInWithout(es: seq<Entry>, i: int, n: int)
    requires 0 <= i < |es|
    ensures RefsIn(Without(es, i), n) == RefsIn(es, n) - if es[i].inum == n then 1 else 0
  {
    hide Without;
    WithoutInner(es, i);
    if i < |es| - 1 { RefsInWithout(es[..|es| - 1], i, n); }
  }

  lemma RemoveRefs(s: State, k: int, i: int, pn: int, pb: int, m: int)
    requires CanRemove(s, k, i, pn, pb)
    ensures Refs(Removed(s, k, i, pn, pb).blocks, m) == Refs(s.blocks, m) - if m == s.names[s.files[k]] then 1 else 0
  {
    hide Refs, RefsIn, Without;
    var n := s.names[s.files[k]];
    var a := s.inodes[n].addr;
    var blocks := if LastName(s, n) && a != -1 then s.blocks[a := Freed(s.blocks[a])] else s.blocks;
    if LastName(s, n) && a != -1 { RefsPut(s.blocks, a, Freed(s.blocks[a]), m); }
    RefsPut(blocks, pb, DelEntry(blocks[pb], i), m);
    RefsInWithout(s.blocks[pb].dirList, i, m);
  }

  lemma RemoveCounts(s: State, k: int, i: int, pn: int, pb: int)
    requires CanRemove(s, k, i, pn, pb) && CountsOk(s)
    ensures CountsOk(Removed(s, k, i, pn, pb))
  {
    hide Refs, Removed, DelEntry, Place;
    var s', n := Removed(s, k, i, pn, pb), s.names[s.files[k]];
    RemoveTypes(s, k, i, pn, pb);
    forall m ensures Refs(s'.blocks, m) == Refs(s.blocks, m) - if m == n then 1 else 0 {
      RemoveRefs(s, k, i, pn, pb, m);
    }
  }

  /** Removing a name keeps the file system consistent. */
  lemma RemoveKeeps(s: State, k: int, i: int, pn: int, pb: int)
    requires Inv(s) && CanRemove(s, k, i, pn, pb)
    ensures Inv(Removed(s, k, i, pn, pb))
  {
    hide BitmapsOk, IndexOk, OwnersOk, DirsOk, CountsOk, FilesOk, Removed, CanRemove;
    RemoveBitmaps(s, k, i, pn, pb);
    RemoveIndex(s, k, i, pn, pb);
    RemoveOwners(s, k, i, pn, pb);
    RemoveDirs(s, k, i, pn, pb);
    RemoveCounts(s, k, i, pn, pb);
    RemoveFiles(s, k, i, pn, pb);
  }

  // ----- writing

  ghost predicate CanWrite(s: State, n: int, fb: int) {
    && 0 <= n < |s.inodes| && s.inodes[n].ftype == File && s.inodes[n].addr == -1
    && 0 <= fb < |s.blocks| && s.blocks[fb].ftype == Free && |s.dbits.bmap| == |s.blocks|
  }

  ghost function Written(s: State, n: int, fb: int, data: string): State
    requires CanWrite(s, n, fb)
  {
    s.(dbits := Mark(s.dbits, fb), blocks := s.blocks[fb := s.blocks[fb].(ftype := File, data := data)],
       inodes := s.inodes[n := s.inodes[n].(addr := fb)])
  }

  lemma WriteRefs(s: State, n: int, fb: int, data: string, m: int)
    requires CanWrite(s, n, fb)
    ensures Refs(Written(s, n, fb, data).blocks, m) == Refs(s.blocks, m)
  {
    RefsPut(s.blocks, fb, s.blocks[fb].(ftype := File, data := data), m);
  }

  lemma WriteOwners(s: State, n: int, fb: int, data: string)
    requires CanWrite(s, n, fb) && OwnersOk(s) && BitmapsOk(s)
    ensures OwnersOk(Written(s, n, fb, data))
  {
    hide Owned, Mark, BitsOk;
    FreeIsUnowned(s);
    var s' := Written(s, n, fb, data);
    forall b | 0 <= b < |s'.blocks| && s'.blocks[b].ftype != Free ensures Owned(s', b) {
      if b == fb { OwnedBy(s', n, b); } else {
        assert Owned(s, b);
        var m := OwnerOf(s, b);
        OwnedBy(s', m, b);
      }
    }
  }

  lemma WriteIndex(s: State, n: int, fb: int, data: string)
    requires CanWrite(s, n, fb) && IndexOk(s)
    ensures IndexOk(Written(s, n, fb, data))
  {
    hide Named, Mark, NoDuplicates;
    var s' := Written(s, n, fb, data);
    forall m | 0 <= m < |s'.inodes| && s'.inodes[m].ftype != Free ensures Named(s', m) {
      assert Named(s, m);
      var p := NameOf(s, m);
      NamedBy(s', p, m);
    }
    forall p | p in s'.files ensures IsKind(s', p, File) { assert IsKind(s, p, File); }
    forall p | p in s'.dirs ensures IsKind(s', p, Dir) { assert IsKind(s, p, Dir); }
  }

  lemma WriteDirs(s: State, n: int, fb: int, data: string)
    requires CanWrite(s, n, fb) && IndexOk(s) && OwnersOk(s) && DirsOk(s)
    ensures DirsOk(Written(s, n, fb, data))
  {
    hide DirOk, Mark, Owned, Named, HasName;
    var s' := Written(s, n, fb, data);
    forall p, b | IsDirBlock(s', p, b)
      ensures s'.blocks[b].dirUsed == |s'.blocks[b].dirList| && DirOk(s', p, s'.blocks[b].dirList)
    {
      assert IsKind(s, p, Dir);
      assert IsDirBlock(s, p, b);
      SameDirOk(s, s', p, s.blocks[b].dirList);
    }
  }

  lemma SameDirOk(s: State, s': State, p: Path, es: seq<Entry>)
    requires DirOk(s, p, es) && s'.files == s.files && s'.dirs == s.dirs && s'.names == s.names
    ensures DirOk(s', p, es)
  {
    hide HasName;
    forall i | 0 <= i < |es| ensures EntryOk(s', p, es[i]) { assert EntryOk(s, p, es[i]); }
  }

  /** Writing a file keeps the file system consistent. */
  lemma WriteKeeps(s: State, n: int, fb: int, data: string)
    requires Inv(s) && CanWrite(s, n, fb)
    ensures Inv(Written(s, n, fb, data))
  {
    hide IndexOk, OwnersOk, DirsOk, Refs, NamesOf, BitsOk;
    var s' := Written(s, n, fb, data);
    InRange(s, fb);
    MarkOk(s.dbits, |s.blocks|, fb);
    WriteIndex(s, n, fb, data);
    WriteOwners(s, n, fb, data);
    WriteDirs(s, n, fb, data);
    forall m ensures Refs(s'.blocks, m) == Refs(s.blocks, m) { WriteRefs(s, n, fb, data, m); }
  }
}
