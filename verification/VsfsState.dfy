/**
 The very simple file system as a value: bitmaps, inodes and blocks beside an index from
 path to inode number that is kept for choosing what to do next.
 */
module VsfsState {
  import opened DirEntries

  datatype Kind = Free | File | Dir

  datatype Inode = Inode(ftype: Kind, addr: int, refCnt: int)

  datatype Block = Block(ftype: Kind, dirUsed: int, dirList: seq<Entry>, data: string)

  datatype Bits = Bits(bmap: seq<int>, numAllocated: int)

  /** The components of an absolute path. */
  type Path = seq<string>

  datatype State = State(
    ibits: Bits, inodes: seq<Inode>, dbits: Bits, blocks: seq<Block>,
    files: seq<Path>, dirs: seq<Path>, names: map<Path, int>)

  const MAXUSED := 32

  // ----- bitmaps

  function Ones(m: seq<int>): nat {
    if m == [] then 0 else Ones(m[..|m| - 1]) + if m[|m| - 1] == 1 then 1 else 0
  }

  ghost predicate BitsOk(b: Bits, n: int) {
    && |b.bmap| == n && b.numAllocated == Ones(b.bmap)
    && forall i :: 0 <= i < n ==> b.bmap[i] == 0 || b.bmap[i] == 1
  }

  lemma {:induction false} OnesPut(m: seq<int>, i: int, v: int)
    requires 0 <= i < |m|
    ensures Ones(m[i := v]) == Ones(m) - (if m[i] == 1 then 1 else 0) + (if v == 1 then 1 else 0)
  {
    var last := |m| - 1;
    if i == last {
      assert m[i := v][..last] == m[..last];
    } else {
      assert m[i := v][..last] == m[..last][i := v];
      OnesPut(m[..last], i, v);
    }
  }

  function Mark(b: Bits, i: int): Bits
    requires 0 <= i < |b.bmap|
  {
    Bits(b.bmap[i := 1], b.numAllocated + 1)
  }

  function Clear(b: Bits, i: int): Bits
    requires 0 <= i < |b.bmap|
  {
    Bits(b.bmap[i := 0], b.numAllocated - 1)
  }

  lemma MarkOk(b: Bits, n: int, i: int)
    requires BitsOk(b, n) && 0 <= i < n && b.bmap[i] == 0
    ensures BitsOk(Mark(b, i), n)
  {
    OnesPut(b.bmap, i, 1);
  }

  lemma ClearOk(b: Bits, n: int, i: int)
    requires BitsOk(b, n) && 0 <= i < n && b.bmap[i] == 1
    ensures BitsOk(Clear(b, i), n)
  {
    OnesPut(b.bmap, i, 0);
  }

  // ----- the invariant

  ghost predicate Live(s: State, p: Path) {
    p in s.files || p in s.dirs
  }

  function Parent(p: Path): Path {
    if p == [] then [] else p[..|p| - 1]
  }

  /** The bitmaps, their counters and the types agree. */
  ghost predicate BitmapsOk(s: State) {
    && BitsOk(s.ibits, |s.inodes|) && BitsOk(s.dbits, |s.blocks|)
    && (forall i :: 0 <= i < |s.inodes| ==> (s.ibits.bmap[i] == 1 <==> s.inodes[i].ftype != Free))
    && (forall i :: 0 <= i < |s.inodes| && s.inodes[i].ftype == Free ==> s.inodes[i].addr == -1)
    && (forall b :: 0 <= b < |s.blocks| ==> (s.dbits.bmap[b] == 1 <==> s.blocks[b].ftype != Free))
    && (forall b :: 0 <= b < |s.blocks| && s.blocks[b].ftype != Dir ==>
          s.blocks[b].dirList == [] && s.blocks[b].dirUsed == 0)
  }

  ghost predicate NoDuplicates(q: seq<Path>) {
    forall i, j :: 0 <= i < j < |q| ==> q[i] != q[j]
  }

  /** Every path listed has an inode of its kind, every inode in use a path, and a
      directory only one. */
  ghost predicate IndexOk(s: State) {
    && NoDuplicates(s.files) && NoDuplicates(s.dirs) && (forall p :: p in s.files ==> p !in s.dirs)
    && [] in s.dirs && [] in s.names && s.names[[]] == 0
    && (forall p :: p in s.files ==> IsKind(s, p, File))
    && (forall p :: p in s.dirs ==> IsKind(s, p, Dir))
    && (forall p, q :: p in s.dirs && q in s.dirs && s.names[p] == s.names[q] ==> p == q)
    && (forall p :: Live(s, p) ==> Parent(p) in s.dirs)
    && (forall n :: 0 <= n < |s.inodes| && s.inodes[n].ftype != Free ==> Named(s, n))
  }

  ghost predicate IsKind(s: State, p: Path, kind: Kind) {
    p in s.names && 0 <= s.names[p] < |s.inodes| && s.inodes[s.names[p]].ftype == kind
  }

  ghost predicate Named(s: State, n: int) {
    exists p :: Live(s, p) && p in s.names && s.names[p] == n
  }

  /** Each block in use has exactly one owner, of its kind. */
  ghost predicate OwnersOk(s: State) {
    && (forall n :: 0 <= n < |s.inodes| && s.inodes[n].addr != -1 ==>
          0 <= s.inodes[n].addr < |s.blocks| && s.blocks[s.inodes[n].addr].ftype == s.inodes[n].ftype)
    && (forall n :: 0 <= n < |s.inodes| && s.inodes[n].ftype == Dir ==> s.inodes[n].addr != -1)
    && (forall n, m :: 0 <= n < |s.inodes| && 0 <= m < |s.inodes| && s.inodes[n].addr == s.inodes[m].addr != -1 ==>
          n == m)
    && (forall b :: 0 <= b < |s.blocks| && s.blocks[b].ftype != Free ==> Owned(s, b))
  }

  ghost predicate Owned(s: State, b: int) {
    exists n :: 0 <= n < |s.inodes| && s.inodes[n].addr == b
  }

  /** The directory block of path p: unique names, one entry for every listed path below
      it and for nothing else, and the two for itself and its parent. */
  ghost predicate DirOk(s: State, p: Path, es: seq<Entry>) {
    && |es| <= MAXUSED
    && (forall i, j :: 0 <= i < j < |es| ==> es[i].name != es[j].name)
    && HasName(es, ".") && HasName(es, "..")
    && (forall i :: 0 <= i < |es| ==> EntryOk(s, p, es[i]))
    && (forall name :: Live(s, p + [name]) ==> HasName(es, name) && name != "." && name != "..")
  }

  ghost predicate EntryOk(s: State, p: Path, e: Entry) {
    if e.name == "." then Is(s, p, e.inum)
    else if e.name == ".." then Is(s, Parent(p), e.inum)
    else Is(s, p + [e.name], e.inum)
  }

  ghost predicate Is(s: State, p: Path, n: int) {
    Live(s, p) && p in s.names && s.names[p] == n
  }

  /** The block of a directory path. */
  ghost predicate IsDirBlock(s: State, p: Path, b: int) {
    && p in s.dirs && p in s.names && 0 <= s.names[p] < |s.inodes| && s.inodes[s.names[p]].addr == b
    && 0 <= b < |s.blocks|
  }

  ghost predicate DirsOk(s: State) {
    forall p, b :: IsDirBlock(s, p, b) ==>
      s.blocks[b].dirUsed == |s.blocks[b].dirList| && DirOk(s, p, s.blocks[b].dirList)
  }

  // ----- link counts

  function RefsIn(es: seq<Entry>, n: int): nat {
    if es == [] then 0 else RefsIn(es[..|es| - 1], n) + if es[|es| - 1].inum == n then 1 else 0
  }

  /** The entries of all directory blocks that name inode n. */
  function Refs(blocks: seq<Block>, n: int): nat {
    if blocks == [] then 0 else Refs(blocks[..|blocks| - 1], n) + RefsIn(blocks[|blocks| - 1].dirList, n)
  }

  /** The link count of an inode in use is the number of entries that name it; an entry
      names an inode in use. */
  ghost predicate CountsOk(s: State) {
    && (forall n :: 0 <= n < |s.inodes| && s.inodes[n].ftype != Free ==> s.inodes[n].refCnt == Refs(s.blocks, n))
    && (forall n :: !(0 <= n < |s.inodes| && s.inodes[n].ftype != Free) ==> Refs(s.blocks, n) == 0)
  }

  function NamesOf(files: seq<Path>, names: map<Path, int>, n: int): nat {
    if files == [] then 0
    else NamesOf(files[..|files| - 1], names, n)
         + if files[|files| - 1] in names && names[files[|files| - 1]] == n then 1 else 0
  }

  /** The link count of a file is the number of paths listed for it. */
  ghost predicate FilesOk(s: State) {
    forall n :: 0 <= n < |s.inodes| && s.inodes[n].ftype == File ==> s.inodes[n].refCnt == NamesOf(s.files, s.names, n)
  }

  ghost predicate Inv(s: State) {
    BitmapsOk(s) && IndexOk(s) && OwnersOk(s) && DirsOk(s) && CountsOk(s) && FilesOk(s)
  }

  // ----- walking the directory blocks

  ghost function Find(es: seq<Entry>, name: string): int {
    if HasName(es, name) then
      var i :| 0 <= i < |es| && es[i].name == name;
      es[i].inum
    else -1
  }

  /** The inode that a path leads to from the root, or -1. */
  ghost function Walk(s: State, p: Path): int {
    if p == [] then 0
    else
      var n := Walk(s, p[..|p| - 1]);
      if 0 <= n < |s.inodes| && s.inodes[n].ftype == Dir && 0 <= s.inodes[n].addr < |s.blocks|
      then Find(s.blocks[s.inodes[n].addr].dirList, p[|p| - 1]) else -1
  }

  /** The index and the directory blocks agree: a path leads to the inode that the index
      has for it if it is listed, and nowhere if it is not. */
  lemma {:induction false} WalkAgrees(s: State, p: Path)
    requires IndexOk(s) && OwnersOk(s) && DirsOk(s)
    requires forall k :: 0 <= k < |p| ==> p[k] != "." && p[k] != ".."
    ensures Live(s, p) ==> p in s.names && Walk(s, p) == s.names[p]
    ensures !Live(s, p) ==> Walk(s, p) == -1
    decreases |p|
  {
    hide Find, IndexOk, OwnersOk, DirsOk, Live;
    AboveListed(s, p);
    if p != [] {
      var up, name := p[..|p| - 1], p[|p| - 1];
      WalkAgrees(s, up);
      if up in s.dirs {
        var es := DirectoryOf(s, up);
        FindIs(s, up, es, name);
        assert p == up + [name];
      } else {
        NotDirectory(s, up);
      }
    }
  }

  lemma AboveListed(s: State, p: Path)
    requires IndexOk(s)
    ensures [] in s.names && s.names[[]] == 0 && Live(s, [])
    ensures Live(s, p) && p != [] ==> p[..|p| - 1] in s.dirs
  {
    assert Live(s, p) ==> Parent(p) in s.dirs;
  }

  /** The entries of a listed directory, through its inode. */
  lemma DirectoryOf(s: State, p: Path) returns (es: seq<Entry>)
    requires IndexOk(s) && OwnersOk(s) && DirsOk(s) && p in s.dirs
    ensures Live(s, p) && p in s.names && 0 <= s.names[p] < |s.inodes|
    ensures var node := s.inodes[s.names[p]];
      && node.ftype == Dir && 0 <= node.addr < |s.blocks| && es == s.blocks[node.addr].dirList
      && IsDirBlock(s, p, node.addr) && s.blocks[node.addr].ftype == Dir && s.blocks[node.addr].dirUsed == |es|
    ensures DirOk(s, p, es)
  {
    hide DirOk;
    assert IsKind(s, p, Dir);
    assert IsDirBlock(s, p, s.inodes[s.names[p]].addr);
    es := s.blocks[s.inodes[s.names[p]].addr].dirList;
  }

  lemma NotDirectory(s: State, p: Path)
    requires IndexOk(s) && p !in s.dirs
    ensures Live(s, p) ==> p in s.names && 0 <= s.names[p] < |s.inodes| && s.inodes[s.names[p]].ftype == File
  {
    if p in s.files { assert IsKind(s, p, File); }
  }

  lemma FindIs(s: State, p: Path, es: seq<Entry>, name: string)
    requires DirOk(s, p, es) && name != "." && name != ".."
    ensures Live(s, p + [name]) ==> p + [name] in s.names && Find(es, name) == s.names[p + [name]]
    ensures !Live(s, p + [name]) ==> Find(es, name) == -1
  {
    if HasName(es, name) {
      var i :| 0 <= i < |es| && es[i].name == name && Find(es, name) == es[i].inum;
      assert EntryOk(s, p, es[i]);
    }
  }
}
