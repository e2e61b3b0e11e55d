/**
 What each operation of the log-structured file system writes: which blocks, in which order,
 and what is made to point where. The log grows from address `a` on.
 */
module LfsLog {
  import opened LfsTable
  import opened LfsDisk
  import opened LfsRefine

  /** Address `at` holds the chunk of the inode map that inode i is in, as the map is now, and
      the checkpoint region points at it. */
  ghost predicate ChunkLogged(r: FS, i: int, at: int) {
    && |r.inodeMap| == 256 && |r.cr| == 16 && 0 <= i < 256 && 0 <= at < |r.disk| && r.cr[i / 16] == at
    && r.disk[at].ImapChunk? && |r.disk[at].addrs| == 16
    && forall k :: 0 <= k < 256 && k / 16 == i / 16 ==> r.disk[at].addrs[k % 16] == r.inodeMap[k]
  }

  /** The checkpoint entries of all other chunks are as they were. */
  ghost predicate OtherChunks(s: FS, r: FS, i: int, j: int) {
    |s.cr| == |r.cr| == 16 && forall c :: 0 <= c < 16 && c != i / 16 && c != j / 16 ==> r.cr[c] == s.cr[c]
  }

  /** The new inode of a directory: one pointer leads to address `a`, the others where they led. */
  ghost predicate OnePointerMoved(was: Inode, now: Block, a: int) {
    && now.InodeBlock? && now.inode.itype == was.itype && |now.inode.pointers| == |was.pointers| == 8
    && exists k :: 0 <= k < 8 && MovedAt(was.pointers, now.inode.pointers, k, a)
  }

  ghost predicate MovedAt(was: seq<int>, now: seq<int>, k: int, a: int)
    requires 0 <= k < |was|
  {
    now == was[k := a]
  }

  lemma PointerMoved(ino: Inode, k: int, a: int, moreRefs: int)
    requires |ino.pointers| == 8 && 0 <= k < 8
    ensures OnePointerMoved(ino, InodeBlock(DirInode(ino, k, a, moreRefs)), a)
    ensures DirInode(ino, k, a, moreRefs).refs == ino.refs + moreRefs
  {
    assert MovedAt(ino.pointers, ino.pointers[k := a], k, a);
  }

  lemma SixteenChunks(s: FS)
    requires WellFormed(s)
    ensures |s.cr| == 16 && |s.inodeMap| == 256
  {
  }

  /** `blocks` new blocks behind the old ones, which are not touched; then a chunk for i and,
      if it is in another chunk, one for j. */
  ghost predicate LogGrows(s: FS, r: FS, blocks: int, i: int, j: int) {
    var a := |s.disk| + blocks;
    && 0 <= blocks && |r.disk| == a + (if i / 16 == j / 16 then 1 else 2)
    && r.disk[..|s.disk|] == s.disk
    && ChunkLogged(r, i, a) && ChunkLogged(r, j, if i / 16 == j / 16 then a else a + 1) && OtherChunks(s, r, i, j)
  }

  lemma OneChunkLogged(s: FS, r: FS, c: int)
    requires |s.inodeMap| == 256 && |s.cr| == 16 && 0 <= c < 16 && r == LogChunk(s, c)
    ensures forall i :: 0 <= i < 256 && i / 16 == c ==> ChunkLogged(r, i, |s.disk|)
    ensures |r.disk| == |s.disk| + 1 && r.disk[..|s.disk|] == s.disk && r.inodeMap == s.inodeMap
    ensures |r.cr| == 16 && forall d :: 0 <= d < 16 && d != c ==> r.cr[d] == s.cr[d]
  {
    forall i | 0 <= i < 256 && i / 16 == c ensures ChunkLogged(r, i, |s.disk|) {
      var chunk := s.inodeMap[16 * c..16 * c + 16];
      forall k | 0 <= k < 256 && k / 16 == c ensures chunk[k % 16] == s.inodeMap[k] {
        assert k == 16 * c + k % 16;
      }
    }
  }

  lemma ChunkStays(s: FS, r: FS, i: int, at: int)
    requires ChunkLogged(s, i, at) && |r.disk| >= |s.disk| && r.disk[..|s.disk|] == s.disk
    requires r.inodeMap == s.inodeMap && |r.cr| == 16 && r.cr[i / 16] == s.cr[i / 16]
    ensures ChunkLogged(r, i, at)
  {
    assert r.disk[at] == r.disk[..|s.disk|][at];
  }

  /** The chunks of two inodes, in that order, or the one they are both in. */
  lemma TwoChunks(s: FS, r1: FS, i: int, j: int)
    requires |s.disk| <= |r1.disk| && r1.disk[..|s.disk|] == s.disk && r1.cr == s.cr && |s.cr| == 16
    requires |r1.inodeMap| == 256 && 0 <= i < 256 && 0 <= j < 256
    ensures var r := UpdateImap(r1, [i, j], {});
      LogGrows(s, r, |r1.disk| - |s.disk|, i, j) && r.inodeMap == r1.inodeMap && r.disk[..|r1.disk|] == r1.disk
  {
    hide ChunkLogged, OtherChunks, LogChunk;
    var c, d := ChunkOf(i), ChunkOf(j);
    var r2 := LogChunk(r1, c);
    OneChunkLogged(r1, r2, c);
    UpdateTwo(r1, i, j);
    var r := UpdateImap(r1, [i, j], {});
    if c != d {
      OneChunkLogged(r2, r, d);
      ChunkStays(r2, r, i, |r1.disk|);
      assert r.disk[..|r1.disk|] == r2.disk[..|r1.disk|];
    }
    assert r.disk[..|s.disk|] == r1.disk[..|s.disk|];
    OthersStay(s, r, i, j);
  }

  lemma UpdateTwo(s: FS, i: int, j: int)
    requires |s.inodeMap| == 256 && |s.cr| == 16 && 0 <= i < 256 && 0 <= j < 256
    ensures var c, d := ChunkOf(i), ChunkOf(j);
      UpdateImap(s, [i, j], {}) == if c == d then LogChunk(s, c) else LogChunk(LogChunk(s, c), d)
  {
    assert [i, j][1..] == [j] && [j][1..] == [];
    var c := ChunkOf(i);
    assert {} + {c} == {c};
    var s2 := LogChunk(s, c);
    assert UpdateImap(s2, [j], {c}) == if ChunkOf(j) == c then s2 else LogChunk(s2, ChunkOf(j));
  }

  lemma OthersStay(s: FS, r: FS, i: int, j: int)
    requires |s.cr| == |r.cr| == 16 && forall c :: 0 <= c < 16 && c != i / 16 && c != j / 16 ==> r.cr[c] == s.cr[c]
    ensures OtherChunks(s, r, i, j)
  {
  }

  lemma OneChunkOnly(s: FS, r1: FS, i: int)
    requires |s.disk| <= |r1.disk| && r1.disk[..|s.disk|] == s.disk && r1.cr == s.cr && |s.cr| == 16
    requires |r1.inodeMap| == 256 && 0 <= i < 256
    ensures var r := UpdateImap(r1, [i], {});
      LogGrows(s, r, |r1.disk| - |s.disk|, i, i) && r.inodeMap == r1.inodeMap && r.disk[..|r1.disk|] == r1.disk
  {
    hide LogGrows, LogChunk;
    TwoChunks(s, r1, i, i);
    UpdateTwo(r1, i, i);
    assert [i][1..] == [];
  }

  lemma ReadBack(r: FS, r1: FS, x: int)
    requires |r1.disk| <= |r.disk| && r.disk[..|r1.disk|] == r1.disk && 0 <= x < |r1.disk|
    ensures r.disk[x] == r1.disk[x]
  {
    assert r.disk[x] == r.disk[..|r1.disk|][x];
  }

  lemma DirShapes(s: FS, p: int)
    requires DirWithRoom(s, p)
    ensures |InodeOf(s, p).pointers| == 8 && InodeOf(s, p).itype == Directory && 0 <= p < 256
    ensures |TableOf(s)[p].slots| % 8 == 0 && 0 <= FreeSlot(TableOf(s)[p].slots) / 8 < 8
  {
    hide CrOk, InodeAt, NodeOf, DirPtrsOk, FreeSlot, AddSlot;
    DirShape(s, p);
    AddSlotByBlock(TableOf(s)[p].slots, FREE);
  }

  lemma FileShapes(s: FS, n: int)
    requires LiveFile(s, n)
    ensures |InodeOf(s, n).pointers| == 8 && InodeOf(s, n).itype == Regular && 0 <= n < 256
  {
    hide CrOk, InodeAt, NodeOf;
    FileShape(s, n);
  }

  /** Creation logs the directory's block, the new directory's own block, the directory's inode
      and the new inode, and then the imap, the directory's chunk first. */
  lemma CreateLog(s: FS, p: int, name: string, n: int, isFile: bool)
    requires DirWithRoom(s, p) && 0 <= n < 256 && n != p
    ensures var r, a, x := CreateLogged(s, p, name, n, isFile), |s.disk|, if isFile then 1 else 2;
      && LogGrows(s, r, x + 2, p, n)
      && r.disk[a].DirBlock? && Entry(name, n) in r.disk[a].slots
      && (!isFile ==> r.disk[a + 1].DirBlock?)
      && r.inodeMap == s.inodeMap[p := a + x][n := a + x + 1]
      && OnePointerMoved(InodeOf(s, p), r.disk[a + x], a)
      && r.disk[a + x].inode.refs == InodeOf(s, p).refs + (if isFile then 0 else 1)
      && r.disk[a + x + 1].InodeBlock?
      && r.disk[a + x + 1].inode.pointers == [if isFile then -1 else a + 1, -1, -1, -1, -1, -1, -1, -1]
  {
    hide CrOk, FreeSlot, Full, UpdateImap, InodeAt, NodeOf, NewDirSlots, LogGrows, OnePointerMoved, DirInode;
    DirShapes(s, p);
    SixteenChunks(s);
    var ino, slots, a := InodeOf(s, p), TableOf(s)[p].slots, |s.disk|;
    var k := FreeSlot(slots) / 8;
    var blocks := [NewDirBlock(slots, Entry(name, n))]
      + (if isFile then [] else [DirBlock(NewDirSlots(n, p))])
      + [InodeBlock(DirInode(ino, k, a, if isFile then 0 else 1)), InodeBlock(NewInode(isFile, a + 1))];
    var x := if isFile then 1 else 2;
    assert |blocks| == x + 2;
    var r1 := FS(s.disk + blocks, s.inodeMap[p := a + x][n := a + x + 1], s.cr);
    assert r1.disk[..a] == s.disk;
    TwoChunks(s, r1, p, n);
    var r := UpdateImap(r1, [p, n], {});
    assert r == CreateLogged(s, p, name, n, isFile);
    LogSize(s, r, x + 2, p, n);
    ReadBack(r, r1, a); ReadBack(r, r1, a + 1); ReadBack(r, r1, a + x); ReadBack(r, r1, a + x + 1);
    EntryLogged(slots, Entry(name, n));
    PointerMoved(ino, k, a, if isFile then 0 else 1);
  }

  lemma LogSize(s: FS, r: FS, blocks: int, i: int, j: int)
    requires LogGrows(s, r, blocks, i, j)
    ensures |r.disk| >= |s.disk| + blocks
  {
  }

  lemma EntryLogged(slots: seq<Entry>, e: Entry)
    requires |slots| % 8 == 0
    ensures NewDirBlock(slots, e).DirBlock? && e in NewDirBlock(slots, e).slots
  {
    hide FreeSlot;
    var x := FreeSlot(slots);
    var b := NewDirBlock(slots, e).slots;
    assert b[if x < |slots| then x % 8 else 0] == e;
  }

  /** Linking logs the directory's block and inode and the file's inode with one link more, and
      then the directory's chunk, but not the file's. */
  lemma LinkLog(s: FS, p: int, name: string, n: int)
    requires DirWithRoom(s, p) && LiveFile(s, n)
    ensures var r, a := LinkLogged(s, p, name, n), |s.disk|;
      && LogGrows(s, r, 3, p, p)
      && r.disk[a].DirBlock? && Entry(name, n) in r.disk[a].slots
      && r.inodeMap == s.inodeMap[p := a + 1][n := a + 2]
      && OnePointerMoved(InodeOf(s, p), r.disk[a + 1], a) && r.disk[a + 1].inode.refs == InodeOf(s, p).refs
      && r.disk[a + 2].InodeBlock? && r.disk[a + 2].inode.pointers == InodeOf(s, n).pointers
      && r.disk[a + 2].inode.refs == InodeOf(s, n).refs + 1
  {
    hide CrOk, FreeSlot, Full, UpdateImap, InodeAt, NodeOf, LogGrows, OnePointerMoved;
    DirShapes(s, p);
    FileShapes(s, n);
    SixteenChunks(s);
    var ino, src, slots, a := InodeOf(s, p), InodeOf(s, n), TableOf(s)[p].slots, |s.disk|;
    var blocks := [NewDirBlock(slots, Entry(name, n)), InodeBlock(DirInode(ino, FreeSlot(slots) / 8, a, 0)),
                   InodeBlock(src.(refs := src.refs + 1))];
    var r1 := FS(s.disk + blocks, s.inodeMap[p := a + 1][n := a + 2], s.cr);
    assert r1.disk[..a] == s.disk;
    OneChunkOnly(s, r1, p);
    var r := UpdateImap(r1, [p], {});
    LogSize(s, r, 3, p, p);
    ReadBack(r, r1, a); ReadBack(r, r1, a + 1); ReadBack(r, r1, a + 2);
    EntryLogged(slots, Entry(name, n));
    PointerMoved(ino, FreeSlot(slots) / 8, a, 0);
  }

  /** Deletion logs the directory's block and inode, the file's inode with one link less
      unless it was the last, and then the imap, the file's chunk first. */
  lemma DeleteLog(s: FS, p: int, name: string, n: int)
    requires WellFormed(s) && Live(s.inodeMap, p) && p in TableOf(s) && TableOf(s)[p].Dir? && LiveFile(s, n)
    requires FindName(TableOf(s)[p].slots, name) < |TableOf(s)[p].slots| && TableOf(s)[n].refs > 0
    ensures InodeOf(s, n).refs == TableOf(s)[n].refs
    ensures var r, a, last := DeleteLogged(s, p, name, n), |s.disk|, InodeOf(s, n).refs == 1;
      && LogGrows(s, r, if last then 2 else 3, n, p)
      && r.disk[a].DirBlock? && FREE in r.disk[a].slots
      && r.inodeMap == s.inodeMap[p := a + 1][n := if last then -1 else a + 2]
      && OnePointerMoved(InodeOf(s, p), r.disk[a + 1], a) && r.disk[a + 1].inode.refs == InodeOf(s, p).refs
      && (!last ==> r.disk[a + 2].InodeBlock? && r.disk[a + 2].inode.pointers == InodeOf(s, n).pointers
                    && r.disk[a + 2].inode.refs == InodeOf(s, n).refs - 1)
  {
    hide CrOk, FindName, Full, UpdateImap, InodeAt, NodeOf, LogGrows, OnePointerMoved, DirPtrsOk;
    DirShape(s, p);
    FileShapes(s, n);
    FileShape(s, n);
    SixteenChunks(s);
    var ino, src, slots, a := InodeOf(s, p), InodeOf(s, n), TableOf(s)[p].slots, |s.disk|;
    var x, last := FindName(slots, name), src.refs == 1;
    var cleared := slots[8 * (x / 8)..8 * (x / 8) + 8][x % 8 := FREE];
    assert cleared[x % 8] == FREE;
    var blocks := [DirBlock(cleared), InodeBlock(DirInode(ino, x / 8, a, 0))]
      + (if src.refs > 1 then [InodeBlock(src.(refs := src.refs - 1))] else []);
    assert |blocks| == if last then 2 else 3;
    var r1 := FS(s.disk + blocks, DeleteMap(s.inodeMap, p, n, src.refs, a + 1), s.cr);
    assert r1.inodeMap == s.inodeMap[p := a + 1][n := if last then -1 else a + 2];
    assert r1.disk[..a] == s.disk;
    TwoChunks(s, r1, n, p);
    var r := UpdateImap(r1, [n, p], {});
    LogSize(s, r, if last then 2 else 3, n, p);
    ReadBack(r, r1, a); ReadBack(r, r1, a + 1);
    if !last { ReadBack(r, r1, a + 2); }
    PointerMoved(ino, x / 8, a, 0);
  }

  /** Writing logs the blocks that fit, in order, the file's inode and its chunk. */
  lemma WriteLog(s: FS, n: int, offset: int, data: seq<string>)
    requires LiveFile(s, n) && 0 <= offset < 8
    ensures |InodeOf(s, n).pointers| == 8
    ensures var r, a := WriteLogged(s, n, offset, data), |s.disk|;
      var k := if |data| < 8 - offset then |data| else 8 - offset;
      && LogGrows(s, r, k + 1, n, n)
      && (forall j :: 0 <= j < k ==> r.disk[a + j] == DataBlock(data[j]))
      && r.inodeMap == s.inodeMap[n := a + k]
      && r.disk[a + k].InodeBlock? && |r.disk[a + k].inode.pointers| == 8
      && r.disk[a + k].inode.refs == InodeOf(s, n).refs && r.disk[a + k].inode.size == offset + k
      && forall b :: 0 <= b < 8 ==>
           r.disk[a + k].inode.pointers[b] == if offset <= b < offset + k then a + (b - offset)
                                              else InodeOf(s, n).pointers[b]
  {
    hide CrOk, UpdateImap, InodeAt, NodeOf, LogGrows, OnePointerMoved;
    FileShapes(s, n);
    SixteenChunks(s);
    var end, a := WriteEnd(offset, |data|), |s.disk|;
    var k := end - offset;
    var blocks := DataBlocks(data, k) + [InodeBlock(WrittenInode(InodeOf(s, n), offset, end, a))];
    var r1 := FS(s.disk + blocks, s.inodeMap[n := a + k], s.cr);
    assert r1.disk[..a] == s.disk;
    OneChunkOnly(s, r1, n);
    var r := UpdateImap(r1, [n], {});
    LogSize(s, r, k + 1, n, n);
    forall j | 0 <= j <= k ensures r.disk[a + j] == blocks[j] { ReadBack(r, r1, a + j); }
    forall j | 0 <= j < k ensures r.disk[a + j] == DataBlock(data[j]) { assert r.disk[a + j] == blocks[j]; }
  }
}
