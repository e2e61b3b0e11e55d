/** What each logged update means: it turns the resolved file system into exactly
    the one the operation calls for, and it only appends to the disk. */
module LfsRefine {
  import opened LfsTable
  import opened LfsDisk

  /** The state between the appends and the checkpoint entries: `blocks` were
      appended and the inode map was changed. */
  ghost function Appended(s: FS, blocks: seq<Block>, inodeMap: seq<int>): FS {
    FS(s.disk + blocks, inodeMap, s.cr)
  }

  /** Logging imap chunks changes nothing that resolves through memory. */
  lemma ChunksAreInvisible(s: FS, inums: seq<int>)
    requires WellFormed(s) && forall j :: 0 <= j < |inums| ==> 0 <= inums[j] < 256
    ensures var r := UpdateImap(s, inums, {});
      WellFormed(r) && s.disk <= r.disk && r.inodeMap == s.inodeMap && TableOf(r) == TableOf(s)
  {
    var r := UpdateImap(s, inums, {});
    UpdateImapEffect(s, inums, {});
    SameMap(s, r);
  }

  lemma SameMap(s: FS, r: FS)
    requires WellFormed(s) && Extends(s.disk, r.disk) && r.inodeMap == s.inodeMap
    requires |r.disk| > 0 && r.disk[0].Checkpoint? && CrOk(r.disk, r.disk[0].addrs) && CrOk(r.disk, r.cr)
    ensures WellFormed(r) && TableOf(r) == TableOf(s)
  {
    hide InodeAt, NodeOf, CrOk;
    forall i | Live(s.inodeMap, i)
      ensures InodeAt(r.disk, r.inodeMap[i]) && NodeOf(r.disk, r.inodeMap[i]) == NodeOf(s.disk, s.inodeMap[i])
    {
      NodeFrame(s.disk, r.disk, s.inodeMap[i]);
    }
  }

  /** Appending blocks and moving some inodes to new addresses: every other node
      is as before. */
  lemma AppendedFrame(s: FS, blocks: seq<Block>, inodeMap: seq<int>)
    requires WellFormed(s) && |inodeMap| == 256
    requires forall i :: Live(inodeMap, i) && inodeMap[i] != s.inodeMap[i] ==> InodeAt(s.disk + blocks, inodeMap[i])
    ensures var r := Appended(s, blocks, inodeMap);
      && WellFormed(r) && TableOf(r).Keys == (set i | 0 <= i < 256 && inodeMap[i] != -1)
      && forall i :: Live(inodeMap, i) ==>
        if inodeMap[i] == s.inodeMap[i] then i in TableOf(s) && TableOf(r)[i] == TableOf(s)[i]
        else TableOf(r)[i] == NodeOf(r.disk, inodeMap[i])
  {
    hide InodeAt, NodeOf, CrOk;
    var r := Appended(s, blocks, inodeMap);
    ChunkFrame(s.disk, r.disk, s.cr);
    ChunkFrame(s.disk, r.disk, s.disk[0].addrs);
    forall i | Live(inodeMap, i) && inodeMap[i] == s.inodeMap[i]
      ensures InodeAt(r.disk, inodeMap[i]) && NodeOf(r.disk, inodeMap[i]) == NodeOf(s.disk, s.inodeMap[i])
    {
      NodeFrame(s.disk, r.disk, s.inodeMap[i]);
    }
  }

  /** A directory whose block `k` is replaced, or added, by one block at the end of the log. */
  lemma DirBlockReplaced(disk: seq<Block>, disk': seq<Block>, ino: Inode, k: int, a: int, slots': seq<Entry>)
    requires DirPtrsOk(disk, ino.pointers, ino.size) && Extends(disk, disk')
    requires 0 <= k < 8 && k <= ino.size && |slots'| == 8 * (if k == ino.size then k + 1 else ino.size)
    requires IsDirBlock(disk', a) && disk'[a].slots == slots'[8 * k..8 * k + 8]
    requires forall x :: 0 <= x < 8 * ino.size && x / 8 != k ==>
      slots'[x] == DirSlots(disk, ino.pointers, ino.size)[x]
    ensures var ino' := DirInode(ino, k, a, 0);
      DirPtrsOk(disk', ino'.pointers, ino'.size) && DirSlots(disk', ino'.pointers, ino'.size) == slots'
  {
    var ino' := DirInode(ino, k, a, 0);
    DirPtrsReplaced(disk, disk', ino, k, a);
    hide DirPtrsOk, Extends;
    forall x | 0 <= x < 8 * ino'.size ensures DirSlots(disk', ino'.pointers, ino'.size)[x] == slots'[x] {
      DirSlotRead(disk', ino'.pointers, ino'.size, x);
      if x / 8 == k {
        assert slots'[8 * k..8 * k + 8][x % 8] == slots'[x];
      } else {
        DirSlotRead(disk, ino.pointers, ino.size, x);
        SlotKept(disk, disk', ino, x);
      }
    }
    assert |DirSlots(disk', ino'.pointers, ino'.size)| == |slots'|;
  }

  lemma DirPtrsReplaced(disk: seq<Block>, disk': seq<Block>, ino: Inode, k: int, a: int)
    requires DirPtrsOk(disk, ino.pointers, ino.size) && Extends(disk, disk')
    requires 0 <= k < 8 && k <= ino.size && IsDirBlock(disk', a)
    ensures var ino' := DirInode(ino, k, a, 0); DirPtrsOk(disk', ino'.pointers, ino'.size)
  {
    var ino' := DirInode(ino, k, a, 0);
    forall j | 0 <= j < ino'.size ensures IsDirBlock(disk', ino'.pointers[j]) {
      if j != k { assert IsDirBlock(disk, ino.pointers[j]); }
    }
  }

  lemma DirSlotRead(disk: seq<Block>, ptrs: seq<int>, size: int, x: int)
    requires DirPtrsOk(disk, ptrs, size) && 0 <= x < 8 * size
    ensures IsDirBlock(disk, ptrs[x / 8]) && DirSlots(disk, ptrs, size)[x] == disk[ptrs[x / 8]].slots[x % 8]
  {
  }

  lemma SlotKept(disk: seq<Block>, disk': seq<Block>, ino: Inode, x: int)
    requires DirPtrsOk(disk, ino.pointers, ino.size) && Extends(disk, disk') && 0 <= x < 8 * ino.size
    ensures IsDirBlock(disk, ino.pointers[x / 8]) && IsDirBlock(disk', ino.pointers[x / 8])
    ensures disk'[ino.pointers[x / 8]].slots[x % 8] == disk[ino.pointers[x / 8]].slots[x % 8]
  {
    assert IsDirBlock(disk, ino.pointers[x / 8]);
  }

  lemma AddSlotByBlock(slots: seq<Entry>, e: Entry)
    requires |slots| % 8 == 0 && 8 <= |slots| <= 64 && !Full(slots)
    ensures var k, r := FreeSlot(slots) / 8, AddSlot(slots, e);
      && 0 <= k < 8 && 8 * k <= |slots| && |r| == (if 8 * k == |slots| then 8 * k + 8 else |slots|)
      && NewDirBlock(slots, e) == DirBlock(r[8 * k..8 * k + 8])
      && forall x :: 0 <= x < |slots| && x / 8 != k ==> r[x] == slots[x]
  {
    var x, k, r := FreeSlot(slots), FreeSlot(slots) / 8, AddSlot(slots, e);
    assert NewDirBlock(slots, e).slots == r[8 * k..8 * k + 8];
  }

  lemma DirShape(s: FS, p: int)
    requires WellFormed(s) && Live(s.inodeMap, p) && p in TableOf(s) && TableOf(s)[p].Dir?
    ensures var ino, slots := InodeOf(s, p), TableOf(s)[p].slots;
      && ino.itype == Directory && DirPtrsOk(s.disk, ino.pointers, ino.size) && |ino.pointers| == 8
      && slots == DirSlots(s.disk, ino.pointers, ino.size) && TableOf(s)[p].refs == ino.refs
      && |slots| == 8 * ino.size && 1 <= ino.size <= 8
  {
  }

  /** The parent's new inode resolves to the parent's slots plus one entry. */
  lemma ParentAfterAdd(s: FS, disk': seq<Block>, p: int, e: Entry, a: int, moreRefs: int)
    requires DirWithRoom(s, p) && Extends(s.disk, disk') && 0 < |s.disk| <= a < |disk'|
    requires |TableOf(s)[p].slots| % 8 == 0 && disk'[a] == NewDirBlock(TableOf(s)[p].slots, e)
    ensures var slots := TableOf(s)[p].slots; var k := FreeSlot(slots) / 8;
      && 0 <= k < 8 && |InodeOf(s, p).pointers| == 8
      && var ino' := DirInode(InodeOf(s, p), k, a, moreRefs);
      && DirPtrsOk(disk', ino'.pointers, ino'.size) && ino'.itype == Directory
      && DirSlots(disk', ino'.pointers, ino'.size) == AddSlot(slots, e)
  {
    hide CrOk, AddSlot, FreeSlot, NewDirBlock, Full, DirPtrsOk, Extends;
    DirShape(s, p);
    var ino, slots := InodeOf(s, p), TableOf(s)[p].slots;
    AddSlotByBlock(slots, e);
    var k := FreeSlot(slots) / 8;
    assert DirInode(ino, k, a, moreRefs).pointers == DirInode(ino, k, a, 0).pointers;
    assert DirInode(ino, k, a, moreRefs).size == DirInode(ino, k, a, 0).size;
    DirBlockReplaced(s.disk, disk', ino, k, a, AddSlot(slots, e));
  }

  lemma NewInodeResolves(disk: seq<Block>, a: int, isFile: bool, n: int, p: int, dirAddr: int)
    requires 0 < a < |disk| && disk[a] == InodeBlock(NewInode(isFile, dirAddr))
    requires !isFile ==> 0 < dirAddr < |disk| && disk[dirAddr] == DirBlock(NewDirSlots(n, p))
    ensures InodeAt(disk, a) && NodeOf(disk, a) == NewNode(isFile, n, p)
  {
    var ino := disk[a].inode;
    if isFile {
      assert FileBlocks(disk, ino.pointers) == NoBlocks();
    } else {
      assert IsDirBlock(disk, ino.pointers[0]);
      assert DirSlots(disk, ino.pointers, 1) == NewDirSlots(n, p);
    }
  }

  /** An address that holds a directory inode resolves to this node. */
  lemma DirNodeAt(disk: seq<Block>, a: int, ino: Inode, slots: seq<Entry>)
    requires 0 < a < |disk| && disk[a] == InodeBlock(ino) && ino.itype == Directory
    requires DirPtrsOk(disk, ino.pointers, ino.size) && DirSlots(disk, ino.pointers, ino.size) == slots
    ensures InodeAt(disk, a) && NodeOf(disk, a) == Dir(ino.refs, slots)
  {
  }

  lemma CreateRefines(s: FS, p: int, name: string, n: int, isFile: bool)
    requires DirWithRoom(s, p) && 0 <= n < 256 && s.inodeMap[n] == -1
    ensures var r := CreateLogged(s, p, name, n, isFile);
      WellFormed(r) && s.disk <= r.disk && TableOf(r) == CreateNode(TableOf(s), p, name, n, isFile)
  {
    hide NewDirBlock, FreeSlot, AddSlot, Full, CrOk, UpdateImap, NewDirSlots, DirPtrsOk, NoPtrs, InodeAt, NodeOf;
    DirShape(s, p);
    var ino, slots, a := InodeOf(s, p), TableOf(s)[p].slots, |s.disk|;
    AddSlotByBlock(slots, Entry(name, n));
    var k := FreeSlot(slots) / 8;
    var pino := DirInode(ino, k, a, if isFile then 0 else 1);
    var blocks := [NewDirBlock(slots, Entry(name, n))]
      + (if isFile then [] else [DirBlock(NewDirSlots(n, p))])
      + [InodeBlock(pino), InodeBlock(NewInode(isFile, a + 1))];
    var pa := a + |blocks| - 2;
    var m := s.inodeMap[p := pa][n := pa + 1];
    var r1 := Appended(s, blocks, m);
    ParentAfterAdd(s, r1.disk, p, Entry(name, n), a, if isFile then 0 else 1);
    DirNodeAt(r1.disk, pa, pino, AddSlot(slots, Entry(name, n)));
    NewInodeResolves(r1.disk, pa + 1, isFile, n, p, a + 1);
    AppendedFrame(s, blocks, m);
    assert TableOf(r1) == CreateNode(TableOf(s), p, name, n, isFile);
    ChunksAreInvisible(r1, [p, n]);
  }

  lemma LinkRefines(s: FS, p: int, name: string, n: int)
    requires DirWithRoom(s, p) && LiveFile(s, n)
    ensures var r := LinkLogged(s, p, name, n);
      WellFormed(r) && s.disk <= r.disk && TableOf(r) == LinkNode(TableOf(s), p, name, n)
  {
    hide NewDirBlock, FreeSlot, AddSlot, Full, CrOk, UpdateImap, DirPtrsOk, InodeAt, NodeOf;
    DirShape(s, p);
    FileShape(s, n);
    var ino, src, slots, a := InodeOf(s, p), InodeOf(s, n), TableOf(s)[p].slots, |s.disk|;
    AddSlotByBlock(slots, Entry(name, n));
    var pino := DirInode(ino, FreeSlot(slots) / 8, a, 0);
    var blocks := [NewDirBlock(slots, Entry(name, n)), InodeBlock(pino), InodeBlock(src.(refs := src.refs + 1))];
    var m := s.inodeMap[p := a + 1][n := a + 2];
    var r1 := Appended(s, blocks, m);
    ParentAfterAdd(s, r1.disk, p, Entry(name, n), a, 0);
    DirNodeAt(r1.disk, a + 1, pino, AddSlot(slots, Entry(name, n)));
    FileRefsAt(s, r1.disk, n, a + 2, src.refs + 1);
    AppendedFrame(s, blocks, m);
    assert TableOf(r1) == LinkNode(TableOf(s), p, name, n);
    ChunksAreInvisible(r1, [p]);
  }

  lemma FileShape(s: FS, n: int)
    requires LiveFile(s, n)
    ensures var ino := InodeOf(s, n);
      && ino.itype == Regular && FilePtrsOk(s.disk, ino.pointers) && |ino.pointers| == 8
      && TableOf(s)[n] == File(ino.refs, ino.size, FileBlocks(s.disk, ino.pointers))
  {
  }

  /** A copy of a file's inode with another link count has the same contents. */
  lemma FileRefsAt(s: FS, disk': seq<Block>, n: int, a: int, refs: int)
    requires LiveFile(s, n) && Extends(s.disk, disk') && 0 < a < |disk'|
    requires disk'[a] == InodeBlock(InodeOf(s, n).(refs := refs))
    ensures InodeAt(disk', a) && NodeOf(disk', a) == TableOf(s)[n].(refs := refs)
  {
    FileShape(s, n);
    var ptrs := InodeOf(s, n).pointers;
    assert FilePtrsOk(disk', ptrs) && FileBlocks(disk', ptrs) == FileBlocks(s.disk, ptrs);
  }

  lemma ClearedByBlock(slots: seq<Entry>, x: int, size: int)
    requires |slots| == 8 * size && 0 <= x < |slots|
    ensures var k, r := x / 8, slots[x := FREE];
      && 0 <= k < size && slots[8 * k..8 * k + 8][x % 8 := FREE] == r[8 * k..8 * k + 8]
      && forall y :: 0 <= y < |slots| && y / 8 != k ==> r[y] == slots[y]
  {
    var k := x / 8;
    assert slots[8 * k..8 * k + 8][x % 8 := FREE] == slots[x := FREE][8 * k..8 * k + 8];
  }

  lemma ParentAfterClear(s: FS, disk': seq<Block>, p: int, x: int, a: int)
    requires WellFormed(s) && Live(s.inodeMap, p) && p in TableOf(s) && TableOf(s)[p].Dir?
    requires |TableOf(s)[p].slots| % 8 == 0 && 0 <= x < |TableOf(s)[p].slots|
    requires Extends(s.disk, disk') && 0 < |s.disk| <= a < |disk'|
    requires disk'[a] == DirBlock(TableOf(s)[p].slots[8 * (x / 8)..8 * (x / 8) + 8][x % 8 := FREE])
    ensures var slots, ino := TableOf(s)[p].slots, InodeOf(s, p);
      && x / 8 < 8 && |ino.pointers| == 8
      && var ino' := DirInode(ino, x / 8, a, 0);
      && DirPtrsOk(disk', ino'.pointers, ino'.size) && ino'.itype == Directory
      && DirSlots(disk', ino'.pointers, ino'.size) == slots[x := FREE]
  {
    hide CrOk, DirPtrsOk, Extends;
    DirShape(s, p);
    var ino, slots := InodeOf(s, p), TableOf(s)[p].slots;
    ClearedByBlock(slots, x, ino.size);
    DirBlockReplaced(s.disk, disk', ino, x / 8, a, slots[x := FREE]);
  }

  lemma DeleteRefines(s: FS, p: int, name: string, n: int)
    requires WellFormed(s) && Live(s.inodeMap, p) && p in TableOf(s) && TableOf(s)[p].Dir? && LiveFile(s, n)
    requires FindName(TableOf(s)[p].slots, name) < |TableOf(s)[p].slots|
    ensures var r := DeleteLogged(s, p, name, n);
      WellFormed(r) && s.disk <= r.disk && TableOf(r) == DeleteNode(TableOf(s), p, name, n)
  {
    hide CrOk, UpdateImap, DirPtrsOk, InodeAt, NodeOf, FindName, DirInode, DeleteMap, DeleteNode;
    DirShape(s, p);
    FileShape(s, n);
    var ino, src, slots, a := InodeOf(s, p), InodeOf(s, n), TableOf(s)[p].slots, |s.disk|;
    var x := FindName(slots, name);
    ClearedByBlock(slots, x, ino.size);
    var pino := DirInode(ino, x / 8, a, 0);
    var blocks := [DirBlock(slots[8 * (x / 8)..8 * (x / 8) + 8][x % 8 := FREE]), InodeBlock(pino)]
      + (if src.refs > 1 then [InodeBlock(src.(refs := src.refs - 1))] else []);
    var m := DeleteMap(s.inodeMap, p, n, src.refs, a + 1);
    var r1 := Appended(s, blocks, m);
    ParentAfterClear(s, r1.disk, p, x, a);
    DirInodeRefs(ino, x / 8, a);
    DirNodeAt(r1.disk, a + 1, pino, slots[x := FREE]);
    if src.refs > 1 { FileRefsAt(s, r1.disk, n, a + 2, src.refs - 1); }
    DeleteMapIs(s.inodeMap, p, n, src.refs, a + 1);
    AppendedFrame(s, blocks, m);
    DeleteTableIs(s, r1, p, name, n, a + 1);
    ChunksAreInvisible(r1, [n, p]);
  }

  lemma DeleteMapIs(m: seq<int>, p: int, n: int, refs: int, a: int)
    requires 0 <= p < |m| && 0 <= n < |m| && p != n
    ensures var r := DeleteMap(m, p, n, refs, a);
      && |r| == |m| && r[p] == a
      && r[n] == (if refs == 1 then -1 else if refs > 1 then a + 1 else m[n])
      && forall i :: 0 <= i < |m| && i != p && i != n ==> r[i] == m[i]
  {
  }

  lemma DeleteTableIs(s: FS, r: FS, p: int, name: string, n: int, a: int)
    requires WellFormed(s) && WellFormed(r) && 0 < a && LiveFile(s, n)
    requires p in TableOf(s) && TableOf(s)[p].Dir? && FindName(TableOf(s)[p].slots, name) < |TableOf(s)[p].slots|
    requires forall i :: 0 <= i < 256 && i != p && i != n ==>
      && r.inodeMap[i] == s.inodeMap[i]
      && (i in TableOf(s) ==> i in TableOf(r) && TableOf(r)[i] == TableOf(s)[i])
    requires p in TableOf(r) && TableOf(r)[p]
      == Dir(TableOf(s)[p].refs, TableOf(s)[p].slots[FindName(TableOf(s)[p].slots, name) := FREE])
    requires var refs := TableOf(s)[n].refs;
      if refs == 1 then r.inodeMap[n] == -1
      else n in TableOf(r) && TableOf(r)[n] == TableOf(s)[n].(refs := if refs > 1 then refs - 1 else refs)
    ensures TableOf(r) == DeleteNode(TableOf(s), p, name, n)
  {
    hide InodeAt, NodeOf, CrOk;
  }

  lemma DirInodeRefs(ino: Inode, k: int, a: int)
    requires |ino.pointers| == 8 && 0 <= k < 8
    ensures DirInode(ino, k, a, 0).refs == ino.refs && DirInode(ino, k, a, 0).itype == ino.itype
  {
  }

  lemma WrittenAt(s: FS, disk': seq<Block>, n: int, offset: int, data: seq<string>, a: int)
    requires LiveFile(s, n) && 0 <= offset < 8 && 0 < |s.disk|
    requires Extends(s.disk, disk') && a == |s.disk| + WriteEnd(offset, |data|) - offset < |disk'|
    requires disk'[|s.disk|..a] == DataBlocks(data, WriteEnd(offset, |data|) - offset)
    requires |InodeOf(s, n).pointers| == 8
    requires disk'[a] == InodeBlock(WrittenInode(InodeOf(s, n), offset, WriteEnd(offset, |data|), |s.disk|))
    ensures |TableOf(s)[n].blocks| == 8
    ensures InodeAt(disk', a) && NodeOf(disk', a) == WriteNode(TableOf(s), n, offset, data)[n]
  {
    hide CrOk;
    FileShape(s, n);
    var end := WriteEnd(offset, |data|);
    var ino := InodeOf(s, n);
    var ino' := disk'[a].inode;
    forall k | 0 <= k < 8 && ino'.pointers[k] != -1 ensures IsDataBlock(disk', ino'.pointers[k]) {
      if offset <= k < end { assert disk'[|s.disk|..a][k - offset].DataBlock?; }
      else { assert IsDataBlock(s.disk, ino.pointers[k]); }
    }
    forall k | 0 <= k < 8
      ensures FileBlocks(disk', ino'.pointers)[k]
        == if offset <= k < end then Some(data[k - offset]) else FileBlocks(s.disk, ino.pointers)[k]
    {
      if offset <= k < end { assert disk'[|s.disk|..a][k - offset] == DataBlock(data[k - offset]); }
    }
    assert FileBlocks(disk', ino'.pointers) == WriteNode(TableOf(s), n, offset, data)[n].blocks;
  }

  lemma WriteRefines(s: FS, n: int, offset: int, data: seq<string>)
    requires LiveFile(s, n) && 0 <= offset < 8
    ensures |TableOf(s)[n].blocks| == 8
    ensures var r := WriteLogged(s, n, offset, data);
      WellFormed(r) && s.disk <= r.disk && TableOf(r) == WriteNode(TableOf(s), n, offset, data)
  {
    hide CrOk, UpdateImap, InodeAt, NodeOf, WrittenInode;
    FileShape(s, n);
    var end, a := WriteEnd(offset, |data|), |s.disk|;
    var blocks := DataBlocks(data, end - offset) + [InodeBlock(WrittenInode(InodeOf(s, n), offset, end, a))];
    var m := s.inodeMap[n := a + end - offset];
    var r1 := Appended(s, blocks, m);
    assert r1.disk[a..a + end - offset] == DataBlocks(data, end - offset);
    WrittenAt(s, r1.disk, n, offset, data, a + end - offset);
    AppendedFrame(s, blocks, m);
    assert TableOf(r1) == WriteNode(TableOf(s), n, offset, data);
    ChunksAreInvisible(r1, [n]);
  }

  /** Syncing changes nothing that resolves through memory. */
  lemma SyncIsInvisible(s: FS)
    requires WellFormed(s)
    ensures WellFormed(CrSync(s)) && Extends(s.disk, CrSync(s).disk) && TableOf(CrSync(s)) == TableOf(s)
  {
    hide InodeAt, NodeOf;
    ChunkFrame(s.disk, CrSync(s).disk, s.cr);
    SameMap(s, CrSync(s));
  }
}
