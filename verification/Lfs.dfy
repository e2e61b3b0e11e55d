/** The simulator itself: a class whose methods append to the disk and update the
    inode map and the checkpoint region in place, each proved to perform the step
    that the run theorems are about. */
module Lfs {
  import opened LfsTable
  import opened LfsTableInv
  import opened LfsDisk
  import opened LfsRefine
  import opened LfsRun
  import opened LfsRecovery
  import opened LfsOwnership
  import opened LfsReachable

  lemma FindNameIs(s: seq<Entry>, name: string, x: nat)
    requires x <= |s| && (x < |s| ==> s[x].name == name)
    requires forall y :: 0 <= y < x ==> s[y].name != name
    ensures FindName(s, name) == x
  {
  }

  /** The inode number the allocation policy settles on: the lowest free one, or
      whatever free one the random draw ends with. */
  ghost predicate PickedBy(inodeMap: seq<int>, sequential: bool, choice: int, pick: int) {
    && PickOk(inodeMap, pick)
    && (pick != -1 ==> if sequential then forall i :: 0 <= i < pick ==> inodeMap[i] != -1 else pick == choice)
  }

  /** The random draw ends with a free inode, if there is one. */
  ghost predicate DrawOk(inodeMap: seq<int>, sequential: bool, choice: int) {
    sequential || (forall i :: 0 <= i < |inodeMap| ==> inodeMap[i] != -1)
    || (0 <= choice < |inodeMap| && inodeMap[choice] == -1)
  }

  class LFS {
    var disk: seq<Block>
    var inodeMap: seq<int>
    var cr: seq<int>
    const noForceCheckpoints: bool
    const sequential: bool

    ghost function State(): FS
      reads this
    {
      FS(disk, inodeMap, cr)
    }

    /** The blocks are well formed, and the table they resolve to satisfies the invariant. */
    ghost predicate Valid()
      reads this
    {
      WellFormed(State()) && Inv(TableOf(State()))
    }

    constructor (noForceCheckpoints: bool, sequential: bool)
      ensures this.noForceCheckpoints == noForceCheckpoints && this.sequential == sequential
      ensures Valid() && State() == InitialFS()
    {
      this.noForceCheckpoints := noForceCheckpoints;
      this.sequential := sequential;
      disk := [];
      cr := [3, -1, -1, -1, -1, -1, -1, -1, -1, -1, -1, -1, -1, -1, -1, -1];
      inodeMap := seq(256, _ => -1);
      new;
      Format();
      hide Inv, WellFormed, TableOf, InitialFS;
      InitialIsValid();
    }

    /** The first four blocks: the checkpoint, the root's entries, its inode and their chunk
        of the inode map. */
    method Format()
      requires disk == [] && inodeMap == seq(256, _ => -1) && cr == InitialFS().cr
      modifies this`disk, this`inodeMap
      ensures State() == InitialFS()
    {
      var a := Log(Checkpoint(cr));
      a := Log(DirBlock(NewDirSlots(0, 0)));
      a := Log(InodeBlock(Inode(Directory, 1, 2, NoPtrs()[0 := 1])));
      inodeMap := inodeMap[0 := a];
      var chunk := MakeImapChunk(0);
      a := Log(chunk);
      assert inodeMap == InitialFS().inodeMap;
      assert disk[3].addrs == InitialFS().disk[3].addrs;
      assert disk == InitialFS().disk;
    }

    method Log(block: Block) returns (address: int)
      modifies this`disk
      ensures disk == old(disk) + [block] && address == |old(disk)|
    {
      address := |disk|;
      disk := disk + [block];
    }

    method MakeImapChunk(cnum: int) returns (chunk: Block)
      requires |inodeMap| == 256 && 0 <= cnum < 16
      ensures chunk == ImapChunk(inodeMap[16 * cnum..16 * cnum + 16])
    {
      var entries := [];
      var start := cnum * 16;
      for i := start to start + 16
        invariant entries == inodeMap[start..i]
      {
        entries := entries + [inodeMap[i]];
      }
      chunk := ImapChunk(entries);
    }

    /** Takes the inode by putting a placeholder address into the map. */
    method AllocateInode(choice: int) returns (pick: int)
      requires DrawOk(inodeMap, sequential, choice)
      modifies this`inodeMap
      ensures PickedBy(old(inodeMap), sequential, choice, pick)
      ensures inodeMap == if pick == -1 then old(inodeMap) else old(inodeMap)[pick := 1]
    {
      var free := -1;
      for i := 0 to |inodeMap|
        invariant free == -1 && forall j :: 0 <= j < i ==> inodeMap[j] != -1
      {
        if inodeMap[i] == -1 {
          free := i;
          break;
        }
      }
      if free == -1 { return -1; }
      pick := if sequential then free else choice;
      inodeMap := inodeMap[pick := 1];
    }

    method FreeInode(inum: int)
      requires 0 <= inum < |inodeMap| && inodeMap[inum] != -1
      modifies this`inodeMap
      ensures inodeMap == old(inodeMap)[inum := -1]
    {
      inodeMap := inodeMap[inum := -1];
    }

    method SyncCheckpoint()
      requires |disk| > 0
      modifies this`disk
      ensures State() == CrSync(old(State()))
    {
      disk := disk[0 := Checkpoint(cr)];
    }

    /** Through the in-memory inode map. */
    method GetInode(inum: int) returns (inode: Inode)
      requires MapOk(disk, inodeMap) && Live(inodeMap, inum)
      ensures inode == InodeOf(State(), inum)
    {
      var address := inodeMap[inum];
      assert InodeAt(disk, address);
      inode := disk[address].inode;
    }

    /** Through the checkpoint region and the imap chunks on disk. */
    method GetInodeFromDisk(inum: int) returns (inode: Inode)
      requires WellFormed(State()) && MapOk(disk, RecoveredMap(State())) && Live(RecoveredMap(State()), inum)
      ensures inode == disk[RecoveredMap(State())[inum]].inode
    {
      var chunkAddress := disk[0].addrs[inum / 16];
      assert chunkAddress != -1 && ChunkAt(disk, chunkAddress);
      var address := disk[chunkAddress].addrs[inum % 16];
      assert address == RecoveredMap(State())[inum] && InodeAt(disk, address);
      inode := disk[address].inode;
    }

    method LookupName(parent: int, name: string) returns (inum: int)
      requires WellFormed(State()) && Live(inodeMap, parent) && parent in TableOf(State())
      requires TableOf(State())[parent].Dir?
      ensures inum == Lookup(TableOf(State()), parent, name)
    {
      var inode := GetInode(parent);
      ghost var slots := TableOf(State())[parent].slots;
      DirShape(State(), parent);
      for k := 0 to 8
        invariant forall y :: 0 <= y < 8 * k && y < |slots| ==> slots[y].name != name
      {
        var address := inode.pointers[k];
        PointerUse(disk, inode, k);
        if address != -1 {
          for j := 0 to 8
            invariant forall y :: 0 <= y < 8 * k + j ==> slots[y].name != name
          {
            DirSlotRead(disk, inode.pointers, inode.size, 8 * k + j);
            assert (8 * k + j) / 8 == k && (8 * k + j) % 8 == j;
            if disk[address].slots[j].name == name {
              FindNameIs(slots, name, 8 * k + j);
              return disk[address].slots[j].inum;
            }
          }
        }
      }
      FindNameIs(slots, name, |slots|);
      inum := -1;
    }

    /** Returns where the path leads; the caller keeps it off regular files. */
    method WalkPath(path: string) returns (w: Walked)
      requires Valid() && !Target(TableOf(State()), path).Crash?
      ensures w == Target(TableOf(State()), path)
    {
      hide WellFormed, Inv, TableOf, LookupSlots;
      var comps := Split(path);
      ghost var t := TableOf(State());
      if comps[0] != "" { return NotRooted; }
      var parent := 0;
      var i := 1;
      var last := |comps| - 1;
      ghost var rest := if |comps| == 1 then comps else comps[1..];
      while i < last
        invariant 1 <= i && (i <= last || last == 0)
        invariant rest == if last == 0 then comps else comps[i..]
        invariant |rest| > 0 && Target(t, path) == WalkFrom(t, parent, rest)
      {
        TableLive(State(), parent);
        var inum := LookupName(parent, comps[i]);
        assert rest[0] == comps[i] && rest[1..] == comps[i + 1..];
        if inum == -1 { return NoParent; }
        parent := inum;
        i := i + 1;
        rest := rest[1..];
      }
      assert rest == [comps[last]];
      TableLive(State(), parent);
      var inum := LookupName(parent, comps[last]);
      w := At(parent, comps[last], inum);
    }

    /** Log the imap chunks of `inums`, each chunk once. */
    method UpdateImap(inums: seq<int>)
      requires |inodeMap| == 256 && |cr| == 16 && forall j :: 0 <= j < |inums| ==> 0 <= inums[j] < 256
      modifies this`disk, this`cr
      ensures State() == LfsDisk.UpdateImap(old(State()), inums, {})
    {
      var chunkList: set<int> := {};
      for i := 0 to |inums|
        invariant |cr| == 16
        invariant LfsDisk.UpdateImap(State(), inums[i..], chunkList) == LfsDisk.UpdateImap(old(State()), inums, {})
      {
        var cnum := ChunkOf(inums[i]);
        assert inums[i..][1..] == inums[i + 1..];
        if cnum !in chunkList {
          chunkList := chunkList + {cnum};
          var chunk := MakeImapChunk(cnum);
          var address := Log(chunk);
          cr := cr[cnum := |disk| - 1];
        }
      }
    }

    /** The first slot called `name`, as block and slot index; -1 for none. */
    method FindDirSlot(name: string, inode: Inode) returns (inodeIndex: int, slotIndex: int)
      requires DirPtrsOk(disk, inode.pointers, inode.size)
      ensures var s := DirSlots(disk, inode.pointers, inode.size);
        if FindName(s, name) < |s| then inodeIndex == FindName(s, name) / 8 && slotIndex == FindName(s, name) % 8
        else inodeIndex == -1 && slotIndex == -1
    {
      ghost var slots := DirSlots(disk, inode.pointers, inode.size);
      for k := 0 to inode.size
        invariant forall y :: 0 <= y < 8 * k ==> slots[y].name != name
      {
        var address := inode.pointers[k];
        assert IsDirBlock(disk, address);
        for j := 0 to 8
          invariant forall y :: 0 <= y < 8 * k + j ==> slots[y].name != name
        {
          DirSlotRead(disk, inode.pointers, inode.size, 8 * k + j);
          assert (8 * k + j) / 8 == k && (8 * k + j) % 8 == j;
          if disk[address].slots[j].name == name {
            FindNameIs(slots, name, 8 * k + j);
            return k, j;
          }
        }
      }
      FindNameIs(slots, name, |slots|);
      return -1, -1;
    }

    /** Where a new entry goes: the index of the directory block, the directory's
        size with it, and the new version of the block; -1 if the directory is full. */
    method AddDirEntry(parent: Inode, name: string, inum: int) returns (index: int, size: int, block: Block)
      requires DirPtrsOk(disk, parent.pointers, parent.size)
      ensures var s := DirSlots(disk, parent.pointers, parent.size);
        if Full(s) then index == -1
        else
          && index == FreeSlot(s) / 8 && 0 <= index < 8
          && size == DirInode(parent, index, 0, 0).size
          && block == NewDirBlock(s, Entry(name, inum))
    {
      ghost var s := DirSlots(disk, parent.pointers, parent.size);
      var k, j := FindDirSlot("-", parent);
      if k != -1 {
        var address := parent.pointers[k];
        assert IsDirBlock(disk, address);
        assert disk[address].slots == s[8 * k..8 * k + 8] by { SlotsOfBlock(disk, parent, k); }
        return k, parent.size, DirBlock(disk[address].slots[j := Entry(name, inum)]);
      }
      if parent.size != 8 {
        return parent.size, parent.size + 1, DirBlock([Entry(name, inum), FREE, FREE, FREE, FREE, FREE, FREE, FREE]);
      }
      return -1, -1, DirBlock([]);
    }
  
    /** The writes of a create: directory block, a new directory's own block, both
        inodes and their imap chunks. `s` is the state before the inode was taken. */
    method LogCreate(ghost s: FS, p: int, name: string, n: int, isFile: bool,
                     parentInode: Inode, index: int, size: int, block: Block)
      requires DirWithRoom(s, p) && 0 <= n < 256 && disk == s.disk && cr == s.cr && inodeMap == s.inodeMap[n := 1]
      requires parentInode == InodeOf(s, p) && |parentInode.pointers| == 8
      requires index == FreeSlot(TableOf(s)[p].slots) / 8 && 0 <= index < 8
      requires size == DirInode(parentInode, index, 0, 0).size
      requires |TableOf(s)[p].slots| % 8 == 0 && block == NewDirBlock(TableOf(s)[p].slots, Entry(name, n))
      modifies this`disk, this`inodeMap, this`cr
      ensures State() == CreateLogged(s, p, name, n, isFile)
    {
      hide InodeAt, NodeOf, CrOk, LfsDisk.UpdateImap, DirPtrsOk, Full, FreeSlot, NewDirBlock, NewDirSlots;
      CrLength(s);
      var blockAddress := Log(block);
      var newParent := Inode(parentInode.itype, size, parentInode.refs + (if isFile then 0 else 1),
                             parentInode.pointers[index := blockAddress]);
      var dirAddress := blockAddress + 1;
      if !isFile { dirAddress := Log(DirBlock(NewDirSlots(n, p))); }
      var newInode := if isFile then Inode(Regular, 0, 1, NoPtrs())
                      else Inode(Directory, 1, 2, NoPtrs()[0 := dirAddress]);
      var parentAddress := Log(InodeBlock(newParent));
      var inodeAddress := Log(InodeBlock(newInode));
      inodeMap := inodeMap[p := parentAddress];
      inodeMap := inodeMap[n := inodeAddress];
      assert inodeMap == s.inodeMap[p := parentAddress][n := inodeAddress];
      ghost var blocks := [block] + (if isFile then [] else [DirBlock(NewDirSlots(n, p))])
        + [InodeBlock(newParent), InodeBlock(newInode)];
      assert disk == s.disk + blocks;
      UpdateImap([p, n]);
      assert State() == CreateLogged(s, p, name, n, isFile);
    }

    /** Create a file or a directory; 0 on success, otherwise -1 and no change. */
    method FileCreate(path: string, isFile: bool, choice: int) returns (rc: int, ghost pick: int)
      requires Valid() && DrawOk(inodeMap, sequential, choice)
      requires !Target(TableOf(State()), path).Crash?
      requires Target(TableOf(State()), path).At? ==> Target(TableOf(State()), path).name != "-"
      modifies this
      ensures Valid() && PickedBy(old(inodeMap), sequential, choice, pick)
      ensures var s, op := old(State()), Create(path, isFile, pick);
        && WellFormed(s) && Allowed(s, op)
        && State() == Step(s, op, !noForceCheckpoints) && rc == (if Succeeds(s, op) then 0 else -1)
    {
      hide Inv, Target, InodeAt, NodeOf, CrOk, LfsDisk.UpdateImap, DirPtrsOk, Step, Succeeds, Allowed, Logged, PickOk,
        DrawOk, Full, FreeSlot, NewDirBlock, NewDirSlots, LookupSlots, PickedBy;
      ghost var s := State();
      CrLength(s);
      ghost var t := TableOf(s);
      var w := WalkPath(path);
      TargetIn(t, path);
      pick := SomePick(inodeMap, sequential, choice);
      CreateMeans(s, path, isFile, pick, !noForceCheckpoints, sequential, choice);
      StepIsValid(s, Create(path, isFile, pick), !noForceCheckpoints);
      if !w.At? || w.inum != -1 { return -1, pick; }
      TableLive(s, w.parent);
      var parentInode := GetInode(w.parent);
      DirShape(s, w.parent);
      var n := AllocateInode(choice);
      pick := n;
      CreateMeans(s, path, isFile, pick, !noForceCheckpoints, sequential, choice);
      StepIsValid(s, Create(path, isFile, pick), !noForceCheckpoints);
      if n == -1 { return -1, pick; }
      var index, size, block := AddDirEntry(parentInode, w.name, n);
      if index == -1 {
        FreeInode(n);
        assert inodeMap == s.inodeMap;
        return -1, pick;
      }
      FreshHasRoom(s, path);
      LogCreate(s, w.parent, w.name, n, isFile, parentInode, index, size, block);
      if !noForceCheckpoints { SyncCheckpoint(); }
      return 0, pick;
    }

    /** Note that only the destination directory's imap chunk is logged. */
    method FileLink(src: string, dst: string) returns (rc: int)
      requires Valid() && Allowed(State(), Link(src, dst))
      modifies this
      ensures Valid()
      ensures var s, op := old(State()), Link(src, dst);
        State() == Step(s, op, !noForceCheckpoints) && rc == (if Succeeds(s, op) then 0 else -1)
    {
      hide Inv, Target, InodeAt, NodeOf, CrOk, LfsDisk.UpdateImap, DirPtrsOk, Step, Succeeds, Allowed, Logged, PickOk,
        DrawOk, Full, FreeSlot, NewDirBlock, LookupSlots;
      ghost var s := State();
      CrLength(s);
      ghost var t := TableOf(s);
      AllowedWalks(s, Link(src, dst));
      LinkMeans(s, src, dst, !noForceCheckpoints);
      StepIsValid(s, Link(src, dst), !noForceCheckpoints);
      var v := WalkPath(src);
      TargetIn(t, src);
      if !v.At? || v.inum == -1 { return -1; }
      FoundIsLive(s, v);
      var srcInode := GetInode(v.inum);
      if srcInode.itype != Regular { KindOf(s, v.inum); return -1; }
      KindOf(s, v.inum);
      var w := WalkPath(dst);
      TargetIn(t, dst);
      if w.inum != -1 { return -1; }
      TableLive(s, w.parent);
      DirShape(s, w.parent);
      var parentInode := GetInode(w.parent);
      var index, size, block := AddDirEntry(parentInode, w.name, v.inum);
      if index == -1 { return -1; }
      FreshHasRoom(s, dst);
      FileIsLive(s, src);
      var blockAddress := Log(block);
      var newParent := Inode(parentInode.itype, size, parentInode.refs, parentInode.pointers[index := blockAddress]);
      var parentAddress := Log(InodeBlock(newParent));
      var newSource := srcInode.(refs := srcInode.refs + 1);
      var sourceAddress := Log(InodeBlock(newSource));
      inodeMap := inodeMap[w.parent := parentAddress];
      inodeMap := inodeMap[v.inum := sourceAddress];
      assert disk == s.disk + [block, InodeBlock(newParent), InodeBlock(newSource)];
      UpdateImap([w.parent]);
      assert State() == LinkLogged(s, w.parent, w.name, v.inum);
      if !noForceCheckpoints { SyncCheckpoint(); }
      return 0;
    }

    /** Returns the number of blocks written, cut off at the eighth pointer. */
    method FileWrite(path: string, offset: int, contents: seq<string>) returns (rc: int)
      requires Valid() && Allowed(State(), Write(path, offset, contents))
      modifies this
      ensures Valid()
      ensures var s, op := old(State()), Write(path, offset, contents);
        && State() == Step(s, op, !noForceCheckpoints)
        && rc == (if Succeeds(s, op) then WriteEnd(offset, |contents|) - offset else -1)
    {
      hide Inv, Target, InodeAt, NodeOf, CrOk, LfsDisk.UpdateImap, DirPtrsOk, Step, Succeeds, Allowed, Logged, PickOk,
        DrawOk, LookupSlots;
      ghost var s := State();
      CrLength(s);
      ghost var t := TableOf(s);
      AllowedWalks(s, Write(path, offset, contents));
      WriteMeans(s, path, offset, contents, !noForceCheckpoints);
      StepIsValid(s, Write(path, offset, contents), !noForceCheckpoints);
      var v := WalkPath(path);
      TargetIn(t, path);
      if !v.At? || v.inum == -1 { return -1; }
      FoundIsLive(s, v);
      var inode := GetInode(v.inum);
      KindOf(s, v.inum);
      if inode.itype != Regular { return -1; }
      if offset < 0 || offset >= 8 { return -1; }
      FileIsLive(s, path);
      FileShape(s, v.inum);
      rc := LogWrite(s, v.inum, inode, offset, contents);
      if !noForceCheckpoints { SyncCheckpoint(); }
    }

    /** The data blocks of a write, up to the eighth of the file. */
    method LogData(inode: Inode, offset: int, contents: seq<string>) returns (currentOffset: int, pointers: seq<int>)
      requires |inode.pointers| == 8 && 0 <= offset < 8
      modifies this`disk
      ensures currentOffset == WriteEnd(offset, |contents|) && offset <= currentOffset <= 8
      ensures currentOffset - offset <= |contents|
      ensures disk == old(disk) + DataBlocks(contents, currentOffset - offset)
      ensures pointers == WrittenInode(inode, offset, currentOffset, |old(disk)|).pointers
    {
      currentOffset := offset;
      pointers := inode.pointers;
      ghost var end, before := WriteEnd(offset, |contents|), disk;
      while currentOffset < 8 && currentOffset < offset + |contents|
        invariant offset <= currentOffset <= end && |pointers| == 8
        invariant disk == before + DataBlocks(contents, currentOffset - offset)
        invariant pointers == WrittenInode(inode, offset, currentOffset, |before|).pointers
      {
        var address := Log(DataBlock(contents[currentOffset - offset]));
        pointers := pointers[currentOffset := address];
        currentOffset := currentOffset + 1;
        assert DataBlocks(contents, currentOffset - offset)
          == DataBlocks(contents, currentOffset - 1 - offset) + [DataBlock(contents[currentOffset - 1 - offset])];
      }
    }

    /** The writes of a write: the data blocks, the inode and its imap chunk. */
    method LogWrite(ghost s: FS, n: int, inode: Inode, offset: int, contents: seq<string>) returns (rc: int)
      requires State() == s && WellFormed(s) && LiveFile(s, n) && inode == InodeOf(s, n) && |inode.pointers| == 8
      requires 0 <= offset < 8
      modifies this`disk, this`inodeMap, this`cr
      ensures State() == WriteLogged(s, n, offset, contents) && rc == WriteEnd(offset, |contents|) - offset
    {
      hide InodeAt, NodeOf, CrOk, LfsDisk.UpdateImap, DirPtrsOk, WellFormed, TableOf;
      CrLength(s);
      var currentOffset, pointers := LogData(inode, offset, contents);
      var newInode := Inode(inode.itype, currentOffset, inode.refs, pointers);
      var address := Log(InodeBlock(newInode));
      inodeMap := inodeMap[n := address];
      ghost var blocks := DataBlocks(contents, currentOffset - offset) + [InodeBlock(newInode)];
      assert disk == s.disk + blocks;
      var chunk := MakeImapChunk(ChunkOf(n));
      address := Log(chunk);
      cr := cr[ChunkOf(n) := |disk| - 1];
      OneChunk(FS(s.disk + blocks, inodeMap, s.cr), n);
      assert State() == WriteLogged(s, n, offset, contents);
      return currentOffset - offset;
    }

    /** A directory's block without the name, and which of its blocks it is. */
    method BlockWithout(ghost s: FS, p: int, name: string, parentInode: Inode) returns (index: int, block: Block)
      requires disk == s.disk && WellFormed(s) && Live(s.inodeMap, p) && p in TableOf(s) && TableOf(s)[p].Dir?
      requires parentInode == InodeOf(s, p) && FindName(TableOf(s)[p].slots, name) < |TableOf(s)[p].slots|
      ensures var slots := TableOf(s)[p].slots;
        var x := FindName(slots, name);
        index == x / 8 && 8 * index + 8 <= |slots|
        && block == DirBlock(slots[8 * (x / 8)..8 * (x / 8) + 8][x % 8 := FREE])
    {
      hide InodeAt, NodeOf, CrOk, DirPtrsOk, FindName;
      DirShape(s, p);
      var k, slot := FindDirSlot(name, parentInode);
      SlotsOfBlock(disk, parentInode, k);
      index := k;
      block := DirBlock(disk[parentInode.pointers[k]].slots[slot := FREE]);
    }

    /** The writes of a delete: the directory block without the name, the directory's
        inode, the file's inode unless this was its last link, and the imap chunks. */
    method LogDelete(ghost s: FS, p: int, name: string, n: int, parentInode: Inode, inode: Inode)
      requires State() == s && WellFormed(s) && Live(s.inodeMap, p) && p in TableOf(s) && TableOf(s)[p].Dir?
      requires LiveFile(s, n) && parentInode == InodeOf(s, p) && inode == InodeOf(s, n)
      requires FindName(TableOf(s)[p].slots, name) < |TableOf(s)[p].slots|
      modifies this`disk, this`inodeMap, this`cr
      ensures State() == DeleteLogged(s, p, name, n)
    {
      hide InodeAt, NodeOf, CrOk, LfsDisk.UpdateImap, DirPtrsOk, FindName, DeleteMap, TableOf, WellFormed;
      CrLength(s);
      PointersOf(s, p);
      if inode.refs == 1 { FreeInode(n); }
      var index, block := BlockWithout(s, p, name, parentInode);
      var blockAddress := Log(block);
      var newParent := parentInode.(pointers := parentInode.pointers[index := blockAddress]);
      assert newParent == DirInode(parentInode, index, blockAddress, 0);
      var parentAddress := Log(InodeBlock(newParent));
      inodeMap := inodeMap[p := parentAddress];
      if inode.refs > 1 {
        var newInode := inode.(refs := inode.refs - 1);
        var address := Log(InodeBlock(newInode));
        inodeMap := inodeMap[n := address];
      }
      DeleteMapIs(s.inodeMap, p, n, inode.refs, parentAddress);
      assert inodeMap == DeleteMap(s.inodeMap, p, n, inode.refs, parentAddress);
      assert disk == s.disk + ([block, InodeBlock(newParent)]
        + (if inode.refs > 1 then [InodeBlock(inode.(refs := inode.refs - 1))] else []));
      UpdateImap([n, p]);
      assert State() == DeleteLogged(s, p, name, n);
    }

    method FileDelete(path: string) returns (rc: int)
      requires Valid() && Allowed(State(), Delete(path))
      modifies this
      ensures Valid()
      ensures var s, op := old(State()), Delete(path);
        State() == Step(s, op, !noForceCheckpoints) && rc == (if Succeeds(s, op) then 0 else -1)
    {
      hide Inv, Target, InodeAt, NodeOf, CrOk, LfsDisk.UpdateImap, DirPtrsOk, Step, Succeeds, Allowed, Logged, PickOk,
        DrawOk, FindName, DeleteMap, LookupSlots;
      ghost var s := State();
      CrLength(s);
      ghost var t := TableOf(s);
      AllowedWalks(s, Delete(path));
      DeleteMeans(s, path, !noForceCheckpoints);
      StepIsValid(s, Delete(path), !noForceCheckpoints);
      var v := WalkPath(path);
      TargetIn(t, path);
      if !v.At? || v.inum == -1 { return -1; }
      FoundIsLive(s, v);
      var inode := GetInode(v.inum);
      KindOf(s, v.inum);
      if inode.itype != Regular { return -1; }
      TableLive(s, v.parent);
      var parentInode := GetInode(v.parent);
      DirShape(s, v.parent);
      DeletedIsFound(s, path);
      FileIsLive(s, path);
      LogDelete(s, v.parent, v.name, v.inum, parentInode, inode);
      if !noForceCheckpoints { SyncCheckpoint(); }
      return 0;
    }

    method Sync() returns (rc: int)
      requires Valid()
      modifies this
      ensures Valid() && |old(disk)| > 0 && State() == CrSync(old(State())) && rc == 0
    {
      hide Inv, WellFormed, TableOf, CrOk, Allowed, Succeeds, Step;
      CrLength(State());
      SyncMeans(State(), !noForceCheckpoints);
      SyncCheckpoint();
      return 0;
    }

    /** Mark everything one inode points to, unset pointers included. */
    method MarkPointers(live: map<int, bool>, inum: int) returns (marked: map<int, bool>)
      requires MapOk(disk, inodeMap) && Live(inodeMap, inum)
      ensures |InodeOf(State(), inum).pointers| == 8
      ensures forall a :: a in marked <==> a in live || a in InodeOf(State(), inum).pointers
      ensures forall a :: a in marked ==>
        marked[a] == if a in InodeOf(State(), inum).pointers then true else live[a]
      ensures forall a :: a in InodeOf(State(), inum).pointers ==> -1 <= a < |disk|
    {
      hide InodeAt;
      InodeInRange(State(), inum);
      var pointers := disk[inodeMap[inum]].inode.pointers;
      marked := live;
      for k := 0 to 8
        invariant forall a :: a in marked <==> a in live || a in pointers[..k]
        invariant forall a :: a in marked ==> marked[a] == if a in pointers[..k] then true else live[a]
      {
        marked := marked[pointers[k] := true];
      }
      assert pointers[..8] == pointers;
      forall a | a in pointers ensures -1 <= a < |disk| {
        var k :| 0 <= k < 8 && pointers[k] == a;
        PtrInRange(State(), inum, k);
      }
    }

    /** The scan for live blocks. It marks exactly the blocks in use, and, because it
        also follows unset pointers, the address -1. */
    method DetermineLiveness() returns (live: map<int, bool>)
      requires WellFormed(State())
      ensures forall a :: 0 <= a < |disk| ==> a in live && (live[a] <==> InUse(State(), a))
      ensures forall a :: a in live ==> -1 <= a < |disk|
      ensures -1 in live <==> exists q :: IsPtr(State(), q) && PtrAt(State(), q) == -1
      ensures -1 in live ==> live[-1]
    {
      hide CrOk, NodeOf, InodeAt;
      CrLength(State());
      live := map[];
      for i := 0 to |disk|
        invariant forall a :: a in live <==> 0 <= a < i
        invariant forall a :: a in live ==> !live[a]
      {
        live := live[i := false];
      }
      live := live[0 := true];
      for c := 0 to 16
        invariant forall a :: a in live <==> 0 <= a < |disk|
        invariant forall a :: a in live ==> (live[a] <==> a == 0 || (a != -1 && a in cr[..c]))
      {
        if cr[c] != -1 {
          ChunkInRange(State(), c);
          live := live[cr[c] := true];
        }
      }
      assert cr[..16] == cr;
      var inodes: seq<int> := [];
      ghost var before := live;
      for i := 0 to 256
        invariant forall a :: a in live <==> 0 <= a < |disk|
        invariant forall k :: 0 <= k < |inodes| ==> Live(inodeMap, inodes[k])
        invariant forall j :: 0 <= j < i && Live(inodeMap, j) ==> j in inodes
        invariant forall a :: a in live ==>
          (live[a] <==> before[a] || exists j :: 0 <= j < i && Live(inodeMap, j) && a == inodeMap[j])
      {
        if inodeMap[i] != -1 {
          InodeInRange(State(), i);
          live := live[inodeMap[i] := true];
          inodes := inodes + [i];
        }
      }
      before := live;
      for n := 0 to |inodes|
        invariant forall a :: a in live ==> -1 <= a < |disk|
        invariant -1 in live <==> PointedBy(State(), inodes[..n], -1)
        invariant -1 in live ==> live[-1]
        invariant forall a :: 0 <= a < |disk| ==>
          a in live && (live[a] <==> before[a] || PointedBy(State(), inodes[..n], a))
      {
        live := MarkPointers(live, inodes[n]);
        PointedByOneMore(State(), inodes, n);
      }
      assert inodes[..|inodes|] == inodes;
      PointedByAll(State(), inodes, -1);
      forall a | 0 <= a < |disk| ensures live[a] <==> InUse(State(), a) {
        PointedByAll(State(), inodes, a);
      }
    }
  }

  ghost predicate PointedBy(s: FS, inodes: seq<int>, a: int) {
    exists q: Pos :: q.d in inodes && IsPtr(s, q) && PtrAt(s, q) == a
  }

  lemma PointedByOneMore(s: FS, inodes: seq<int>, n: nat)
    requires n < |inodes| && MapOk(s.disk, s.inodeMap) && Live(s.inodeMap, inodes[n])
    ensures |InodeOf(s, inodes[n]).pointers| == 8
    ensures forall a :: PointedBy(s, inodes[..n + 1], a) <==>
      PointedBy(s, inodes[..n], a) || a in InodeOf(s, inodes[n]).pointers
  {
    var i := inodes[n];
    var ptrs := InodeOf(s, i).pointers;
    assert InodeAt(s.disk, s.inodeMap[i]);
    forall a ensures PointedBy(s, inodes[..n + 1], a) <==> PointedBy(s, inodes[..n], a) || a in ptrs {
      if a in ptrs {
        var k :| 0 <= k < |ptrs| && ptrs[k] == a;
        assert Pos(i, k).d in inodes[..n + 1] && IsPtr(s, Pos(i, k)) && PtrAt(s, Pos(i, k)) == a;
      }
      if PointedBy(s, inodes[..n], a) {
        var q: Pos :| q.d in inodes[..n] && IsPtr(s, q) && PtrAt(s, q) == a;
        assert q.d in inodes[..n + 1];
      }
      if PointedBy(s, inodes[..n + 1], a) {
        var q: Pos :| q.d in inodes[..n + 1] && IsPtr(s, q) && PtrAt(s, q) == a;
        assert q.d in inodes[..n] || q.d == i;
      }
    }
  }

  lemma PointedByAll(s: FS, inodes: seq<int>, a: int)
    requires forall j :: Live(s.inodeMap, j) && j < 256 ==> j in inodes
    ensures PointedBy(s, inodes, a) <==> exists q :: IsPtr(s, q) && PtrAt(s, q) == a
  {
  }

  lemma CrLength(s: FS)
    requires WellFormed(s)
    ensures |s.cr| == 16 && |s.inodeMap| == 256 && |s.disk| > 0
  {
  }

  lemma PointersOf(s: FS, p: int)
    requires WellFormed(s) && Live(s.inodeMap, p) && p in TableOf(s) && TableOf(s)[p].Dir?
    ensures InodeOf(s, p).itype == Directory && |InodeOf(s, p).pointers| == 8
    ensures |TableOf(s)[p].slots| == 8 * InodeOf(s, p).size <= 64
  {
    hide InodeAt, NodeOf, CrOk, DirPtrsOk;
    DirShape(s, p);
  }

  lemma ChunkInRange(s: FS, c: int)
    requires CrOk(s.disk, s.cr) && 0 <= c < 16 && s.cr[c] != -1
    ensures 0 <= s.cr[c] < |s.disk|
  {
    assert ChunkAt(s.disk, s.cr[c]);
  }

  lemma InodeInRange(s: FS, i: int)
    requires MapOk(s.disk, s.inodeMap) && Live(s.inodeMap, i)
    ensures 0 <= s.inodeMap[i] < |s.disk| && s.disk[s.inodeMap[i]].InodeBlock?
    ensures |s.disk[s.inodeMap[i]].inode.pointers| == 8
  {
    assert InodeAt(s.disk, s.inodeMap[i]);
  }

  lemma PtrInRange(s: FS, i: int, k: int)
    requires MapOk(s.disk, s.inodeMap) && Live(s.inodeMap, i) && 0 <= k < 8
    ensures |InodeOf(s, i).pointers| == 8 && -1 <= InodeOf(s, i).pointers[k] < |s.disk|
  {
    var ino := InodeOf(s, i);
    assert InodeAt(s.disk, s.inodeMap[i]);
    if ino.itype == Directory && k < ino.size { assert IsDirBlock(s.disk, ino.pointers[k]); }
  }

  // ----- each operation's step, spelled out

  /** What a successful operation's step comes to. */
  lemma InitialIsValid()
    ensures WellFormed(InitialFS()) && Inv(TableOf(InitialFS()))
  {
    hide Inv, InitialFS;
    InitialOk();
    RunIsWellFormed(InitialRun());
  }

  lemma StepIsValid(s: FS, op: Op, force: bool)
    requires WellFormed(s) && Inv(TableOf(s)) && Allowed(s, op)
    ensures WellFormed(Step(s, op, force)) && Inv(TableOf(Step(s, op, force)))
  {
    hide Inv, Allowed, Step, WellFormed, TableOf;
    StepRefines(s, op, force);
  }

  lemma SyncMeans(s: FS, force: bool)
    requires WellFormed(s) && Inv(TableOf(s))
    ensures Allowed(s, Op.Sync) && Step(s, Op.Sync, force) == CrSync(s)
    ensures WellFormed(Step(s, Op.Sync, force)) && Inv(TableOf(Step(s, Op.Sync, force)))
  {
    hide Inv, WellFormed, TableOf;
    StepIsValid(s, Op.Sync, force);
  }

  ghost predicate SyncedFrom(r: FS, logged: FS, force: bool) {
    |logged.disk| > 0 && r == if force then CrSync(logged) else logged
  }

  lemma AllowedWalks(s: FS, op: Op)
    requires WellFormed(s) && Allowed(s, op)
    ensures op.Link? ==> !Target(TableOf(s), op.src).Crash?
    ensures op.Link? && FileTarget(TableOf(s), op.src) ==>
      Target(TableOf(s), op.dst).At? && Target(TableOf(s), op.dst).name != "-"
    ensures op.Write? || op.Delete? ==> !Target(TableOf(s), op.path).Crash?
  {
    hide Target;
  }

  lemma CreateMeans(s: FS, path: string, isFile: bool, pick: int, force: bool, sequential: bool, choice: int)
    requires WellFormed(s) && PickedBy(s.inodeMap, sequential, choice, pick)
    requires !Target(TableOf(s), path).Crash?
    requires Target(TableOf(s), path).At? ==> Target(TableOf(s), path).name != "-"
    ensures var op, t := Create(path, isFile, pick), TableOf(s); var w := Target(t, path);
      && Allowed(s, op)
      && (pick == -1 || (0 <= pick < 256 && s.inodeMap[pick] == -1))
      && (Succeeds(s, op) <==> FreshTarget(t, path) && pick != -1)
      && (!Succeeds(s, op) ==> Step(s, op, force) == s)
      && (FreshTarget(t, path) && pick != -1 ==>
            DirWithRoom(s, w.parent)
              && SyncedFrom(Step(s, op, force), CreateLogged(s, w.parent, w.name, pick, isFile), force))
  {
    hide Target, InodeAt, NodeOf, CrOk, Full, CreateLogged;
    var op := Create(path, isFile, pick);
    if Succeeds(s, op) { FreshHasRoom(s, path); LoggedRefines(s, op); }
  }

  lemma LinkMeans(s: FS, src: string, dst: string, force: bool)
    requires WellFormed(s) && Allowed(s, Link(src, dst))
    ensures var op, t := Link(src, dst), TableOf(s); var v, w := Target(t, src), Target(t, dst);
      && (Succeeds(s, op) <==> FileTarget(t, src) && FreshTarget(t, dst))
      && (!Succeeds(s, op) ==> Step(s, op, force) == s)
      && (Succeeds(s, op) ==>
            && DirWithRoom(s, w.parent) && LiveFile(s, v.inum)
            && SyncedFrom(Step(s, op, force), LinkLogged(s, w.parent, w.name, v.inum), force))
  {
    hide Target, InodeAt, NodeOf, CrOk, Full, LinkLogged;
    var op := Link(src, dst);
    if Succeeds(s, op) { FreshHasRoom(s, dst); FileIsLive(s, src); LoggedRefines(s, op); }
  }

  lemma WriteMeans(s: FS, path: string, offset: int, data: seq<string>, force: bool)
    requires WellFormed(s) && Allowed(s, Write(path, offset, data))
    ensures var op, t := Write(path, offset, data), TableOf(s); var v := Target(t, path);
      && (Succeeds(s, op) <==> FileTarget(t, path) && 0 <= offset < 8)
      && (!Succeeds(s, op) ==> Step(s, op, force) == s)
      && (Succeeds(s, op) ==>
            LiveFile(s, v.inum) && SyncedFrom(Step(s, op, force), WriteLogged(s, v.inum, offset, data), force))
  {
    hide Target, InodeAt, NodeOf, CrOk, WriteLogged;
    var op := Write(path, offset, data);
    if Succeeds(s, op) { FileIsLive(s, path); LoggedRefines(s, op); }
  }

  lemma DeleteMeans(s: FS, path: string, force: bool)
    requires WellFormed(s) && Allowed(s, Delete(path))
    ensures var op, t := Delete(path), TableOf(s); var v := Target(t, path);
      && (Succeeds(s, op) <==> FileTarget(t, path))
      && (!Succeeds(s, op) ==> Step(s, op, force) == s)
      && (Succeeds(s, op) ==>
            && LiveFile(s, v.inum) && v.parent in t && t[v.parent].Dir? && Live(s.inodeMap, v.parent)
            && FindName(t[v.parent].slots, v.name) < |t[v.parent].slots|
            && SyncedFrom(Step(s, op, force), DeleteLogged(s, v.parent, v.name, v.inum), force))
  {
    hide Target, InodeAt, NodeOf, CrOk, DeleteLogged, FindName;
    var op := Delete(path);
    if Succeeds(s, op) { FileIsLive(s, path); DeletedIsFound(s, path); LoggedRefines(s, op); }
  }

  lemma FoundIsLive(s: FS, w: Walked)
    requires WellFormed(s) && Inv(TableOf(s)) && w.At? && w.parent in TableOf(s) && TableOf(s)[w.parent].Dir?
    requires w.inum == Lookup(TableOf(s), w.parent, w.name) && w.inum != -1
    ensures w.inum in TableOf(s) && Live(s.inodeMap, w.inum)
  {
    hide InodeAt, NodeOf, CrOk, CountsOk, IsTree;
    DirIsOk(TableOf(s), w.parent);
  }

  lemma KindOf(s: FS, i: int)
    requires WellFormed(s) && Live(s.inodeMap, i) && i in TableOf(s)
    ensures TableOf(s)[i].File? <==> InodeOf(s, i).itype == Regular
  {
  }

  lemma OneChunk(s: FS, i: int)
    requires |s.inodeMap| == 256 && |s.cr| == 16 && 0 <= i < 256
    ensures LfsDisk.UpdateImap(s, [i], {}) == LogChunk(s, ChunkOf(i))
  {
    assert [i][1..] == [];
  }

  ghost function SomePick(inodeMap: seq<int>, sequential: bool, choice: int): (pick: int)
    requires DrawOk(inodeMap, sequential, choice)
    ensures PickedBy(inodeMap, sequential, choice, pick)
  {
    if forall i :: 0 <= i < |inodeMap| ==> inodeMap[i] != -1 then -1
    else if !sequential then choice
    else FirstFree(inodeMap, 0)
  }

  function FirstFree(inodeMap: seq<int>, from: nat): (pick: int)
    requires from <= |inodeMap| && exists i :: from <= i < |inodeMap| && inodeMap[i] == -1
    ensures from <= pick < |inodeMap| && inodeMap[pick] == -1 && forall i :: from <= i < pick ==> inodeMap[i] != -1
    decreases |inodeMap| - from
  {
    if inodeMap[from] == -1 then from else FirstFree(inodeMap, from + 1)
  }

  lemma PointerUse(disk: seq<Block>, inode: Inode, k: int)
    requires DirPtrsOk(disk, inode.pointers, inode.size) && 0 <= k < 8
    ensures inode.pointers[k] != -1 <==> k < inode.size
    ensures k < inode.size ==> IsDirBlock(disk, inode.pointers[k])
  {
  }

  lemma SlotsOfBlock(disk: seq<Block>, inode: Inode, k: int)
    requires DirPtrsOk(disk, inode.pointers, inode.size) && 0 <= k < inode.size
    ensures IsDirBlock(disk, inode.pointers[k])
    ensures disk[inode.pointers[k]].slots == DirSlots(disk, inode.pointers, inode.size)[8 * k..8 * k + 8]
  {
    var s := DirSlots(disk, inode.pointers, inode.size);
    assert IsDirBlock(disk, inode.pointers[k]);
    forall j | 0 <= j < 8 ensures disk[inode.pointers[k]].slots[j] == s[8 * k..8 * k + 8][j] {
      DirSlotRead(disk, inode.pointers, inode.size, 8 * k + j);
      assert (8 * k + j) / 8 == k && (8 * k + j) % 8 == j;
    }
  }
}
