/**
 What a crash leaves behind. The imap chunks that the checkpoint region points at
 agree with the in-memory inode map, except for files whose link count a link
 changed without logging the file's own chunk; `stale` is that set. Because
 nothing but address 0 is ever overwritten, resolving everything from address 0
 gives the file system of the last sync.
 */
module LfsRecovery {
  import opened LfsTable
  import opened LfsTableInv
  import opened LfsDisk
  import opened LfsRefine
  import opened LfsRun

  /** The inode address that checkpoint entries `cr` lead to; -1 for none. */
  ghost function ChunkAddr(disk: seq<Block>, cr: seq<int>, i: int): int
    requires CrOk(disk, cr) && 0 <= i < 256
  {
    if cr[ChunkOf(i)] == -1 then -1
    else assert ChunkAt(disk, cr[ChunkOf(i)]); disk[cr[ChunkOf(i)]].addrs[i % 16]
  }

  /** The chunk's inode is that of memory but for a smaller link count. */
  ghost predicate Behind(disk: seq<Block>, was: int, now: int) {
    && InodeAt(disk, was) && InodeAt(disk, now)
    && disk[was].inode.refs < disk[now].inode.refs
    && disk[now].inode == disk[was].inode.(refs := disk[now].inode.refs)
    && disk[now].inode.itype == Regular
  }

  ghost predicate AgreeAt(s: FS, stale: set<int>, i: int)
    requires WellFormed(s) && 0 <= i < 256
  {
    var a := ChunkAddr(s.disk, s.cr, i);
    if i in stale then a != -1 && s.inodeMap[i] != -1 && Behind(s.disk, a, s.inodeMap[i])
    else a == s.inodeMap[i]
  }

  ghost predicate Agree(s: FS, stale: set<int>) {
    && WellFormed(s)
    && (forall i :: i in stale ==> 0 <= i < 256)
    && forall i :: 0 <= i < 256 ==> AgreeAt(s, stale, i)
  }

  /** The chunks an operation logs. */
  ghost function LoggedFor(s: FS, op: Op): seq<int>
    requires WellFormed(s) && Succeeds(s, op)
  {
    var t := TableOf(s);
    match op
    case Create(path, _, pick) => [Target(t, path).parent, pick]
    case Link(_, dst) => [Target(t, dst).parent]
    case Write(path, _, _) => [Target(t, path).inum]
    case Delete(path) => [Target(t, path).inum, Target(t, path).parent]
    case Sync => []
  }

  /** The file whose link count an operation changes without logging it: the
      source of a link. */
  ghost predicate LinksTo(s: FS, op: Op, i: int)
    requires WellFormed(s) && Succeeds(s, op)
  {
    op.Link? && i == Target(TableOf(s), op.src).inum
  }

  /** The stale files after an operation took effect: those that were stale, or
      were just linked to, and whose chunk was not among those logged. */
  ghost function StaleAfter(s: FS, op: Op, stale: set<int>): set<int>
    requires WellFormed(s) && Succeeds(s, op)
  {
    set i | 0 <= i < 256 && (i in stale || LinksTo(s, op, i)) && !TouchesChunk(LoggedFor(s, op), ChunkOf(i))
  }

  // ----- one operation

  lemma ChunkAddrAfter(s: FS, r1: FS, inums: seq<int>, i: int)
    requires |s.disk| > 0 && CrOk(s.disk, s.cr) && r1.cr == s.cr && Extends(s.disk, r1.disk)
    requires |r1.inodeMap| == 256 && 0 <= i < 256 && forall j :: 0 <= j < |inums| ==> 0 <= inums[j] < 256
    ensures var r := UpdateImap(r1, inums, {});
      && CrOk(r.disk, r.cr)
      && ChunkAddr(r.disk, r.cr, i)
        == if TouchesChunk(inums, ChunkOf(i)) then r1.inodeMap[i] else ChunkAddr(s.disk, s.cr, i)
  {
    hide UpdateImap;
    ChunkFrame(s.disk, r1.disk, s.cr);
    UpdateImapEffect(r1, inums, {});
    var r := UpdateImap(r1, inums, {});
    var c := ChunkOf(i);
    assert 0 <= c < 16;
    if TouchesChunk(inums, c) {
      assert r1.inodeMap[16 * c..16 * c + 16][i % 16] == r1.inodeMap[i];
    } else if s.cr[c] != -1 {
      assert ChunkAt(s.disk, s.cr[c]);
    }
  }

  /** The state just before the imap chunks of an operation are logged. */
  lemma LoggedShape(s: FS, op: Op) returns (r1: FS)
    requires WellFormed(s) && Succeeds(s, op) && !op.Sync?
    ensures |r1.inodeMap| == 256 && s.disk <= r1.disk && r1.cr == s.cr
    ensures var inums := LoggedFor(s, op);
      && (forall j :: 0 <= j < |inums| ==> 0 <= inums[j] < 256)
      && Logged(s, op) == UpdateImap(r1, inums, {})
      && forall i :: 0 <= i < 256 && r1.inodeMap[i] != s.inodeMap[i] ==> i in inums || LinksTo(s, op, i)
    ensures op.Link? ==> var n := Target(TableOf(s), op.src).inum;
      && LiveFile(s, n) && !(r1.inodeMap[n] < 0)
      && r1.inodeMap[n] < |r1.disk|
        && r1.disk[r1.inodeMap[n]] == InodeBlock(InodeOf(s, n).(refs := InodeOf(s, n).refs + 1))
  {
    hide Full, Target, InodeAt, NodeOf, CrOk, FindName, FreeSlot, NewDirBlock, UpdateImap, DirPtrsOk;
    var t, a := TableOf(s), |s.disk|;
    match op
    case Create(path, isFile, pick) =>
      FreshHasRoom(s, path);
      var p, name := Target(t, path).parent, Target(t, path).name;
      r1 := CreateAppended(s, p, name, pick, isFile);
    case Link(src, dst) =>
      FreshHasRoom(s, dst);
      FileIsLive(s, src);
      var p, name, n := Target(t, dst).parent, Target(t, dst).name, Target(t, src).inum;
      r1 := LinkAppended(s, p, name, n);
    case Write(path, offset, data) =>
      FileIsLive(s, path);
      r1 := WriteAppended(s, Target(t, path).inum, offset, data);
    case Delete(path) =>
      FileIsLive(s, path);
      DeletedIsFound(s, path);
      r1 := DeleteAppended(s, Target(t, path).parent, Target(t, path).name, Target(t, path).inum);
  }

  /** Inode `i` is allocated and its inode block holds these pointers. */
  ghost predicate InodeWith(r: FS, i: int, ptrs: seq<int>) {
    && 0 <= i < |r.inodeMap| && 0 <= r.inodeMap[i] < |r.disk|
    && r.disk[r.inodeMap[i]].InodeBlock? && r.disk[r.inodeMap[i]].inode.pointers == ptrs
  }

  lemma CreateAppended(s: FS, p: int, name: string, n: int, isFile: bool) returns (r1: FS)
    requires DirWithRoom(s, p) && 0 <= n < 256
    ensures |r1.inodeMap| == 256 && s.disk <= r1.disk && r1.cr == s.cr
    ensures CreateLogged(s, p, name, n, isFile) == UpdateImap(r1, [p, n], {})
    ensures forall i :: 0 <= i < 256 && i != p && i != n ==> r1.inodeMap[i] == s.inodeMap[i]
    ensures p != n ==> InodeWith(r1, p, InodeOf(s, p).pointers[FreeSlot(TableOf(s)[p].slots) / 8 := |s.disk|])
    ensures InodeWith(r1, n, if isFile then NoPtrs() else NoPtrs()[0 := |s.disk| + 1])
  {
    hide Full, UpdateImap, NewDirBlock, FreeSlot;
    DirShape(s, p);
    AddSlotByBlock(TableOf(s)[p].slots, Entry(name, n));
    var ino, slots, a := InodeOf(s, p), TableOf(s)[p].slots, |s.disk|;
    var k := FreeSlot(slots) / 8;
    var blocks := [NewDirBlock(slots, Entry(name, n))]
      + (if isFile then [] else [DirBlock(NewDirSlots(n, p))])
      + [InodeBlock(DirInode(ino, k, a, if isFile then 0 else 1)), InodeBlock(NewInode(isFile, a + 1))];
    var pa := a + |blocks| - 2;
    r1 := FS(s.disk + blocks, s.inodeMap[p := pa][n := pa + 1], s.cr);
  }

  lemma LinkAppended(s: FS, p: int, name: string, n: int) returns (r1: FS)
    requires DirWithRoom(s, p) && LiveFile(s, n)
    ensures |r1.inodeMap| == 256 && s.disk <= r1.disk && r1.cr == s.cr
    ensures LinkLogged(s, p, name, n) == UpdateImap(r1, [p], {})
    ensures forall i :: 0 <= i < 256 && i != p && i != n ==> r1.inodeMap[i] == s.inodeMap[i]
    ensures InodeWith(r1, p, InodeOf(s, p).pointers[FreeSlot(TableOf(s)[p].slots) / 8 := |s.disk|])
    ensures 0 <= r1.inodeMap[n] < |r1.disk|
    ensures r1.disk[r1.inodeMap[n]] == InodeBlock(InodeOf(s, n).(refs := InodeOf(s, n).refs + 1))
  {
    hide Full, UpdateImap, NewDirBlock, FreeSlot;
    DirShape(s, p);
    AddSlotByBlock(TableOf(s)[p].slots, Entry(name, n));
    var ino, src, slots, a := InodeOf(s, p), InodeOf(s, n), TableOf(s)[p].slots, |s.disk|;
    var k := FreeSlot(slots) / 8;
    var blocks := [NewDirBlock(slots, Entry(name, n)), InodeBlock(DirInode(ino, k, a, 0)),
                   InodeBlock(src.(refs := src.refs + 1))];
    r1 := FS(s.disk + blocks, s.inodeMap[p := a + 1][n := a + 2], s.cr);
  }

  lemma DeleteAppended(s: FS, p: int, name: string, n: int) returns (r1: FS)
    requires WellFormed(s) && Live(s.inodeMap, p) && p in TableOf(s) && TableOf(s)[p].Dir? && LiveFile(s, n)
    requires FindName(TableOf(s)[p].slots, name) < |TableOf(s)[p].slots|
    ensures |r1.inodeMap| == 256 && s.disk <= r1.disk && r1.cr == s.cr
    ensures DeleteLogged(s, p, name, n) == UpdateImap(r1, [n, p], {})
    ensures forall i :: 0 <= i < 256 && i != p && i != n ==> r1.inodeMap[i] == s.inodeMap[i]
    ensures InodeWith(r1, p, InodeOf(s, p).pointers[FindName(TableOf(s)[p].slots, name) / 8 := |s.disk|])
    ensures r1.inodeMap[n] == -1 || r1.inodeMap[n] == s.inodeMap[n] || InodeWith(r1, n, InodeOf(s, n).pointers)
  {
    hide UpdateImap, FindName;
    DirShape(s, p);
    ClearedByBlock(TableOf(s)[p].slots, FindName(TableOf(s)[p].slots, name), InodeOf(s, p).size);
    var ino, src, slots, a := InodeOf(s, p), InodeOf(s, n), TableOf(s)[p].slots, |s.disk|;
    var x := FindName(slots, name);
    var blocks := [DirBlock(slots[8 * (x / 8)..8 * (x / 8) + 8][x % 8 := FREE]),
                   InodeBlock(DirInode(ino, x / 8, a, 0))]
      + (if src.refs > 1 then [InodeBlock(src.(refs := src.refs - 1))] else []);
    r1 := FS(s.disk + blocks, DeleteMap(s.inodeMap, p, n, src.refs, a + 1), s.cr);
  }

  lemma WriteAppended(s: FS, n: int, offset: int, data: seq<string>) returns (r1: FS)
    requires LiveFile(s, n) && 0 <= offset < 8
    ensures |r1.inodeMap| == 256 && s.disk <= r1.disk && r1.cr == s.cr
    ensures WriteLogged(s, n, offset, data) == UpdateImap(r1, [n], {})
    ensures forall i :: 0 <= i < 256 && i != n ==> r1.inodeMap[i] == s.inodeMap[i]
    ensures |InodeOf(s, n).pointers| == 8
    ensures InodeWith(r1, n, WrittenInode(InodeOf(s, n), offset, WriteEnd(offset, |data|), |s.disk|).pointers)
  {
    hide UpdateImap;
    FileShape(s, n);
    var end, a := WriteEnd(offset, |data|), |s.disk|;
    var blocks := DataBlocks(data, end - offset) + [InodeBlock(WrittenInode(InodeOf(s, n), offset, end, a))];
    r1 := FS(s.disk + blocks, s.inodeMap[n := a + end - offset], s.cr);
  }

  lemma BehindFrame(disk: seq<Block>, disk': seq<Block>, was: int, now: int)
    requires Behind(disk, was, now) && Extends(disk, disk')
    ensures Behind(disk', was, now)
  {
    hide NodeOf;
    NodeFrame(disk, disk', was);
    NodeFrame(disk, disk', now);
  }

  /** Checkpoint entries and inode map agree after an operation's writes as before,
      with the set of stale files moved on. */
  lemma AgreeLogged(s: FS, stale: set<int>, op: Op)
    requires Agree(s, stale) && Allowed(s, op) && Succeeds(s, op) && !op.Sync?
    ensures Agree(Logged(s, op), StaleAfter(s, op, stale))
  {
    hide Full, Target, InodeAt, NodeOf, CrOk, UpdateImap, Logged, Allowed, Succeeds, LoggedFor, Behind, TouchesChunk,
      ChunkAddr;
    var inums := LoggedFor(s, op);
    LoggedRefines(s, op);
    var r := Logged(s, op);
    var r1 := LoggedShape(s, op);
    ChunkFrame(s.disk, r1.disk, s.cr);
    UpdateImapKeeps(r1, inums);
    forall i | 0 <= i < 256 ensures AgreeAt(r, StaleAfter(s, op, stale), i) {
      ChunkAddrAfter(s, r1, inums, i);
      assert AgreeAt(s, stale, i);
      if !TouchesChunk(inums, ChunkOf(i)) {
        NotListed(inums, i);
        if i in stale { BehindFrame(s.disk, r.disk, ChunkAddr(s.disk, s.cr, i), s.inodeMap[i]); }
        if LinksTo(s, op, i) { LinkedIsBehind(s, r, ChunkAddr(s.disk, s.cr, i), i); }
      }
    }
  }

  lemma UpdateImapKeeps(s: FS, inums: seq<int>)
    requires |s.disk| > 0 && |s.inodeMap| == 256 && CrOk(s.disk, s.cr)
    requires forall j :: 0 <= j < |inums| ==> 0 <= inums[j] < 256
    ensures UpdateImap(s, inums, {}).inodeMap == s.inodeMap && s.disk <= UpdateImap(s, inums, {}).disk
  {
    UpdateImapEffect(s, inums, {});
  }

  lemma NotListed(inums: seq<int>, i: int)
    requires !TouchesChunk(inums, ChunkOf(i))
    ensures i !in inums
  {
  }

  lemma LinkedIsBehind(s: FS, r: FS, a: int, n: int)
    requires WellFormed(s) && WellFormed(r) && Extends(s.disk, r.disk) && LiveFile(s, n)
    requires a == s.inodeMap[n] || Behind(s.disk, a, s.inodeMap[n])
    requires 0 <= r.inodeMap[n] < |r.disk|
    requires r.disk[r.inodeMap[n]] == InodeBlock(InodeOf(s, n).(refs := InodeOf(s, n).refs + 1))
    ensures a != -1 && r.inodeMap[n] != -1 && Behind(r.disk, a, r.inodeMap[n])
  {
    hide NodeOf, FilePtrsOk, DirPtrsOk;
    FileShape(s, n);
    NodeFrame(s.disk, r.disk, a);
  }
}
