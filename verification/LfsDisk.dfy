/**
 The log-structured disk: typed blocks, inodes with eight pointers, imap chunks
 of sixteen addresses and the checkpoint region at address 0. The operations are
 given here as functions from one state to the next: the blocks they append,
 in order, and the inode map and checkpoint entries they change.
 */
module LfsDisk {
  import opened LfsTable

  datatype InodeType = Directory | Regular

  datatype Inode = Inode(itype: InodeType, size: int, refs: int, pointers: seq<int>)

  datatype Block =
    | Checkpoint(addrs: seq<int>)
    | DirBlock(slots: seq<Entry>)
    | DataBlock(contents: string)
    | InodeBlock(inode: Inode)
    | ImapChunk(addrs: seq<int>)

  /** All state the simulator keeps: the disk, the in-memory inode map and the
      in-memory checkpoint region. */
  datatype FS = FS(disk: seq<Block>, inodeMap: seq<int>, cr: seq<int>)

  function NoPtrs(): seq<int> {
    [-1, -1, -1, -1, -1, -1, -1, -1]
  }

  // ----- resolving addresses

  ghost predicate IsDirBlock(disk: seq<Block>, a: int) {
    0 < a < |disk| && disk[a].DirBlock? && |disk[a].slots| == 8
  }

  ghost predicate IsDataBlock(disk: seq<Block>, a: int) {
    0 < a < |disk| && disk[a].DataBlock?
  }

  ghost predicate DirPtrsOk(disk: seq<Block>, ptrs: seq<int>, size: int) {
    && |ptrs| == 8 && 1 <= size <= 8
    && (forall k :: 0 <= k < size ==> IsDirBlock(disk, ptrs[k]))
    && (forall k :: size <= k < 8 ==> ptrs[k] == -1)
  }

  ghost predicate FilePtrsOk(disk: seq<Block>, ptrs: seq<int>) {
    |ptrs| == 8 && forall k :: 0 <= k < 8 && ptrs[k] != -1 ==> IsDataBlock(disk, ptrs[k])
  }

  /** Address `a` holds an inode all of whose pointers lead to blocks of its kind. */
  ghost predicate InodeAt(disk: seq<Block>, a: int) {
    && 0 < a < |disk| && disk[a].InodeBlock?
    && match disk[a].inode.itype
       case Directory => DirPtrsOk(disk, disk[a].inode.pointers, disk[a].inode.size)
       case Regular => FilePtrsOk(disk, disk[a].inode.pointers)
  }

  ghost function DirSlots(disk: seq<Block>, ptrs: seq<int>, size: int): seq<Entry>
    requires DirPtrsOk(disk, ptrs, size)
  {
    seq(8 * size, x requires 0 <= x < 8 * size => assert IsDirBlock(disk, ptrs[x / 8]); disk[ptrs[x / 8]].slots[x % 8])
  }

  ghost function FileBlocks(disk: seq<Block>, ptrs: seq<int>): seq<Option<string>>
    requires FilePtrsOk(disk, ptrs)
  {
    seq(8, k requires 0 <= k < 8 => if ptrs[k] == -1 then None else Some(disk[ptrs[k]].contents))
  }

  ghost function NodeOf(disk: seq<Block>, a: int): Node
    requires InodeAt(disk, a)
  {
    var ino := disk[a].inode;
    match ino.itype
    case Directory => Dir(ino.refs, DirSlots(disk, ino.pointers, ino.size))
    case Regular => File(ino.refs, ino.size, FileBlocks(disk, ino.pointers))
  }

  ghost predicate MapOk(disk: seq<Block>, inodeMap: seq<int>) {
    |inodeMap| == 256 && forall i :: 0 <= i < 256 && inodeMap[i] != -1 ==> InodeAt(disk, inodeMap[i])
  }

  /** Inode `i` is allocated. */
  predicate Live(inodeMap: seq<int>, i: int) {
    0 <= i < |inodeMap| && inodeMap[i] != -1
  }

  /** The file system that `inodeMap` denotes on this disk. */
  ghost function Resolve(disk: seq<Block>, inodeMap: seq<int>): Table
    requires MapOk(disk, inodeMap)
  {
    map i | 0 <= i < 256 && inodeMap[i] != -1 :: NodeOf(disk, inodeMap[i])
  }

  ghost predicate CrOk(disk: seq<Block>, cr: seq<int>) {
    |cr| == 16 && forall c :: 0 <= c < 16 && cr[c] != -1 ==> ChunkAt(disk, cr[c])
  }

  ghost predicate ChunkAt(disk: seq<Block>, a: int) {
    0 < a < |disk| && disk[a].ImapChunk? && |disk[a].addrs| == 16
  }

  ghost predicate WellFormed(s: FS) {
    && |s.disk| > 0 && s.disk[0].Checkpoint? && CrOk(s.disk, s.disk[0].addrs)
    && MapOk(s.disk, s.inodeMap) && CrOk(s.disk, s.cr)
  }

  ghost function TableOf(s: FS): Table
    requires WellFormed(s)
  {
    Resolve(s.disk, s.inodeMap)
  }

  // ----- the writes

  function ChunkOf(i: int): int {
    i / 16
  }

  /** Log chunk `c` of the inode map and point the checkpoint region at it. */
  function LogChunk(s: FS, c: int): FS
    requires |s.inodeMap| == 256 && |s.cr| == 16 && 0 <= c < 16
  {
    FS(s.disk + [ImapChunk(s.inodeMap[16 * c..16 * c + 16])], s.inodeMap, s.cr[c := |s.disk|])
  }

  /** Log the chunks of all `inums`, each chunk once, in order of appearance. */
  function UpdateImap(s: FS, inums: seq<int>, done: set<int>): (r: FS)
    requires |s.inodeMap| == 256 && |s.cr| == 16 && forall j :: 0 <= j < |inums| ==> 0 <= inums[j] < 256
    decreases |inums|
  {
    if inums == [] then s
    else if ChunkOf(inums[0]) in done then UpdateImap(s, inums[1..], done)
    else UpdateImap(LogChunk(s, ChunkOf(inums[0])), inums[1..], done + {ChunkOf(inums[0])})
  }

  /** The only overwrite: the checkpoint region goes to address 0. */
  function CrSync(s: FS): FS
    requires |s.disk| > 0
  {
    s.(disk := s.disk[0 := Checkpoint(s.cr)])
  }

  /** The block of directory slots that holds the first free slot, with `e` put there. */
  function NewDirBlock(slots: seq<Entry>, e: Entry): Block
    requires |slots| % 8 == 0
  {
    var x := FreeSlot(slots);
    if x < |slots| then DirBlock(slots[8 * (x / 8)..8 * (x / 8) + 8][x % 8 := e])
    else DirBlock([e, FREE, FREE, FREE, FREE, FREE, FREE, FREE])
  }

  /** A directory's inode after block `k` was logged at `a`. */
  function DirInode(ino: Inode, k: int, a: int, moreRefs: int): Inode
    requires |ino.pointers| == 8 && 0 <= k < 8
  {
    Inode(ino.itype, if ino.size <= k then k + 1 else ino.size, ino.refs + moreRefs, ino.pointers[k := a])
  }

  function NewInode(isFile: bool, dirAddr: int): Inode {
    if isFile then Inode(Regular, 0, 1, NoPtrs()) else Inode(Directory, 1, 2, NoPtrs()[0 := dirAddr])
  }

  /** A live directory with room for one more entry. */
  ghost predicate DirWithRoom(s: FS, p: int) {
    && WellFormed(s) && Live(s.inodeMap, p) && p in TableOf(s) && TableOf(s)[p].Dir?
    && !Full(TableOf(s)[p].slots)
  }

  ghost predicate LiveFile(s: FS, n: int) {
    WellFormed(s) && Live(s.inodeMap, n) && n in TableOf(s) && TableOf(s)[n].File?
  }

  ghost function InodeOf(s: FS, i: int): Inode
    requires MapOk(s.disk, s.inodeMap) && Live(s.inodeMap, i)
  {
    s.disk[s.inodeMap[i]].inode
  }

  ghost function CreateLogged(s: FS, p: int, name: string, n: int, isFile: bool): FS
    requires DirWithRoom(s, p) && 0 <= n < 256
  {
    var ino, slots, a := InodeOf(s, p), TableOf(s)[p].slots, |s.disk|;
    var k := FreeSlot(slots) / 8;
    var blocks := [NewDirBlock(slots, Entry(name, n))]
      + (if isFile then [] else [DirBlock(NewDirSlots(n, p))])
      + [InodeBlock(DirInode(ino, k, a, if isFile then 0 else 1)), InodeBlock(NewInode(isFile, a + 1))];
    var pa := a + |blocks| - 2;
    UpdateImap(FS(s.disk + blocks, s.inodeMap[p := pa][n := pa + 1], s.cr), [p, n], {})
  }

  /** Note what is logged for the imap: the chunk of the destination directory only. */
  ghost function LinkLogged(s: FS, p: int, name: string, n: int): FS
    requires DirWithRoom(s, p) && LiveFile(s, n)
  {
    var ino, src, slots, a := InodeOf(s, p), InodeOf(s, n), TableOf(s)[p].slots, |s.disk|;
    var k := FreeSlot(slots) / 8;
    var blocks := [NewDirBlock(slots, Entry(name, n)), InodeBlock(DirInode(ino, k, a, 0)),
                   InodeBlock(src.(refs := src.refs + 1))];
    UpdateImap(FS(s.disk + blocks, s.inodeMap[p := a + 1][n := a + 2], s.cr), [p], {})
  }

  /** The inode map after a delete: the file goes with its last link, otherwise it
      moves behind the directory's new inode at `a`. */
  function DeleteMap(inodeMap: seq<int>, p: int, n: int, refs: int, a: int): seq<int>
    requires 0 <= p < |inodeMap| && 0 <= n < |inodeMap|
  {
    if refs == 1 then inodeMap[n := -1][p := a]
    else if refs > 1 then inodeMap[p := a][n := a + 1]
    else inodeMap[p := a]
  }

  ghost function DeleteLogged(s: FS, p: int, name: string, n: int): FS
    requires WellFormed(s) && Live(s.inodeMap, p) && p in TableOf(s) && TableOf(s)[p].Dir? && LiveFile(s, n)
    requires FindName(TableOf(s)[p].slots, name) < |TableOf(s)[p].slots|
  {
    var ino, src, slots, a := InodeOf(s, p), InodeOf(s, n), TableOf(s)[p].slots, |s.disk|;
    var x := FindName(slots, name);
    var blocks := [DirBlock(slots[8 * (x / 8)..8 * (x / 8) + 8][x % 8 := FREE]),
                   InodeBlock(DirInode(ino, x / 8, a, 0))]
      + (if src.refs > 1 then [InodeBlock(src.(refs := src.refs - 1))] else []);
    UpdateImap(FS(s.disk + blocks, DeleteMap(s.inodeMap, p, n, src.refs, a + 1), s.cr), [n, p], {})
  }

  function DataBlocks(data: seq<string>, k: nat): seq<Block>
    requires k <= |data|
  {
    seq(k, j requires 0 <= j < k => DataBlock(data[j]))
  }

  /** A file's inode after the blocks from `offset` up to `end` were logged from `a` on. */
  function WrittenInode(ino: Inode, offset: int, end: int, a: int): Inode
    requires |ino.pointers| == 8 && 0 <= offset <= end <= 8
  {
    Inode(ino.itype, end, ino.refs,
          seq(8, k requires 0 <= k < 8 => if offset <= k < end then a + k - offset else ino.pointers[k]))
  }

  ghost function WriteLogged(s: FS, n: int, offset: int, data: seq<string>): FS
    requires LiveFile(s, n) && 0 <= offset < 8
  {
    var end, a := WriteEnd(offset, |data|), |s.disk|;
    var blocks := DataBlocks(data, end - offset) + [InodeBlock(WrittenInode(InodeOf(s, n), offset, end, a))];
    UpdateImap(FS(s.disk + blocks, s.inodeMap[n := a + end - offset], s.cr), [n], {})
  }

  // ----- basic facts

  /** `later` has every block of `earlier`, address 0 excepted. */
  ghost predicate Extends(earlier: seq<Block>, later: seq<Block>) {
    |earlier| <= |later| && forall a :: 0 < a < |earlier| ==> later[a] == earlier[a]
  }

  /** What an inode stands for does not change as the log grows. */
  lemma NodeFrame(disk: seq<Block>, disk': seq<Block>, a: int)
    requires InodeAt(disk, a) && Extends(disk, disk')
    ensures InodeAt(disk', a) && NodeOf(disk', a) == NodeOf(disk, a)
  {
    var ino := disk[a].inode;
    match ino.itype
    case Directory =>
      forall k | 0 <= k < ino.size ensures IsDirBlock(disk', ino.pointers[k]) {
        assert IsDirBlock(disk, ino.pointers[k]);
      }
      forall x | 0 <= x < 8 * ino.size
        ensures DirSlots(disk', ino.pointers, ino.size)[x] == DirSlots(disk, ino.pointers, ino.size)[x]
      {
        assert IsDirBlock(disk, ino.pointers[x / 8]);
      }
      assert DirSlots(disk', ino.pointers, ino.size) == DirSlots(disk, ino.pointers, ino.size);
    case Regular =>
      assert FileBlocks(disk', ino.pointers) == FileBlocks(disk, ino.pointers);
  }

  lemma ChunkFrame(disk: seq<Block>, disk': seq<Block>, cr: seq<int>)
    requires CrOk(disk, cr) && Extends(disk, disk')
    ensures CrOk(disk', cr)
  {
  }

  ghost predicate TouchesChunk(inums: seq<int>, c: int) {
    exists j :: 0 <= j < |inums| && ChunkOf(inums[j]) == c
  }

  lemma TouchesFirst(inums: seq<int>)
    requires inums != []
    ensures forall c :: TouchesChunk(inums, c) <==> c == ChunkOf(inums[0]) || TouchesChunk(inums[1..], c)
  {
    forall c ensures TouchesChunk(inums, c) <==> c == ChunkOf(inums[0]) || TouchesChunk(inums[1..], c) {
      if TouchesChunk(inums, c) {
        var j :| 0 <= j < |inums| && ChunkOf(inums[j]) == c;
        if j > 0 { assert inums[1..][j - 1] == inums[j]; }
      }
    }
  }

  /** UpdateImap only appends chunks that copy the current inode map, points the
      checkpoint entries of the listed inodes' chunks at them, and changes no other. */
  lemma {:induction false} UpdateImapEffect(s: FS, inums: seq<int>, done: set<int>)
    requires |s.disk| > 0 && |s.inodeMap| == 256 && CrOk(s.disk, s.cr) && forall j :: 0 <= j < |inums| ==>
      0 <= inums[j] < 256
    ensures var r := UpdateImap(s, inums, done);
      && r.inodeMap == s.inodeMap && s.disk <= r.disk && CrOk(r.disk, r.cr)
      && forall c :: 0 <= c < 16 ==>
        if c !in done && TouchesChunk(inums, c)
        then r.cr[c] != -1 && r.disk[r.cr[c]].addrs == s.inodeMap[16 * c..16 * c + 16]
        else r.cr[c] == s.cr[c]
    decreases |inums|
  {
    if inums != [] {
      var c0 := ChunkOf(inums[0]);
      TouchesFirst(inums);
      if c0 in done {
        UpdateImapEffect(s, inums[1..], done);
      } else {
        var s1 := LogChunk(s, c0);
        assert s.disk <= s1.disk;
        ChunkFrame(s.disk, s1.disk, s.cr);
        UpdateImapEffect(s1, inums[1..], done + {c0});
      }
    }
  }
}
