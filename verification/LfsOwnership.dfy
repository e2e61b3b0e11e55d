/** Who owns which block: no two pointers of live inodes ever lead to the same block. */
module LfsOwnership {
  import opened LfsTable
  import opened LfsTableInv
  import opened LfsDisk
  import opened LfsRefine
  import opened LfsRun
  import opened LfsRecovery

  /** Pointer `q.x` of inode `q.d`. */
  ghost predicate IsPtr(s: FS, q: Pos) {
    MapOk(s.disk, s.inodeMap) && Live(s.inodeMap, q.d) && InodeAt(s.disk, s.inodeMap[q.d]) && 0 <= q.x < 8
  }

  ghost function PtrAt(s: FS, q: Pos): int
    requires IsPtr(s, q)
  {
    s.disk[s.inodeMap[q.d]].inode.pointers[q.x]
  }

  ghost predicate Owned(s: FS) {
    forall q, q' :: IsPtr(s, q) && IsPtr(s, q') && PtrAt(s, q) == PtrAt(s, q') && PtrAt(s, q) != -1 ==> q == q'
  }

  /** Every pointer of `r` is one that `s` had, or leads to a block logged since
      then, whose owner `newest` gives. */
  ghost predicate PtrsFrom(s: FS, r: FS, newest: map<int, Pos>) {
    && (forall a :: a in newest ==> a >= |s.disk|)
    && forall q :: IsPtr(r, q) && PtrAt(r, q) != -1 ==>
         || (IsPtr(s, q) && PtrAt(s, q) == PtrAt(r, q))
         || (PtrAt(r, q) in newest && newest[PtrAt(r, q)] == q)
  }

  lemma OldPtrIsOld(s: FS, q: Pos)
    requires IsPtr(s, q)
    ensures PtrAt(s, q) < |s.disk|
  {
    var ino := s.disk[s.inodeMap[q.d]].inode;
    if ino.itype == Directory && q.x < ino.size { assert IsDirBlock(s.disk, ino.pointers[q.x]); }
  }

  lemma StillOwned(s: FS, r: FS, newest: map<int, Pos>)
    requires Owned(s) && PtrsFrom(s, r, newest)
    ensures Owned(r)
  {
    hide IsPtr, PtrAt;
    forall q, q' | IsPtr(r, q) && IsPtr(r, q') && PtrAt(r, q) == PtrAt(r, q') && PtrAt(r, q) != -1
      ensures q == q'
    {
      if IsPtr(s, q) { OldPtrIsOld(s, q); }
      if IsPtr(s, q') { OldPtrIsOld(s, q'); }
    }
  }

  /** An inode that was not logged again has the pointers it had. */
  lemma SamePtr(s: FS, r: FS, q: Pos)
    requires WellFormed(s) && Extends(s.disk, r.disk) && IsPtr(r, q) && r.inodeMap[q.d] == s.inodeMap[q.d]
    ensures IsPtr(s, q) && PtrAt(s, q) == PtrAt(r, q)
  {
    hide NodeOf;
    NodeFrame(s.disk, r.disk, s.inodeMap[q.d]);
  }

  /** The pointers of an inode logged before the imap chunks were. */
  lemma PtrInBlock(r1: FS, r: FS, q: Pos, ptrs: seq<int>)
    requires InodeWith(r1, q.d, ptrs) && r1.disk <= r.disk && r.inodeMap == r1.inodeMap && IsPtr(r, q)
    ensures q.x < |ptrs| && PtrAt(r, q) == ptrs[q.x]
  {
  }

  lemma PtrOfLive(s: FS, q: Pos)
    requires WellFormed(s) && Live(s.inodeMap, q.d) && 0 <= q.x < 8
    ensures IsPtr(s, q) && PtrAt(s, q) == InodeOf(s, q.d).pointers[q.x]
  {
  }

  lemma LoggedKeeps(s: FS, r1: FS, inums: seq<int>)
    requires WellFormed(s) && s.disk <= r1.disk && r1.cr == s.cr && |r1.inodeMap| == 256
    requires forall j :: 0 <= j < |inums| ==> 0 <= inums[j] < 256
    ensures var r := UpdateImap(r1, inums, {});
      r.inodeMap == r1.inodeMap && r1.disk <= r.disk && Extends(s.disk, r.disk)
  {
    ChunkFrame(s.disk, r1.disk, s.cr);
    UpdateImapKeeps(r1, inums);
  }

  lemma CreateOwned(s: FS, p: int, name: string, n: int, isFile: bool)
    requires DirWithRoom(s, p) && 0 <= n < 256 && s.inodeMap[n] == -1 && Owned(s)
    ensures Owned(CreateLogged(s, p, name, n, isFile))
  {
    hide Full, UpdateImap, CreateLogged, FreeSlot, InodeAt, CrOk, IsPtr, PtrAt, InodeWith, Owned;
    DirShape(s, p);
    AddSlotByBlock(TableOf(s)[p].slots, Entry(name, n));
    var r1 := CreateAppended(s, p, name, n, isFile);
    LoggedKeeps(s, r1, [p, n]);
    var r := CreateLogged(s, p, name, n, isFile);
    var k, a := FreeSlot(TableOf(s)[p].slots) / 8, |s.disk|;
    var newest := map[a := Pos(p, k), a + 1 := Pos(n, 0)];
    forall q | IsPtr(r, q) && PtrAt(r, q) != -1
      ensures (IsPtr(s, q) && PtrAt(s, q) == PtrAt(r, q)) || (PtrAt(r, q) in newest && newest[PtrAt(r, q)] == q)
    {
      IsPtrRange(r, q);
      if q.d == p {
        PtrInBlock(r1, r, q, InodeOf(s, p).pointers[k := a]);
        PtrOfLive(s, q);
      } else if q.d == n {
        PtrInBlock(r1, r, q, if isFile then NoPtrs() else NoPtrs()[0 := a + 1]);
      } else {
        SamePtr(s, r, q);
      }
    }
    StillOwned(s, r, newest);
  }

  lemma IsPtrRange(s: FS, q: Pos)
    requires IsPtr(s, q)
    ensures 0 <= q.x < 8 && 0 <= q.d < 256 && Live(s.inodeMap, q.d)
  {
  }

  lemma LinkOwned(s: FS, p: int, name: string, n: int)
    requires DirWithRoom(s, p) && LiveFile(s, n) && Owned(s)
    ensures Owned(LinkLogged(s, p, name, n))
  {
    hide Full, UpdateImap, LinkLogged, FreeSlot, InodeAt, CrOk, IsPtr, PtrAt, Owned;
    DirShape(s, p);
    AddSlotByBlock(TableOf(s)[p].slots, Entry(name, n));
    var r1 := LinkAppended(s, p, name, n);
    LoggedKeeps(s, r1, [p]);
    var r := LinkLogged(s, p, name, n);
    var k, a := FreeSlot(TableOf(s)[p].slots) / 8, |s.disk|;
    var newest := map[a := Pos(p, k)];
    forall q | IsPtr(r, q) && PtrAt(r, q) != -1
      ensures (IsPtr(s, q) && PtrAt(s, q) == PtrAt(r, q)) || (PtrAt(r, q) in newest && newest[PtrAt(r, q)] == q)
    {
      IsPtrRange(r, q);
      if q.d == p {
        PtrInBlock(r1, r, q, InodeOf(s, p).pointers[k := a]);
        PtrOfLive(s, q);
      } else if q.d == n {
        PtrInBlock(r1, r, q, InodeOf(s, n).pointers);
        PtrOfLive(s, q);
      } else {
        SamePtr(s, r, q);
      }
    }
    StillOwned(s, r, newest);
  }

  lemma DeleteOwned(s: FS, p: int, name: string, n: int)
    requires WellFormed(s) && Live(s.inodeMap, p) && p in TableOf(s) && TableOf(s)[p].Dir? && LiveFile(s, n)
    requires FindName(TableOf(s)[p].slots, name) < |TableOf(s)[p].slots| && Owned(s)
    ensures Owned(DeleteLogged(s, p, name, n))
  {
    hide UpdateImap, DeleteLogged, FindName, InodeAt, CrOk, IsPtr, PtrAt, InodeWith, Owned;
    DirShape(s, p);
    var r1 := DeleteAppended(s, p, name, n);
    LoggedKeeps(s, r1, [n, p]);
    var r := DeleteLogged(s, p, name, n);
    var k, a := FindName(TableOf(s)[p].slots, name) / 8, |s.disk|;
    var newest := map[a := Pos(p, k)];
    forall q | IsPtr(r, q) && PtrAt(r, q) != -1
      ensures (IsPtr(s, q) && PtrAt(s, q) == PtrAt(r, q)) || (PtrAt(r, q) in newest && newest[PtrAt(r, q)] == q)
    {
      IsPtrRange(r, q);
      if q.d == p {
        PtrInBlock(r1, r, q, InodeOf(s, p).pointers[k := a]);
        PtrOfLive(s, q);
      } else if r.inodeMap[q.d] != s.inodeMap[q.d] {
        PtrInBlock(r1, r, q, InodeOf(s, n).pointers);
        PtrOfLive(s, q);
      } else {
        SamePtr(s, r, q);
      }
    }
    StillOwned(s, r, newest);
  }

  /** The pointer behind which a write from `offset` on puts the block at `b`. */
  ghost function WrittenBy(n: int, offset: int, a: int, b: int): Pos {
    Pos(n, offset + b - a)
  }

  lemma WriteOwned(s: FS, n: int, offset: int, data: seq<string>)
    requires LiveFile(s, n) && 0 <= offset < 8 && Owned(s)
    ensures Owned(WriteLogged(s, n, offset, data))
  {
    hide UpdateImap, WriteLogged, InodeAt, CrOk, IsPtr, PtrAt, InodeWith, Owned;
    FileShape(s, n);
    var r1 := WriteAppended(s, n, offset, data);
    LoggedKeeps(s, r1, [n]);
    var r := WriteLogged(s, n, offset, data);
    var end, a := WriteEnd(offset, |data|), |s.disk|;
    var newest := map b | a <= b < a + end - offset :: WrittenBy(n, offset, a, b);
    forall q | IsPtr(r, q) && PtrAt(r, q) != -1
      ensures (IsPtr(s, q) && PtrAt(s, q) == PtrAt(r, q)) || (PtrAt(r, q) in newest && newest[PtrAt(r, q)] == q)
    {
      IsPtrRange(r, q);
      if q.d == n {
        PtrInBlock(r1, r, q, WrittenInode(InodeOf(s, n), offset, end, a).pointers);
        PtrOfLive(s, q);
      } else {
        SamePtr(s, r, q);
      }
    }
    StillOwned(s, r, newest);
  }

  lemma SyncOwned(s: FS)
    requires WellFormed(s) && Owned(s)
    ensures Owned(CrSync(s))
  {
    hide InodeAt, CrOk, IsPtr, PtrAt, Owned;
    forall q | IsPtr(CrSync(s), q) ensures IsPtr(s, q) && PtrAt(s, q) == PtrAt(CrSync(s), q) {
      IsPtrRange(CrSync(s), q);
      SamePtr(s, CrSync(s), q);
    }
    StillOwned(s, CrSync(s), map[]);
  }

  lemma LoggedOwned(s: FS, op: Op)
    requires WellFormed(s) && Allowed(s, op) && Succeeds(s, op) && Owned(s)
    ensures Owned(Logged(s, op))
  {
    hide Full, Target, InodeAt, NodeOf, CrOk, FindName, Owned;
    var t := TableOf(s);
    match op
    case Create(path, isFile, pick) =>
      FreshHasRoom(s, path);
      CreateOwned(s, Target(t, path).parent, Target(t, path).name, pick, isFile);
    case Link(src, dst) =>
      FreshHasRoom(s, dst);
      FileIsLive(s, src);
      LinkOwned(s, Target(t, dst).parent, Target(t, dst).name, Target(t, src).inum);
    case Write(path, offset, data) =>
      FileIsLive(s, path);
      WriteOwned(s, Target(t, path).inum, offset, data);
    case Delete(path) =>
      FileIsLive(s, path);
      DeletedIsFound(s, path);
      DeleteOwned(s, Target(t, path).parent, Target(t, path).name, Target(t, path).inum);
    case Sync =>
  }
}
