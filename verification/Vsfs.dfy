/** The very simple file system: the simulator's operations on its tables, each choice of
    the random workload being an argument. */
module Vsfs {
  import opened DirEntries
  import opened Sequences
  import opened VsfsState
  import opened VsfsSteps

  function EmptyInode(): Inode {
    Inode(Free, -1, 1)
  }

  function EmptyBlock(): Block {
    Block(Free, 0, [], "")
  }

  function Zeros(n: int): seq<int>
    requires n >= 0
  {
    seq(n, i => 0)
  }

  function Initial(numInodes: int, numData: int): State
    requires numInodes >= 1 && numData >= 1
  {
    State(Mark(Bits(Zeros(numInodes), 0), 0), seq(numInodes, i => if i == 0 then Inode(Dir, 0, 2) else EmptyInode()),
          Mark(Bits(Zeros(numData), 0), 0), seq(numData, i => if i
            == 0 then DirBlock(EmptyBlock(), 0, 0) else EmptyBlock()),
          [], [[]], map[[] := 0])
  }

  lemma {:induction false} NoOnes(m: seq<int>)
    requires forall i :: 0 <= i < |m| ==> m[i] == 0
    ensures Ones(m) == 0
  {
    if m != [] { NoOnes(m[..|m| - 1]); }
  }

  lemma {:induction false} NoRefs(blocks: seq<Block>, n: int)
    requires forall b :: 0 <= b < |blocks| ==> blocks[b].dirList == []
    ensures Refs(blocks, n) == 0
  {
    if blocks != [] { NoRefs(blocks[..|blocks| - 1], n); }
  }

  lemma InitialInv(numInodes: int, numData: int)
    requires numInodes >= 1 && numData >= 1
    ensures Inv(Initial(numInodes, numData))
  {
    hide Ones, Refs, RefsIn, DirOk, Mark, Initial, BitsOk, HasName, DirBlock;
    var s := Initial(numInodes, numData);
    InitialAt(numInodes, numData);
    forall n ensures Refs(s.blocks, n) == if n == 0 then 2 else 0 { InitialRefs(numInodes, numData, n); }
    assert Live(s, []) && s.names[[]] == 0;
    NamedBy(s, [], 0);
    OwnedBy(s, 0, 0);
    forall p, b | IsDirBlock(s, p, b)
      ensures s.blocks[b].dirUsed == |s.blocks[b].dirList| && DirOk(s, p, s.blocks[b].dirList)
    {
      assert p == [] && b == 0;
      assert forall nm :: !Live(s, p + [nm]);
      NewDirOk(s, [], 0, 0);
    }
  }

  lemma InitialAt(numInodes: int, numData: int)
    requires numInodes >= 1 && numData >= 1
    ensures var s := Initial(numInodes, numData);
      && |s.inodes| == numInodes && s.inodes[0] == Inode(Dir, 0, 2) && (forall i :: 1 <= i < numInodes ==>
        s.inodes[i] == EmptyInode())
      && |s.blocks| == numData && (forall b :: 1 <= b < numData ==> s.blocks[b] == EmptyBlock())
      && s.blocks[0] == Block(Dir, 2, [Entry(".", 0), Entry("..", 0)], "")
      && BitsOk(s.ibits, numInodes) && s.ibits.bmap[0] == 1 && (forall i :: 1 <= i < numInodes ==> s.ibits.bmap[i] == 0)
      && BitsOk(s.dbits, numData) && s.dbits.bmap[0] == 1 && (forall b :: 1 <= b < numData ==> s.dbits.bmap[b] == 0)
      && |s.ibits.bmap| == numInodes && |s.dbits.bmap| == numData
      && s.files == [] && s.dirs == [[]] && s.names == map[[] := 0]
  {
    hide Ones, Mark;
    InitialBits(numInodes);
    InitialBits(numData);
    var s := Initial(numInodes, numData);
    assert forall b :: 1 <= b < numData ==> s.blocks[b] == EmptyBlock();
    assert forall i :: 1 <= i < numInodes ==> s.inodes[i] == EmptyInode();
    assert s.blocks[0] == DirBlock(EmptyBlock(), 0, 0);
    assert s.inodes[0] == Inode(Dir, 0, 2);
    assert |s.inodes| == numInodes && |s.blocks| == numData;
  }

  lemma InitialBits(n: int)
    requires n >= 1
    ensures BitsOk(Mark(Bits(Zeros(n), 0), 0), n)
    ensures var m := Mark(Bits(Zeros(n), 0), 0).bmap;
      |m| == n && m[0] == 1 && forall i :: 1 <= i < n ==> m[i] == 0
  {
    NoOnes(Zeros(n));
    MarkOk(Bits(Zeros(n), 0), n, 0);
  }

  lemma InitialRefs(numInodes: int, numData: int, n: int)
    requires numInodes >= 1 && numData >= 1
    ensures Refs(Initial(numInodes, numData).blocks, n) == if n == 0 then 2 else 0
  {
    hide Refs, RefsIn;
    var none := seq(numData, i => EmptyBlock());
    NoRefs(none, n);
    RefsPut(none, 0, DirBlock(EmptyBlock(), 0, 0), n);
    NewDirRefs(0, 0, n);
    assert Initial(numInodes, numData).blocks == none[0 := DirBlock(EmptyBlock(), 0, 0)];
  }

  /** Why a name cannot be added. */
  ghost predicate NoRoom(s: State, parent: Path, name: string)
    requires parent in s.names && 0 <= s.names[parent] < |s.inodes|
  {
    var pb := s.inodes[s.names[parent]].addr;
    0 <= pb < |s.blocks| && (|s.blocks[pb].dirList| >= MAXUSED || HasName(s.blocks[pb].dirList, name))
  }

  ghost predicate NoneFree(b: Bits) {
    forall i :: 0 <= i < |b.bmap| ==> b.bmap[i] != 0
  }

  /** Bit i is the first one that is free. */
  ghost predicate FirstFree(b: Bits, i: int) {
    0 <= i < |b.bmap| && b.bmap[i] == 0 && forall j :: 0 <= j < i ==> b.bmap[j] != 0
  }

  class Fs {
    var ibitmap: Bits
    var inodes: seq<Inode>
    var dbitmap: Bits
    var data: seq<Block>
    var files: seq<Path>
    var dirs: seq<Path>
    var nameToInum: map<Path, int>

    ghost function S(): State
      reads this
    {
      State(ibitmap, inodes, dbitmap, data, files, dirs, nameToInum)
    }

    constructor (numInodes: int, numData: int)
      requires numInodes >= 1 && numData >= 1
      ensures Inv(S()) && S() == Initial(numInodes, numData)
    {
      ibitmap := Mark(Bits(Zeros(numInodes), 0), 0);
      inodes := seq(numInodes, i => if i == 0 then Inode(Dir, 0, 2) else EmptyInode());
      dbitmap := Mark(Bits(Zeros(numData), 0), 0);
      data := seq(numData, i => if i == 0 then DirBlock(EmptyBlock(), 0, 0) else EmptyBlock());
      files, dirs, nameToInum := [], [[]], map[[] := 0];
      InitialInv(numInodes, numData);
      new;
      assert S().inodes == Initial(numInodes, numData).inodes && S().blocks == Initial(numInodes, numData).blocks;
    }

    /** The first free bit, taken. */
    method Alloc(b: Bits) returns (num: int, r: Bits)
      ensures num == -1 <==> NoneFree(b)
      ensures num == -1 ==> r == b
      ensures num != -1 ==> FirstFree(b, num) && r == Mark(b, num)
    {
      for i := 0 to |b.bmap|
        invariant forall j :: 0 <= j < i ==> b.bmap[j] != 0
      {
        if b.bmap[i] == 0 {
          return i, Bits(b.bmap[i := 1], b.numAllocated + 1);
        }
      }
      return -1, b;
    }

    method IndexOf(q: seq<Path>, p: Path) returns (k: int)
      requires p in q
      ensures 0 <= k < |q| && q[k] == p
    {
      k := 0;
      while q[k] != p
        invariant 0 <= k < |q| && forall j :: 0 <= j < k ==> q[j] != p
        decreases |q| - k
      {
        assert exists j :: 0 <= j < |q| && q[j] == p;
        k := k + 1;
      }
    }

    /** Whether the directory has room for the name, and where it is. */
    method CheckParent(parent: Path, name: string) returns (ok: bool, pn: int, pb: int)
      requires Inv(S()) && parent in dirs
      ensures Place(S(), parent, pn, pb)
      ensures ok <==> !NoRoom(S(), parent, name)
      ensures ok ==> |data[pb].dirList| < MAXUSED && !HasName(data[pb].dirList, name)
      ensures ok ==> parent + [name] !in files && parent + [name] !in dirs
    {
      hide BitmapsOk, IndexOk, OwnersOk, DirsOk, CountsOk, FilesOk, HasName, DirOk;
      ghost var es := DirectoryOf(S(), parent);
      pn := nameToInum[parent];
      pb := inodes[pn].addr;
      if MAXUSED - data[pb].dirUsed <= 0 { return false, pn, pb; }
      var there := FindEntry(data[pb].dirList, name);
      if there != -1 { return false, pn, pb; }
      NotThere(S(), parent, es, name);
      return true, pn, pb;
    }

    /** A new inode, with a block if it is a directory, and its entry. Nothing changes if
        any of the three cannot be had. */
    method CreateFile(parent: Path, newfile: string, ftype: Kind)
      returns (inum: int, ghost how: How, ghost pn: int, ghost pb: int)
      requires Inv(S()) && parent in dirs && ftype != Free
      modifies this`ibitmap, this`inodes, this`dbitmap, this`data
      ensures inum == -1 ==> S() == old(S())
      ensures inum == -1 <==> old(CannotCreate(S(), parent, newfile, ftype))
      ensures inum != -1 ==> inum >= 0 && (ftype == File ==> how == NewFile) && (ftype == Dir ==> how.NewDir?)
      ensures inum != -1 ==> CanAdd(old(S()), parent, newfile, inum, how, pn, pb)
      ensures inum != -1 ==> FirstFree(old(ibitmap), inum)
      ensures inum != -1 && ftype == Dir ==> how.NewDir? && FirstFree(old(dbitmap), how.fb)
      ensures inum != -1 ==>
        S() == Added(old(S()), parent, newfile, inum, how, pn, pb).(files := files, dirs := dirs, names := nameToInum)
    {
      hide Inv, NoRoom, HasName, NoneFree, Mark, Place;
      how, pn, pb := NewFile, 0, 0;
      ghost var s0 := S();
      ListedIsThere(s0, parent);
      var ok, parentInum, pblock := CheckParent(parent, newfile);
      PlaceIs(s0, parent, parentInum, pblock);
      pn, pb := parentInum, pblock;
      if !ok { return -1, how, pn, pb; }
      var num, ibits := Alloc(ibitmap);
      if num == -1 { return -1, how, pn, pb; }
      FreeInode(s0, num);
      ibitmap := ibits;
      var fblock := -1;
      if ftype == Dir {
        var dbits;
        fblock, dbits := Alloc(dbitmap);
        if fblock == -1 {
          FreedAgain(s0, num);
          ibitmap := Bits(ibitmap.bmap[num := 0], ibitmap.numAllocated - 1);
          inodes := inodes[num := inodes[num].(ftype := Free, addr := -1)];
          return -1, how, pn, pb;
        }
        FreeBlock(s0, fblock);
        dbitmap := dbits;
        var block := data[fblock].(ftype := Dir);
        block := AddEntry(block, Entry(".", num));
        block := AddEntry(block, Entry("..", parentInum));
        data := data[fblock := block];
        how := NewDir(fblock);
        DirBlockIs(s0.blocks[fblock], num, parentInum);
      }
      inodes := inodes[num := Inode(ftype, fblock, if ftype == Dir then 2 else 1)];
      if ftype == Dir { inodes := inodes[parentInum := Inc(inodes[parentInum])]; }
      data := data[pblock := AddEntry(data[pblock], Entry(newfile, num))];
      inum := num;
      CanAddBy(s0, parent, newfile, num, how, pn, pb);
      AddedIs(s0, parent, newfile, num, how, pn, pb);
    }

    /** Create a file or a directory and list it. */
    method DoCreate(parent: Path, nfile: string, ftype: Kind)
      returns (rc: int, ghost inum: int, ghost how: How, ghost pn: int, ghost pb: int)
      requires Inv(S()) && parent in dirs && ftype != Free
      modifies this
      ensures Inv(S()) && (rc == 0 || rc == -1)
      ensures rc == -1 <==> old(CannotCreate(S(), parent, nfile, ftype))
      ensures rc == -1 ==> S() == old(S())
      ensures rc == 0 ==> (if ftype == File then how == NewFile else how.NewDir?)
      ensures rc == 0 ==> CanAdd(old(S()), parent, nfile, inum, how, pn, pb)
      ensures rc == 0 ==> FirstFree(old(ibitmap), inum)
      ensures rc == 0 && ftype == Dir ==> how.NewDir? && FirstFree(old(dbitmap), how.fb)
      ensures rc == 0 ==> S() == Added(old(S()), parent, nfile, inum, how, pn, pb)
    {
      hide Inv, CanAdd, CannotCreate, Added;
      ghost var s0 := S();
      var n;
      n, how, pn, pb := CreateFile(parent, nfile, ftype);
      inum := n;
      if n < 0 { return -1, inum, how, pn, pb; }
      AddedLists(s0, parent, nfile, n, how, pn, pb);
      AddKeeps(s0, parent, nfile, n, how, pn, pb);
      if ftype == Dir { dirs := dirs + [parent + [nfile]]; } else { files := files + [parent + [nfile]]; }
      nameToInum := nameToInum[parent + [nfile] := n];
      rc := 0;
    }

    /** Another name for a file. */
    method DoLink(target: Path, nfile: string, parent: Path)
      returns (rc: int, ghost pn: int, ghost pb: int)
      requires Inv(S()) && parent in dirs && target in files
      modifies this
      ensures Inv(S()) && (rc == 0 || rc == -1)
      ensures old(parent in nameToInum && 0 <= nameToInum[parent] < |inodes| && target in nameToInum)
      ensures rc == -1 <==> old(NoRoom(S(), parent, nfile))
      ensures rc == -1 ==> S() == old(S())
      ensures rc == 0 ==> CanAdd(old(S()), parent, nfile, old(nameToInum)[target], Link, pn, pb)
      ensures rc == 0 ==> S() == Added(old(S()), parent, nfile, old(nameToInum)[target], Link, pn, pb)
    {
      hide Inv, NoRoom, HasName, Place;
      ghost var s0 := S();
      ListedIsThere(s0, parent);
      FileIsThere(s0, target);
      var ok, parentInum, pblock := CheckParent(parent, nfile);
      PlaceIs(s0, parent, parentInum, pblock);
      pn, pb := parentInum, pblock;
      if !ok { return -1, pn, pb; }
      var tinum := nameToInum[target];
      CanAddBy(s0, parent, nfile, tinum, Link, pn, pb);
      AddKeeps(s0, parent, nfile, tinum, Link, pn, pb);
      AddedIs(s0, parent, nfile, tinum, Link, pn, pb);
      inodes := inodes[tinum := Inc(inodes[tinum])];
      data := data[pblock := AddEntry(data[pblock], Entry(nfile, tinum))];
      files := files + [parent + [nfile]];
      nameToInum := nameToInum[parent + [nfile] := tinum];
      rc := 0;
    }

    /** Remove a name of a file, and the file with its last name. */
    method DoDelete(tfile: Path) returns (ghost k: int, ghost i: int, ghost pn: int, ghost pb: int)
      requires Inv(S()) && tfile in files
      modifies this
      ensures Inv(S()) && CanRemove(old(S()), k, i, pn, pb) && old(files)[k] == tfile
      ensures S() == Removed(old(S()), k, i, pn, pb)
    {
      hide Inv, HasName, Without, Place, CanRemove;
      ghost var s0 := S();
      FileIsThere(s0, tfile);
      var inum := nameToInum[tfile];
      var parent := Parent(tfile);
      ListedIsThere(s0, parent);
      var pinum := nameToInum[parent];
      var pblock := inodes[pinum].addr;
      PlaceIs(s0, parent, pinum, pblock);
      var at := FindEntry(data[pblock].dirList, tfile[|tfile| - 1]);
      var at2 := IndexOf(files, tfile);
      EntryIsThere(s0, at2, at, pinum, pblock);
      k, i, pn, pb := at2, at, pinum, pblock;
      RemoveKeeps(s0, k, i, pn, pb);
      RemovedIs(s0, k, i, pn, pb);
      if inodes[inum].refCnt == 1 {
        var dblock := inodes[inum].addr;
        if dblock != -1 {
          dbitmap := Bits(dbitmap.bmap[dblock := 0], dbitmap.numAllocated - 1);
          data := data[dblock := data[dblock].(data := "", ftype := Free)];
        }
        ibitmap := Bits(ibitmap.bmap[inum := 0], ibitmap.numAllocated - 1);
        inodes := inodes[inum := inodes[inum].(ftype := Free, addr := -1)];
      } else {
        inodes := inodes[inum := inodes[inum].(refCnt := inodes[inum].refCnt - 1)];
      }
      data := data[pblock := data[pblock].(dirList := Without(data[pblock].dirList, at),
        dirUsed := data[pblock].dirUsed - 1)];
      files := Without(files, at2);
    }

    /** Give an empty file its one block. It fails, changing nothing, exactly when the file
        has one or none is free. */
    method DoAppend(tfile: Path, text: string) returns (rc: int, ghost fb: int)
      requires Inv(S()) && tfile in files
      modifies this
      ensures Inv(S()) && (rc == 0 || rc == -1)
      ensures old(tfile in nameToInum && 0 <= nameToInum[tfile] < |inodes|)
      ensures rc == -1 <==> old(inodes[nameToInum[tfile]].addr != -1 || NoneFree(dbitmap))
      ensures rc == -1 ==> S() == old(S())
      ensures rc == 0 ==> CanWrite(old(S()), old(nameToInum)[tfile], fb) && FirstFree(old(dbitmap), fb)
      ensures rc == 0 ==> S() == Written(old(S()), old(nameToInum)[tfile], fb, text)
    {
      hide Inv, NoneFree;
      ghost var s0 := S();
      FileIsThere(s0, tfile);
      var inum := nameToInum[tfile];
      if inodes[inum].addr != -1 { return -1, 0; }
      var fblock, dbits := Alloc(dbitmap);
      if fblock == -1 { return -1, 0; }
      FreeBlock(s0, fblock);
      fb := fblock;
      WriteKeeps(s0, inum, fb, text);
      dbitmap := dbits;
      data := data[fblock := data[fblock].(ftype := File)];
      data := data[fblock := data[fblock].(data := text)];
      inodes := inodes[inum := inodes[inum].(addr := fblock)];
      assert S() == Written(s0, inum, fb, text);
      rc := 0;
    }
  }

  // ----- what the operations rely on

  ghost predicate CannotCreate(s: State, parent: Path, name: string, ftype: Kind)
  {
    parent in s.names && 0 <= s.names[parent] < |s.inodes|
    && (NoRoom(s, parent, name) || NoneFree(s.ibits) || (ftype == Dir && NoneFree(s.dbits)))
  }

  lemma ListedIsThere(s: State, parent: Path)
    requires Inv(s) && parent in s.dirs
    ensures parent in s.names && 0 <= s.names[parent] < |s.inodes|
    ensures Place(s, parent, s.names[parent], s.inodes[s.names[parent]].addr)
    ensures |s.ibits.bmap| == |s.inodes| && |s.dbits.bmap| == |s.blocks|
  {
    hide DirOk, CountsOk, FilesOk;
    var _ := DirectoryOf(s, parent);
  }

  lemma PlaceIs(s: State, parent: Path, pn: int, pb: int)
    requires Place(s, parent, pn, pb)
    ensures parent in s.names && s.names[parent] == pn && 0 <= pn < |s.inodes| && s.inodes[pn].addr == pb
    ensures 0 <= pb < |s.blocks|
    ensures s.inodes[pn].ftype == Dir && s.blocks[pb].ftype == Dir
  {
  }

  lemma FileIsThere(s: State, p: Path)
    requires Inv(s) && p in s.files
    ensures p in s.names && 0 <= s.names[p] < |s.inodes| && s.inodes[s.names[p]].ftype == File
    ensures p != [] && Parent(p) in s.dirs
    ensures |s.ibits.bmap| == |s.inodes| && |s.dbits.bmap| == |s.blocks|
  {
    hide DirsOk, OwnersOk, CountsOk, FilesOk;
    assert IsKind(s, p, File) && Live(s, p);
  }

  lemma FreeInode(s: State, n: int)
    requires Inv(s) && 0 <= n < |s.ibits.bmap| && s.ibits.bmap[n] == 0
    ensures 0 <= n < |s.inodes| && s.inodes[n].ftype == Free && s.inodes[n].addr == -1
  {
    hide DirsOk, OwnersOk, CountsOk, FilesOk, IndexOk, BitsOk;
    InRange(s, n);
    assert |s.ibits.bmap| == |s.inodes| by { Sizes(s); }
  }

  lemma Sizes(s: State)
    requires Inv(s)
    ensures |s.ibits.bmap| == |s.inodes| && |s.dbits.bmap| == |s.blocks|
  {
  }

  lemma FreeBlock(s: State, b: int)
    requires Inv(s) && 0 <= b < |s.dbits.bmap| && s.dbits.bmap[b] == 0
    ensures |s.dbits.bmap| == |s.blocks| && s.blocks[b].ftype == Free && s.blocks[b].dirList == []
    ensures s.blocks[b].dirUsed == 0
  {
    hide DirsOk, OwnersOk, CountsOk, FilesOk, IndexOk, BitsOk;
    assert |s.dbits.bmap| == |s.blocks| by { Sizes(s); }
    InRange(s, b);
  }

  /** Taking an inode and giving it back at once changes nothing. */
  lemma FreedAgain(s: State, n: int)
    requires Inv(s) && 0 <= n < |s.ibits.bmap| && s.ibits.bmap[n] == 0
    ensures Bits(Mark(s.ibits, n).bmap[n := 0], Mark(s.ibits, n).numAllocated - 1) == s.ibits
    ensures |Mark(s.ibits, n).bmap| == |s.ibits.bmap|
    ensures 0 <= n < |s.inodes| && s.inodes[n := s.inodes[n].(ftype := Free, addr := -1)] == s.inodes
  {
    hide Inv;
    FreeInode(s, n);
    assert s.ibits.bmap[n := 1][n := 0] == s.ibits.bmap;
  }

  /** A name without an entry is not listed. */
  lemma NotThere(s: State, parent: Path, es: seq<Entry>, name: string)
    requires DirOk(s, parent, es) && !HasName(es, name)
    ensures parent + [name] !in s.files && parent + [name] !in s.dirs
  {
    hide HasName;
    assert !Live(s, parent + [name]);
  }

  lemma CanAddBy(s: State, parent: Path, name: string, n: int, how: How, pn: int, pb: int)
    requires Inv(s) && Place(s, parent, pn, pb) && |s.blocks[pb].dirList| < MAXUSED
    requires !HasName(s.blocks[pb].dirList, name)
    requires 0 <= n < |s.inodes| && parent + [name] !in s.files && parent + [name] !in s.dirs
    requires match how
             case NewFile => s.inodes[n].ftype == Free
             case NewDir(fb) => s.inodes[n].ftype == Free && 0 <= fb < |s.blocks| && s.blocks[fb].ftype == Free
             case Link => s.inodes[n].ftype == File
    ensures CanAdd(s, parent, name, n, how, pn, pb)
  {
    hide HasName, DirsOk, OwnersOk, CountsOk, FilesOk, IndexOk;
  }

  lemma DirBlockIs(b: Block, n: int, pn: int)
    requires b.dirList == [] && b.dirUsed == 0
    ensures AddEntry(AddEntry(b.(ftype := Dir), Entry(".", n)), Entry("..", pn)) == DirBlock(b, n, pn)
  {
  }

  lemma AddedIs(s: State, parent: Path, name: string, n: int, how: How, pn: int, pb: int)
    requires CanAdd(s, parent, name, n, how, pn, pb)
    ensures 0 <= n < |s.inodes| && 0 <= pn < |s.inodes| && 0 <= pb < |s.blocks| && |s.ibits.bmap| == |s.inodes|
    ensures |s.dbits.bmap| == |s.blocks|
    ensures how.NewDir? ==> 0 <= how.fb < |s.blocks|
    ensures var path := parent + [name];
      Added(s, parent, name, n, how, pn, pb)
      == State(if how == Link then s.ibits else Mark(s.ibits, n), AddedInodes(s, n, how, pn),
               if how.NewDir? then Mark(s.dbits, how.fb) else s.dbits, AddedBlocks(s, name, n, how, pn, pb),
               if how.NewDir? then s.files else s.files + [path], if how.NewDir? then s.dirs + [path] else s.dirs,
               s.names[path := n])
  {
  }

  lemma AddedLists(s: State, parent: Path, name: string, n: int, how: How, pn: int, pb: int)
    requires CanAdd(s, parent, name, n, how, pn, pb)
    ensures var s', path := Added(s, parent, name, n, how, pn, pb), parent + [name];
      && s'.files == (if how.NewDir? then s.files else s.files + [path])
      && s'.dirs == (if how.NewDir? then s.dirs + [path] else s.dirs) && s'.names == s.names[path := n]
  {
  }

  lemma EntryIsThere(s: State, k: int, i: int, pn: int, pb: int)
    requires Inv(s) && 0 <= k < |s.files| && s.files[k] != [] && Place(s, Parent(s.files[k]), pn, pb)
    requires -1 <= i < |s.blocks[pb].dirList| && (i == -1 <==>
      !HasName(s.blocks[pb].dirList, s.files[k][|s.files[k]| - 1]))
    requires i >= 0 ==> s.blocks[pb].dirList[i].name == s.files[k][|s.files[k]| - 1]
    ensures CanRemove(s, k, i, pn, pb)
  {
    hide BitmapsOk, CountsOk, FilesOk, DirsOk, DirOk, HasName, OwnersOk, IndexOk;
    var path := s.files[k];
    var p, name := Parent(path), path[|path| - 1];
    FileIsThere(s, path);
    ListedIsThere(s, p);
    var es := DirectoryOf(s, p);
    assert p + [name] == path;
    EntryOfPath(s, p, es, path, i);
    FileBlock(s, s.names[path], pb);
  }

  lemma EntryOfPath(s: State, p: Path, es: seq<Entry>, path: Path, i: int)
    requires IndexOk(s) && DirOk(s, p, es) && path != [] && p == Parent(path) && path in s.files && p in s.dirs
    requires -1 <= i < |es| && (i == -1 <==> !HasName(es, path[|path| - 1]))
    requires i >= 0 ==> es[i].name == path[|path| - 1]
    ensures i >= 0 && path in s.names && es[i] == Entry(path[|path| - 1], s.names[path])
  {
    hide HasName, IndexOk;
    assert p + [path[|path| - 1]] == path && Live(s, path);
    assert EntryOk(s, p, es[i]);
  }

  lemma FileBlock(s: State, n: int, pb: int)
    requires Inv(s) && 0 <= n < |s.inodes| && s.inodes[n].ftype == File && 0 <= pb < |s.blocks|
    requires s.blocks[pb].ftype == Dir
    ensures s.inodes[n].addr != -1 ==>
      0 <= s.inodes[n].addr < |s.blocks| && s.inodes[n].addr != pb && s.blocks[s.inodes[n].addr].ftype == File
    ensures |s.ibits.bmap| == |s.inodes| && |s.dbits.bmap| == |s.blocks|
  {
    hide DirsOk, CountsOk, FilesOk, IndexOk;
  }

  lemma RemovedIs(s: State, k: int, i: int, pn: int, pb: int)
    requires CanRemove(s, k, i, pn, pb)
    ensures 0 <= k < |s.files| && s.files[k] in s.names && 0 <= s.names[s.files[k]] < |s.inodes|
    ensures 0 <= pb < |s.blocks| && 0 <= i < |s.blocks[pb].dirList| && |s.ibits.bmap| == |s.inodes|
    ensures |s.dbits.bmap| == |s.blocks|
    ensures var a := s.inodes[s.names[s.files[k]]].addr;
      a != -1 ==> 0 <= a < |s.blocks| && a != pb
    ensures var n := s.names[s.files[k]];
      var node := s.inodes[n];
      Removed(s, k, i, pn, pb)
      == State(if node.refCnt == 1 then Clear(s.ibits, n) else s.ibits,
               s.inodes[n := if node.refCnt
                 == 1 then Inode(Free, -1, node.refCnt) else node.(refCnt := node.refCnt - 1)],
               if node.refCnt == 1 && node.addr != -1 then Clear(s.dbits, node.addr) else s.dbits,
               RemovedBlocks(s, n, i, pb), Without(s.files, k), s.dirs, s.names)
  {
  }

  // ----- runs

  /** One operation, or one that fails. */
  ghost predicate Next(s: State, s': State) {
    || s' == s
    || (exists parent, name, n, how, pn, pb :: CanAdd(s, parent, name, n, how, pn, pb)
         && s' == Added(s, parent, name, n, how, pn, pb))
    || (exists k, i, pn, pb :: CanRemove(s, k, i, pn, pb) && s' == Removed(s, k, i, pn, pb))
    || (exists n, fb, text :: CanWrite(s, n, fb) && s' == Written(s, n, fb, text))
  }

  ghost predicate IsRun(r: seq<State>) {
    forall i :: 0 <= i < |r| - 1 ==> Next(r[i], r[i + 1])
  }

  lemma NextKeepsInv(s: State, s': State)
    requires Inv(s) && Next(s, s')
    ensures Inv(s')
  {
    hide Inv, CanAdd, Added, CanRemove, Removed, CanWrite, Written;
    if parent, name, n, how, pn, pb :|
      CanAdd(s, parent, name, n, how, pn, pb) && s' == Added(s, parent, name, n, how, pn, pb) {
      AddKeeps(s, parent, name, n, how, pn, pb);
    } else if k, i, pn, pb :| CanRemove(s, k, i, pn, pb) && s' == Removed(s, k, i, pn, pb) {
      RemoveKeeps(s, k, i, pn, pb);
    } else if n, fb, text :| CanWrite(s, n, fb) && s' == Written(s, n, fb, text) {
      WriteKeeps(s, n, fb, text);
    }
  }

  /** In every state that operations lead to, the tables are consistent, and the index
      says of every path what walking the directory blocks from the root finds. */
  lemma {:induction false} EveryReachableState(numInodes: int, numData: int, r: seq<State>, p: Path)
    requires numInodes >= 1 && numData >= 1 && r != [] && r[0] == Initial(numInodes, numData) && IsRun(r)
    requires forall k :: 0 <= k < |p| ==> p[k] != "." && p[k] != ".."
    ensures var s := r[|r| - 1];
      && Inv(s)
      && (Live(s, p) ==> p in s.names && Walk(s, p) == s.names[p])
      && (!Live(s, p) ==> Walk(s, p) == -1)
    decreases |r|
  {
    hide Next, Initial, Live, Walk;
    var last := |r| - 1;
    if last == 0 {
      InitialInv(numInodes, numData);
    } else {
      EveryReachableState(numInodes, numData, r[..last], p);
      assert Next(r[last - 1], r[last]);
      NextKeepsInv(r[last - 1], r[last]);
    }
    WalkAgrees(r[last], p);
  }
}
