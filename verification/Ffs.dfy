/** The block and inode allocator of the FFS simulator. */
module Ffs {
  import opened Arithmetic
  import opened DirEntries
  import opened FfsBitmap
  import opened FfsState
  import opened FfsDelete
  import opened FfsSearch
  import opened Sequences

  // ----- the other groups, alternately upwards and downwards

  function NearOffset(i: int): int {
    if i % 2 == 0 then 1 + i / 2 else -1 - i / 2
  }

  function NearGroup(target: int, i: int, n: int): int
    requires n > 0
  {
    VisitGroup(target, NearOffset(i), n)
  }

  lemma SameGroup(target: int, a: int, b: int, n: int)
    requires n > 0 && VisitGroup(target, a, n) == VisitGroup(target, b, n) && -n < a - b < n
    ensures a == b
  {
    Apart(target + b, target + a, n);
    Apart(target + a, target + b, n);
  }

  /** The alternating search looks at every group but the first, at each once. */
  lemma EveryOtherGroupOnce(target: int, n: int)
    requires n > 0 && 0 <= target < n
    ensures forall i :: 0 <= i < n - 1 ==> NearGroup(target, i, n) != target
    ensures forall i, j :: 0 <= i < j < n - 1 ==> NearGroup(target, i, n) != NearGroup(target, j, n)
    ensures forall g :: 0 <= g < n && g != target ==> LookedAt(target, g, n)
  {
    hide VisitGroup, NearOffset, LookedAt;
    StartGroup(target, n);
    forall i | 0 <= i < n - 1 ensures NearGroup(target, i, n) != target {
      OffsetRange(i, i, n);
      if NearGroup(target, i, n) == target { SameGroup(target, NearOffset(i), 0, n); }
    }
    forall i, j | 0 <= i < j < n - 1 ensures NearGroup(target, i, n) != NearGroup(target, j, n) {
      OffsetRange(i, j, n);
      if NearGroup(target, i, n) == NearGroup(target, j, n) { SameGroup(target, NearOffset(i), NearOffset(j), n); }
    }
    forall g | 0 <= g < n && g != target ensures LookedAt(target, g, n) {
      var i := NearVisit(g, target, n);
      LookedAtBy(target, i, n);
    }
  }

  ghost predicate LookedAt(target: int, g: int, n: int)
    requires n > 0
  {
    exists i :: 0 <= i < n - 1 && NearGroup(target, i, n) == g
  }

  lemma LookedAtBy(target: int, i: int, n: int)
    requires n > 0 && 0 <= i < n - 1
    ensures LookedAt(target, NearGroup(target, i, n), n)
  {
  }

  lemma OffsetRange(i: int, j: int, n: int)
    requires 0 <= i <= j < n - 1
    ensures NearOffset(i) != 0 && -n < NearOffset(i) < n && -n < NearOffset(i) - NearOffset(j) < n
    ensures i < j ==> NearOffset(i) != NearOffset(j)
  {
  }

  lemma StartGroup(target: int, n: int)
    requires n > 0 && 0 <= target < n
    ensures VisitGroup(target, 0, n) == target
  {
    Quotient(target, n, 0, target);
  }

  lemma NearVisit(g: int, target: int, n: int) returns (i: int)
    requires 0 <= g < n && 0 <= target < n && g != target
    ensures 0 <= i < n - 1 && NearGroup(target, i, n) == g
  {
    var d := if g > target then g - target else g - target + n;
    if 2 * d <= n {
      i := 2 * (d - 1);
      Quotient(target + d, n, if g > target then 0 else 1, g);
    } else {
      i := 2 * (n - 1 - d) + 1;
      Quotient(target + d - n, n, if g > target then -1 else 0, g);
    }
  }

  lemma ModStep(x: int, d: int, n: int)
    requires n > 0
    ensures (x % n + d) % n == (x + d) % n && 0 <= (x + d) % n < n
  {
    var y := x % n + d;
    assert x == n * (x / n) + x % n && y == n * (y / n) + y % n;
    assert n * (x / n + y / n) == n * (x / n) + n * (y / n);
    Quotient(x + d, n, x / n + y / n, y % n);
  }

  /** No group of the first `i` looked at has a free slot. */
  ghost predicate NoneNear(m: Bitmap, target: int, i: int)
    requires |m| > 0
  {
    forall j :: 0 <= j < i ==> Exhausted(m, NearGroup(target, j, |m|))
  }

  ghost predicate Exhausted(m: Bitmap, g: int) {
    0 <= g < |m| && FreeInRow(m[g]) == 0
  }

  lemma OneMoreExhausted(m: Bitmap, target: int, i: int)
    requires |m| > 0 && NoneNear(m, target, i) && Exhausted(m, NearGroup(target, i, |m|))
    ensures NoneNear(m, target, i + 1)
  {
  }

  lemma StillExhausted(m: Bitmap, target: int, g: int)
    requires |m| > 0 && NoneNear(m, target, |m| - 1) && LookedAt(target, g, |m|)
    ensures Exhausted(m, g)
  {
    var j :| 0 <= j < |m| - 1 && NearGroup(target, j, |m|) == g;
  }

  /** If neither the first group nor any of the others has a free slot, none is free. */
  lemma NoneAnywhere(m: Bitmap, target: int)
    requires |m| > 0 && Exhausted(m, target) && NoneNear(m, target, |m| - 1)
    ensures FreeIn(m) == 0
  {
    hide FreeIn, FreeInRow, NearGroup, LookedAt, NoneNear;
    SomeRowHasFree(m);
    EveryOtherGroupOnce(target, |m|);
    forall g | 0 <= g < |m| ensures FreeInRow(m[g]) == 0 {
      if g != target { StillExhausted(m, target, g); }
    }
  }

  /** The search upwards and downwards, one step. */
  lemma NearStep(target: int, i: int, n: int)
    requires n > 0 && i >= 0
    ensures i % 2 == 0 ==>
      NearGroup(target, i, n) == Grower(target, i, n) && Shrinker(target, i + 1, n) == Shrinker(target, i, n)
    ensures i % 2 == 0 ==> Grower(target, i + 1, n) == (Grower(target, i, n) + 1) % n
    ensures i % 2 != 0 ==>
      NearGroup(target, i, n) == Shrinker(target, i, n) && Grower(target, i + 1, n) == Grower(target, i, n)
    ensures i % 2 != 0 ==> Shrinker(target, i + 1, n) == (Shrinker(target, i, n) - 1) % n
    ensures 0 <= Grower(target, i, n) < n && 0 <= Shrinker(target, i, n) < n
  {
    ModStep(target + 1 + (i + 1) / 2, 1, n);
    ModStep(target - 1 - i / 2, -1, n);
  }

  /** First the group above, then the one below, then one further in either direction, each
      time round the end. */
  lemma NearOrder(target: int, i: nat, n: int)
    requires n > 0
    ensures NearGroup(target, 0, n) == (target + 1) % n && NearGroup(target, 1, n) == (target - 1) % n
    ensures NearGroup(target, i + 2, n) == (NearGroup(target, i, n) + if i % 2 == 0 then 1 else -1) % n
  {
    var offset, step := NearOffset(i), if i % 2 == 0 then 1 else -1;
    assert NearOffset(i + 2) == offset + step;
    ModStep(target + offset, step, n);
  }

  /** The next group upwards before step i. */
  ghost function Grower(target: int, i: int, n: int): int
    requires n > 0
  {
    (target + 1 + (i + 1) / 2) % n
  }

  ghost function Shrinker(target: int, i: int, n: int): int
    requires n > 0
  {
    (target - 1 - i / 2) % n
  }

  lemma NearStart(target: int, m: Bitmap)
    requires |m| > 0
    ensures Grower(target, 0, |m|) == (target + 1) % |m| && Shrinker(target, 0, |m|) == (target - 1) % |m|
    ensures NoneNear(m, target, 0)
  {
  }

  class FileSystem {
    const numGroups: int
    const blocksPerGroup: int
    const inodesPerGroup: int
    const largeFileException: int
    const spreadInodes: bool
    const contigAllocationPolicy: int
    const spreadDataBlocks: bool

    var dataBitmap: Bitmap
    var inodeBitmap: Bitmap
    var totalDataFree: int
    var totalInodesFree: int
    var dirData: map<int, seq<Entry>>
    var inodeType: map<int, Kind>
    var inodeBlocks: map<int, seq<int>>
    var nameToInode: map<Path, int>

    ghost function Cfg(): Config {
      Config(numGroups, blocksPerGroup, inodesPerGroup)
    }

    ghost function S(): State
      reads this
    {
      State(dataBitmap, inodeBitmap, totalDataFree, totalInodesFree, nameToInode, inodeType, inodeBlocks, dirData)
    }

    ghost predicate Valid()
      reads this
    {
      contigAllocationPolicy >= 1 && Consistent(Cfg(), S())
    }

    /** Everything free but the root directory's inode and block. */
    constructor (groups: int, blocks: int, inodes: int, largeFile: int, spreadI: bool, contig: int, spreadD: bool)
      requires groups >= 1 && blocks >= 1 && inodes >= 1 && contig >= 1
      ensures Valid() && S() == InitialState(Config(groups, blocks, inodes))
      ensures numGroups == groups && blocksPerGroup == blocks && inodesPerGroup == inodes
      ensures largeFileException == largeFile && spreadInodes == spreadI && contigAllocationPolicy == contig
      ensures spreadDataBlocks == spreadD
    {
      hide Consistent;
      numGroups, blocksPerGroup, inodesPerGroup, largeFileException := groups, blocks, inodes, largeFile;
      spreadInodes, contigAllocationPolicy, spreadDataBlocks := spreadI, contig, spreadD;
      dataBitmap := Put(AllFree(groups, blocks), Slot(0, 0), 0);
      inodeBitmap := Put(AllFree(groups, inodes), Slot(0, 0), 0);
      totalDataFree := blocks * groups - 1;
      totalInodesFree := inodes * groups - 1;
      dirData := map[0 := NewDir()];
      inodeType := map[0 := Directory];
      inodeBlocks := map[0 := [0]];
      nameToInode := map[[] := 0];
      InitialConsistent(Config(groups, blocks, inodes));
    }

    method GetFreeCount(row: seq<int>) returns (cnt: int)
      ensures cnt == FreeInRow(row)
    {
      cnt := 0;
      for i := 0 to |row|
        invariant cnt == FreeInRow(row[..i])
      {
        assert row[..i + 1][..i] == row[..i];
        if row[i] == FREE { cnt := cnt + 1; }
      }
      assert row[..|row|] == row;
    }

    /** The group with the most free slots, the first of several. */
    method FindMostFree(bitmap: Bitmap) returns (group: int)
      requires FreeIn(bitmap) > 0
      ensures MostFree(bitmap, group) && FreeInRow(bitmap[group]) > 0
    {
      hide FreeInRow, FreeIn;
      group := -1;
      var freeMax := 0;
      for g := 0 to |bitmap|
        invariant -1 <= group < g && freeMax >= 0 && (group == -1 <==> freeMax == 0)
        invariant group >= 0 ==> freeMax == FreeInRow(bitmap[group])
        invariant forall h :: 0 <= h < g ==> FreeInRow(bitmap[h]) <= freeMax
        invariant forall h :: 0 <= h < group ==> FreeInRow(bitmap[h]) < freeMax
      {
        var free := GetFreeCount(bitmap[g]);
        if free > freeMax { freeMax := free; group := g; }
      }
      SomeRowHasFree(bitmap);
    }

    /** The first group with a free inode, looking at the other groups alternately upwards
        and downwards: there is one whenever any inode is free, so the fallback of the
        last line is never taken. */
    method FindFreeInodesNear(target: int) returns (group: int, ghost at: int)
      requires numGroups > 0 && |inodeBitmap| == numGroups && 0 <= target < numGroups
      requires FreeInRow(inodeBitmap[target]) == 0 && FreeIn(inodeBitmap) > 0
      ensures 0 <= group < numGroups && FreeInRow(inodeBitmap[group]) > 0
      ensures 0 <= at < numGroups - 1 && group == NearGroup(target, at, numGroups) && NoneNear(inodeBitmap, target, at)
    {
      hide FreeInRow, FreeIn, NearGroup, NoneNear, Grower, Shrinker;
      var grower := (target + 1) % numGroups;
      var shrinker := (target - 1) % numGroups;
      NearStart(target, inodeBitmap);
      for i := 0 to numGroups - 1
        invariant grower == Grower(target, i, numGroups) && shrinker == Shrinker(target, i, numGroups)
        invariant NoneNear(inodeBitmap, target, i)
      {
        var currentGroup;
        NearStep(target, i, numGroups);
        if i % 2 == 0 {
          currentGroup := grower;
          grower := (grower + 1) % numGroups;
        } else {
          currentGroup := shrinker;
          shrinker := (shrinker - 1) % numGroups;
        }
        var free := GetFreeCount(inodeBitmap[currentGroup]);
        if free > 0 { return currentGroup, i; }
        OneMoreExhausted(inodeBitmap, target, i);
      }
      NoneAnywhere(inodeBitmap, target);
      assert false;
      group, at := 1, 0;
    }

    /** The group for a new inode: with its parent when that has room, else near it; a
        directory goes where most inodes are free. */
    method PickGroup(parent: Path, kind: Kind) returns (group: int)
      requires Valid() && kind != Nothing && parent in nameToInode && FreeIn(inodeBitmap) > 0
      ensures PickOk(Cfg(), inodeBitmap, nameToInode[parent], kind, spreadInodes, group)
    {
      hide FreeInRow, FreeIn, Consistent, SlotOf, NearGroup, NoneNear;
      NamedGroup(Cfg(), S(), parent);
      if kind == Regular && !spreadInodes {
        group := nameToInode[parent] / inodesPerGroup;
        var free := GetFreeCount(inodeBitmap[group]);
        if free == 0 {
          ghost var at;
          group, at := FindFreeInodesNear(group);
        }
      } else {
        group := FindMostFree(inodeBitmap);
      }
    }

    /** The first free inode of the group. */
    method FindFreeInode(group: int) returns (index: int)
      requires 0 <= group < |inodeBitmap|
      ensures -1 <= index < |inodeBitmap[group]|
      ensures index == -1 <==> FreeInRow(inodeBitmap[group]) == 0
      ensures index >= 0 ==> inodeBitmap[group][index] == FREE
      ensures forall i :: 0 <= i < index ==> inodeBitmap[group][i] != FREE
    {
      hide FreeInRow;
      RowHasFree(inodeBitmap[group]);
      index := -1;
      for i := 0 to |inodeBitmap[group]|
        invariant index == -1 && forall j :: 0 <= j < i ==> inodeBitmap[group][j] != FREE
      {
        if inodeBitmap[group][i] == FREE { return i; }
      }
    }

    /** The next chunk of blocks, no longer than what is needed, is free. */
    method RangeFree(group: int, index: int, needed: int, chunks: int) returns (free: bool)
      requires ConfigOk(Cfg()) && contigAllocationPolicy >= 1 && Shape(dataBitmap, numGroups, blocksPerGroup)
      requires 0 <= group < numGroups && 0 <= index < blocksPerGroup && needed >= 1 && chunks >= 1
      ensures free <==> var c := if needed < chunks then needed else chunks;
        index + c <= blocksPerGroup && forall i :: index <= i < index + c ==> dataBitmap[group][i] == FREE
    {
      var chunksFree := if needed < chunks then needed else chunks;
      var indexEnd := index + chunksFree - 1;
      if indexEnd >= blocksPerGroup { return false; }
      for i := index to indexEnd + 1
        invariant forall j :: index <= j < i ==> dataBitmap[group][j] == FREE
      {
        if dataBitmap[group][i] != FREE { return false; }
      }
      return true;
    }

    /** Find `size` free blocks, from `target` on. In the first round over the groups a
        block counts only if a whole chunk is free from there on; from the second round
        on any free block counts, which is why the search always ends. */
    method AllocateBlocks(target: int, size: int, inum: int) returns (taken: seq<Slot>, ghost visits: seq<seq<Slot>>)
      requires ConfigOk(Cfg()) && contigAllocationPolicy >= 1 && Shape(dataBitmap, numGroups, blocksPerGroup)
      requires 0 <= target < numGroups && 1 <= size <= FreeIn(dataBitmap) && inum != FREE
      modifies this`dataBitmap
      ensures Shape(dataBitmap, numGroups, blocksPerGroup)
      ensures |taken| == size && Took(old(dataBitmap), dataBitmap, taken, inum)
      ensures FreeIn(dataBitmap) == FreeIn(old(dataBitmap)) - size
      ensures Flat(visits) == taken && VisitsOk(visits, target, numGroups, largeFileException)
      ensures Searched(Search(old(dataBitmap), target, largeFileException, contigAllocationPolicy, size), visits)
    {
      hide FreeIn, FreeInRow, Flat, VisitsOk, Took, VisitGroup, AtIndex, Searched, Wanted, GapFrom, Standing,
        FullBehind;
      taken := [];
      var index := 0;
      var takenInGroup := 0;
      var currentGroup := target;
      var chunksFree := contigAllocationPolicy;
      visits := [[]];
      ghost var since := 0;
      ghost var before := dataBitmap;
      ghost var x := Search(before, target, largeFileException, contigAllocationPolicy, size);
      StartVisits(target, numGroups);
      AtStart(x);
      NothingTaken(before, inum);
      StandsAtStart(before, target);
      while true
        invariant 0 <= index < blocksPerGroup && 0 <= currentGroup < numGroups && |taken| < size && chunksFree >= 1
        invariant Shape(dataBitmap, numGroups, blocksPerGroup)
        invariant Took(before, dataBitmap, taken, inum) && FreeIn(dataBitmap) == FreeIn(before) - |taken|
        invariant visits != [] && Flat(visits) == taken && takenInGroup == |visits[|visits| - 1]|
        invariant largeFileException > 0 ==> takenInGroup < largeFileException
        invariant currentGroup == VisitGroup(target, |visits| - 1, numGroups)
        invariant chunksFree == if |visits| <= numGroups then contigAllocationPolicy else 1
        invariant AtIndex(x, visits, index) && Standing(dataBitmap, target, |visits|, since, index)
        invariant 0 <= since < numGroups && (|visits| <= numGroups ==> since == 0)
        decreases if |visits| <= numGroups then numGroups + 1 - |visits| else 0, size - |taken|, numGroups - since,
                  blocksPerGroup - index
      {
        var free := RangeFree(currentGroup, index, size - |taken|, chunksFree);
        WantedIs(x, |visits| - 1, |taken|, chunksFree);
        LookAt(x, dataBitmap, visits, index, Wanted(x, |visits| - 1, |taken|), inum);
        if free {
          ghost var s := Slot(currentGroup, index);
          TookOneMore(before, dataBitmap, taken, inum, s);
          FlatAppend(visits, s);
          StandsAfterTaking(dataBitmap, target, |visits|, since, index, inum);
          dataBitmap := Put(dataBitmap, Slot(currentGroup, index), inum);
          takenInGroup := takenInGroup + 1;
          taken := taken + [Slot(currentGroup, index)];
          visits := visits[|visits| - 1 := visits[|visits| - 1] + [s]];
          since := 0;
        } else {
          StandsAfterPassing(dataBitmap, target, |visits|, since, index);
        }
        index := index + 1;
        if |taken| == size {
          Over(x, visits, index);
          VisitsInOrder(x, visits);
          break;
        }
        if index == blocksPerGroup || (largeFileException > 0 && takenInGroup == largeFileException) {
          ghost var k := |visits| - 1;
          StandsInNext(dataBitmap, target, |visits|, since, index);
          FullBehindIs(dataBitmap, target, |visits|, since, index);
          since := FullBehind(dataBitmap, target, |visits|, since, index);
          OnToNext(x, visits, index);
          FlatNext(visits);
          NextGroup(target, k, numGroups);
          if 0 < k + 1 < numGroups { OnlyAfterRound(target, k + 1, numGroups); }
          takenInGroup := 0;
          index := 0;
          currentGroup := (currentGroup + 1) % numGroups;
          visits := visits + [[]];
          if currentGroup == target { chunksFree := 1; }
          RoundBegins(target, |visits| - 1, numGroups);
        }
      }
    }

    /** The checks made before anything is created. */
    method MayCreate(path: Path, size: int) returns (ok: bool)
      requires Valid() && path != []
      requires path[..|path| - 1] in nameToInode ==> IsDir(S(), path[..|path| - 1])
      ensures ok <==> CreateSucceeds(S(), path, size)
      ensures ok ==> path !in nameToInode && IsDir(S(), path[..|path| - 1]) && FreeIn(inodeBitmap) > 0
      ensures ok ==> !HasName(dirData[nameToInode[path[..|path| - 1]]], path[|path| - 1])
      ensures ok ==> size <= FreeIn(dataBitmap)
    {
      hide Consistent, FreeIn, CreateSucceeds, HasName;
      CreateSucceedsWhen(S(), path, size);
      ConsistentShape(Cfg(), S());
      if totalInodesFree == 0 { return false; }
      if totalDataFree < size { return false; }
      if path[..|path| - 1] !in nameToInode { return false; }
      var there := FindEntry(dirData[nameToInode[path[..|path| - 1]]], path[|path| - 1]);
      if there != -1 { return false; }
      NameIsNew(Cfg(), S(), path);
      return true;
    }

    /** The inode for a new file: the first free one of the group picked. */
    method ChooseInode(parent: Path, kind: Kind) returns (t: Slot)
      requires Valid() && kind != Nothing && parent in nameToInode && FreeIn(inodeBitmap) > 0
      ensures InBitmap(inodeBitmap, t) && At(inodeBitmap, t) == FREE
      ensures PickOk(Cfg(), inodeBitmap, nameToInode[parent], kind, spreadInodes, t.group)
      ensures forall i :: 0 <= i < t.index ==> inodeBitmap[t.group][i] != FREE
    {
      hide Consistent, FreeIn, FreeInRow, PickOk;
      var group := PickGroup(parent, kind);
      PickedHasFree(Cfg(), inodeBitmap, nameToInode[parent], kind, spreadInodes, group);
      var index := FindFreeInode(group);
      t := Slot(group, index);
    }

    /** The blocks for a new file, from its own group on or from the emptiest on. */
    method ChooseBlocks(group: int, size: int, inum: int) returns (taken: seq<Slot>, ghost visits: seq<seq<Slot>>)
      requires Valid() && 0 <= group < numGroups && 1 <= size <= FreeIn(dataBitmap) && inum != FREE
      modifies this`dataBitmap
      ensures |taken| == size && Took(old(dataBitmap), dataBitmap, taken, inum)
      ensures FreeIn(dataBitmap) == FreeIn(old(dataBitmap)) - size
      ensures BlocksNear(old(dataBitmap), taken, visits, group, spreadDataBlocks, largeFileException,
        contigAllocationPolicy)
    {
      hide Consistent, FreeIn, FreeInRow, BlocksNear, MostFree, Took, VisitsOk, Flat, Searched;
      ConsistentShape(Cfg(), S());
      ghost var before := dataBitmap;
      var target := group;
      if spreadDataBlocks {
        target := FindMostFree(dataBitmap);
        MostFreeIsGroup(dataBitmap, target);
      }
      taken, visits := AllocateBlocks(target, size, inum);
      BlocksNearBy(before, taken, visits, group, spreadDataBlocks, largeFileException, contigAllocationPolicy, target);
    }

    method BlockNumbers(slots: seq<Slot>) returns (blocks: seq<int>)
      ensures blocks == Numbers(slots, blocksPerGroup)
    {
      blocks := [];
      for k := 0 to |slots|
        invariant |blocks| == k && forall j :: 0 <= j < k ==> blocks[j] == Number(slots[j], blocksPerGroup)
      {
        blocks := blocks + [slots[k].index + slots[k].group * blocksPerGroup];
      }
    }

    /** Create a file or a directory: its inode and blocks are chosen, taken and recorded.
        It fails, changing nothing, exactly when no inode is free, too few blocks are, the
        parent is missing or the name is there already. The caller gives a canonical path
        other than the root, and a parent that is no regular file. */
    method DoCreate(path: Path, size: int, kind: Kind)
      returns (rc: int, ghost t: Slot, ghost taken: seq<Slot>, ghost visits: seq<seq<Slot>>)
      requires Valid() && path != [] && kind != Nothing && size >= 1
      requires path[..|path| - 1] in nameToInode ==> IsDir(S(), path[..|path| - 1])
      modifies this
      ensures Valid()
      ensures rc == 0 || rc == -1
      ensures rc == 0 <==> old(CreateSucceeds(S(), path, size))
      ensures rc == -1 ==> S() == old(S())
      ensures rc == 0 ==> CanCreate(Cfg(), old(S()), path, kind, t, taken, dataBitmap) && |taken| == size
      ensures rc == 0 ==> S() == Created(Cfg(), old(S()), path, kind, t, taken, dataBitmap)
      ensures rc == 0 ==> old(path[..|path| - 1] in nameToInode)
      ensures rc == 0 ==> PickOk(Cfg(), old(inodeBitmap), old(nameToInode)[path[..|path| - 1]], kind, spreadInodes,
        t.group)
      ensures rc == 0 ==> InBitmap(old(inodeBitmap), t)
      ensures rc == 0 ==> forall i :: 0 <= i < t.index ==> old(inodeBitmap)[t.group][i] != FREE
      ensures rc == 0 ==> BlocksNear(old(dataBitmap), taken, visits, t.group, spreadDataBlocks, largeFileException,
                                       contigAllocationPolicy)
    {
      hide Consistent, FreeIn, FreeInRow, CreateSucceeds, PickOk, Took, BlocksNear, Created, CanCreate, HasName;
      t, taken, visits := Slot(0, 0), [], [];
      ghost var s0 := S();
      var ok := MayCreate(path, size);
      if !ok { return -1, t, taken, visits; }
      var parent, filename := path[..|path| - 1], path[|path| - 1];
      var parentInode := nameToInode[parent];
      var slot := ChooseInode(parent, kind);
      t := slot;
      var inodeNumber := slot.index + slot.group * inodesPerGroup;
      NewNumber(Cfg(), s0, t);
      ConsistentShape(Cfg(), s0);
      var chosen;
      chosen, visits := ChooseBlocks(slot.group, size, inodeNumber);
      taken := chosen;
      CanCreateBy(Cfg(), s0, path, kind, t, taken, dataBitmap);
      CreateConsistent(Cfg(), s0, path, kind, t, taken, dataBitmap);
      CreatedIs(Cfg(), s0, path, kind, t, taken, dataBitmap);
      inodeBitmap := Put(inodeBitmap, slot, inodeNumber);
      dirData := dirData[parentInode := dirData[parentInode] + [Entry(filename, inodeNumber)]];
      inodeType := inodeType[inodeNumber := kind];
      var blocks := BlockNumbers(chosen);
      inodeBlocks := inodeBlocks[inodeNumber := blocks];
      nameToInode := nameToInode[path := inodeNumber];
      if kind == Directory { dirData := dirData[inodeNumber := NewDir()]; }
      totalInodesFree := totalInodesFree - 1;
      totalDataFree := totalDataFree - size;
      rc := 0;
    }

    /** Mark a file's blocks free, finding each by dividing by the number of groups. */
    method FreeBlocks(bs: seq<int>)
      requires numGroups > 0 && AllIn(dataBitmap, Slots(bs, numGroups))
      modifies this`dataBitmap
      ensures AllIn(old(dataBitmap), Slots(bs, numGroups))
      ensures dataBitmap == GiveBack(old(dataBitmap), Slots(bs, numGroups))
    {
      hide GiveBack, AllIn, InBitmap;
      ghost var slots := Slots(bs, numGroups);
      ghost var before := dataBitmap;
      GiveBackNone(before, slots);
      for k := 0 to |bs|
        invariant AllIn(before, slots[..k]) && dataBitmap == GiveBack(before, slots[..k])
      {
        GiveBackOneMore(before, slots, k);
        dataBitmap := Put(dataBitmap, Slot(bs[k] / numGroups, bs[k] % numGroups), FREE);
      }
      assert slots[..|bs|] == slots;
    }

    /** Delete a regular file. It fails, changing nothing, exactly when the path names no
        regular file. The slots that it frees are found by dividing by the number of groups,
        which the caller must know to stay within the bitmaps; the tables stay consistent if
        and only if that division is right. */
    method DoDelete(path: Path) returns (rc: int, ghost i: int)
      requires Valid() && path != []
      requires path[..|path| - 1] in nameToInode ==> IsDir(S(), path[..|path| - 1])
      requires IsRegular(S(), path) ==> WithinBitmaps(Cfg(), S(), nameToInode[path])
      modifies this
      ensures rc == 0 || rc == -1
      ensures rc == 0 <==> old(IsRegular(S(), path))
      ensures rc == -1 ==> S() == old(S())
      ensures rc == 0 ==> CanDelete(Cfg(), old(S()), path, i) && S() == Deleted(Cfg(), old(S()), path, i)
      ensures Valid() <==> rc == -1 || DividesRight(Cfg(), old(S()), old(nameToInode)[path])
    {
      hide Consistent, FreeIn, GiveBack, CanDelete, Deleted, HasName, AllIn, WithinBitmaps, BlocksRight;
      var parent, filename := path[..|path| - 1], path[|path| - 1];
      i := 0;
      ghost var s0 := S();
      if path in nameToInode { DeletesWhat(Cfg(), s0, path); }
      if parent !in nameToInode { return -1, i; }
      var parentInode := nameToInode[parent];
      var delIndex := FindEntry(dirData[parentInode], filename);
      if delIndex == -1 { return -1, i; }
      i := delIndex;
      EntryNames(Cfg(), s0, path, i);
      var inodeNumber := dirData[parentInode][delIndex].inum;
      if inodeType[inodeNumber] == Directory { return -1, i; }
      DeleteReady(Cfg(), s0, path, i);
      DeleteConsistent(Cfg(), s0, path, i);
      DeletedIs(Cfg(), s0, path, i);
      Remove(path, parentInode, delIndex, inodeNumber);
      rc := 0;
    }

    /** The changes a deletion makes, once its checks are passed. */
    method Remove(path: Path, parentInode: int, delIndex: int, inodeNumber: int)
      requires numGroups > 0 && inodeNumber in inodeBlocks
      requires parentInode in dirData && 0 <= delIndex < |dirData[parentInode]|
      requires AllIn(dataBitmap, Slots(inodeBlocks[inodeNumber], numGroups))
      requires InBitmap(inodeBitmap, SlotOf(inodeNumber, numGroups))
      modifies this
      ensures AllIn(old(dataBitmap), Slots(old(inodeBlocks)[inodeNumber], numGroups))
      ensures S() == State(
          GiveBack(old(dataBitmap), Slots(old(inodeBlocks)[inodeNumber], numGroups)),
          Put(old(inodeBitmap), SlotOf(inodeNumber, numGroups), FREE),
          old(totalDataFree) + |old(inodeBlocks)[inodeNumber]|, old(totalInodesFree) + 1,
          old(nameToInode) - {path}, old(inodeType)[inodeNumber := Nothing], old(inodeBlocks)[inodeNumber := []],
          old(dirData)[parentInode := Without(old(dirData)[parentInode], delIndex)])
    {
      hide GiveBack, AllIn, InBitmap, Put;
      dirData := dirData[parentInode := Without(dirData[parentInode], delIndex)];
      FreeBlocks(inodeBlocks[inodeNumber]);
      inodeBitmap := Put(inodeBitmap, Slot(inodeNumber / numGroups, inodeNumber % numGroups), FREE);
      nameToInode := nameToInode - {path};
      totalInodesFree := totalInodesFree + 1;
      totalDataFree := totalDataFree + |inodeBlocks[inodeNumber]|;
      inodeType := inodeType[inodeNumber := Nothing];
      inodeBlocks := inodeBlocks[inodeNumber := []];
    }
  }

  /** The path names a regular file. */
  ghost predicate IsRegular(s: State, path: Path) {
    && path in s.names && s.names[path] in s.kinds && s.kinds[s.names[path]] == Regular
    && s.names[path] in s.fileBlocks
  }

  lemma NothingTaken(m: Bitmap, owner: int)
    ensures Took(m, m, [], owner)
  {
  }

  function AllFree(groups: int, per: int): Bitmap
    requires groups >= 0 && per >= 0
  {
    seq(groups, g => seq(per, i => FREE))
  }

  lemma {:induction false} AllFreeCount(groups: int, per: int)
    requires groups >= 0 && per >= 0
    ensures FreeIn(AllFree(groups, per)) == groups * per
  {
    if groups > 0 {
      AllFreeRow(per);
      AllFreeCount(groups - 1, per);
      assert AllFree(groups, per)[..groups - 1] == AllFree(groups - 1, per);
      assert AllFree(groups, per)[groups - 1] == seq(per, i => FREE);
      assert groups * per == (groups - 1) * per + per;
    }
  }

  lemma {:induction false} AllFreeRow(per: int)
    requires per >= 0
    ensures FreeInRow(seq(per, i => FREE)) == per
  {
    if per > 0 {
      AllFreeRow(per - 1);
      assert seq(per, i => FREE)[..per - 1] == seq(per - 1, i => FREE);
    }
  }

  ghost function InitialState(c: Config): State
    requires ConfigOk(c)
  {
    State(Put(AllFree(c.groups, c.blocks), Slot(0, 0), 0), Put(AllFree(c.groups, c.inodes), Slot(0, 0), 0),
          c.blocks * c.groups - 1, c.inodes * c.groups - 1,
          map[[] := 0], map[0 := Directory], map[0 := [0]], map[0 := NewDir()])
  }

  lemma InitialConsistent(c: Config)
    requires ConfigOk(c)
    ensures Consistent(c, InitialState(c))
  {
    var s := InitialState(c);
    AllFreeCount(c.groups, c.blocks);
    AllFreeCount(c.groups, c.inodes);
    PutCounts(AllFree(c.groups, c.blocks), Slot(0, 0), 0);
    PutCounts(AllFree(c.groups, c.inodes), Slot(0, 0), 0);
    InitialInodes(c);
    InitialOwners(c);
    NewDirOk(s, []);
  }

  lemma InitialInodes(c: Config)
    requires ConfigOk(c)
    ensures InodesOk(c, InitialState(c))
  {
    var s := InitialState(c);
    assert [] in s.names && s.names[[]] == 0;
    forall u | InBitmap(s.inodeBitmap, u)
      ensures At(s.inodeBitmap, u) == if Named(s, Number(u, c.inodes)) then Number(u, c.inodes) else FREE
    {
      NumberInverse(u, c.inodes);
      NumberInverse(Slot(0, 0), c.inodes);
    }
  }

  lemma InitialOwners(c: Config)
    requires ConfigOk(c)
    ensures OwnersOk(c, InitialState(c)) && BlocksOk(c, InitialState(c))
  {
    var s := InitialState(c);
    assert [] in s.names && s.names[[]] == 0;
    assert s.fileBlocks[0] == [0];
    assert Number(Slot(0, 0), c.blocks) == 0;
    assert SlotOf(0, c.blocks) == Slot(0, 0);
  }

  /** Where a new inode may go: always to a group with a free inode. */
  ghost predicate PickOk(c: Config, m: Bitmap, parent: int, kind: Kind, spread: bool, group: int) {
    && 0 <= group < |m| && FreeInRow(m[group]) > 0 && c.inodes > 0
    && if kind == Regular && !spread then
         var home := parent / c.inodes;
         && 0 <= home < |m|
         && if FreeInRow(m[home]) > 0 then group == home
            else exists at :: 0 <= at < |m| - 1 && group == NearGroup(home, at, |m|) && NoneNear(m, home, at)
       else MostFree(m, group)
  }

  /** The first of the groups with the most free slots. */
  ghost predicate MostFree(m: Bitmap, group: int) {
    && 0 <= group < |m|
    && (forall g :: 0 <= g < |m| ==> FreeInRow(m[g]) <= FreeInRow(m[group]))
    && (forall g :: 0 <= g < group ==> FreeInRow(m[g]) < FreeInRow(m[group]))
  }

  lemma NamedGroup(c: Config, s: State, p: Path)
    requires Consistent(c, s) && p in s.names
    ensures c.inodes > 0 && c.groups > 0 && |s.inodeBitmap| == c.groups && 0 <= s.names[p] / c.inodes < |s.inodeBitmap|
  {
    assert InBitmap(s.inodeBitmap, SlotOf(s.names[p], c.inodes));
  }

  ghost predicate CreateSucceeds(s: State, path: Path, size: int)
    requires path != []
  {
    && s.inodesFree > 0 && size <= s.dataFree && path[..|path| - 1] in s.names && s.names[path[..|path| - 1]] in s.dirs
    && !HasName(s.dirs[s.names[path[..|path| - 1]]], path[|path| - 1])
  }

  lemma CreateSucceedsWhen(s: State, path: Path, size: int)
    requires path != [] && (path[..|path| - 1] in s.names ==> IsDir(s, path[..|path| - 1]))
    ensures path[..|path| - 1] in s.names ==> s.names[path[..|path| - 1]] in s.dirs
    ensures CreateSucceeds(s, path, size) <==>
      && s.inodesFree > 0 && size <= s.dataFree && path[..|path| - 1] in s.names
      && !HasName(s.dirs[s.names[path[..|path| - 1]]], path[|path| - 1])
  {
  }

  lemma ConsistentShape(c: Config, s: State)
    requires Consistent(c, s)
    ensures ShapesOk(c, s)
  {
  }

  lemma PickedHasFree(c: Config, m: Bitmap, parent: int, kind: Kind, spread: bool, group: int)
    requires PickOk(c, m, parent, kind, spread, group)
    ensures 0 <= group < |m| && FreeInRow(m[group]) > 0
  {
  }

  lemma NewNumber(c: Config, s: State, t: Slot)
    requires Consistent(c, s) && InBitmap(s.inodeBitmap, t) && At(s.inodeBitmap, t) == FREE
    ensures Number(t, c.inodes) >= 0
  {
    FreeIsUnnamed(c, s, t);
  }

  /** The search for the blocks starts at the inode's own group, or at the emptiest. */
  ghost predicate BlocksNear(m: Bitmap, taken: seq<Slot>, visits: seq<seq<Slot>>, group: int, spread: bool, limit: int,
                             contig: int)
  {
    && Flat(visits) == taken && |m| > 0
    && exists target ::
      && (if spread then MostFree(m, target) else target == group) && VisitsOk(visits, target, |m|, limit)
      && Searched(Search(m, target, limit, contig, |taken|), visits)
  }

  lemma BlocksNearBy(m: Bitmap, taken: seq<Slot>, visits: seq<seq<Slot>>, group: int, spread: bool, limit: int,
                     contig: int, target: int)
    requires Flat(visits) == taken && |m| > 0 && VisitsOk(visits, target, |m|, limit)
    requires Searched(Search(m, target, limit, contig, |taken|), visits)
    requires if spread then MostFree(m, target) else target == group
    ensures BlocksNear(m, taken, visits, group, spread, limit, contig)
  {
  }

  lemma OneMostFree(m: Bitmap, a: int, b: int)
    requires MostFree(m, a) && MostFree(m, b)
    ensures a == b
  {
    assert FreeInRow(m[a]) == FreeInRow(m[b]);
  }

  /** So the policies fix the blocks. */
  lemma OnePlacement(m: Bitmap, taken: seq<Slot>, visits: seq<seq<Slot>>, taken': seq<Slot>, visits': seq<seq<Slot>>,
                     group: int, spread: bool, limit: int, contig: int)
    requires BlocksNear(m, taken, visits, group, spread, limit, contig) && contig >= 1 && |taken| == |taken'|
    requires BlocksNear(m, taken', visits', group, spread, limit, contig)
    ensures taken == taken'
  {
    hide Flat, Searched, VisitsOk, MostFree;
    var a :| (if spread then MostFree(m, a) else a == group) && VisitsOk(visits, a, |m|, limit)
             && Searched(Search(m, a, limit, contig, |taken|), visits);
    var b :| (if spread then MostFree(m, b) else b == group) && VisitsOk(visits', b, |m|, limit)
             && Searched(Search(m, b, limit, contig, |taken|), visits');
    if spread { OneMostFree(m, a, b); }
    OneSearch(Search(m, a, limit, contig, |taken|), visits, visits', |visits|);
  }

  lemma MostFreeIsGroup(m: Bitmap, group: int)
    requires MostFree(m, group)
    ensures 0 <= group < |m|
  {
  }

  /** What a name table says of a directory and a name in it. */
  lemma Lists(c: Config, s: State, p: Path, name: string)
    requires Consistent(c, s) && IsDir(s, p) && p + [name] in s.names
    ensures HasName(s.dirs[s.names[p]], name) && name != "." && name != ".."
  {
    hide ShapesOk, InodesOk, OwnersOk, BlocksOk, NamesOk, HasName;
    assert DirOk(s, p, s.dirs[s.names[p]]);
  }

  lemma ParentIsDir(c: Config, s: State, p: Path)
    requires Consistent(c, s) && p in s.names && p != []
    ensures IsDir(s, p[..|p| - 1])
  {
    hide ShapesOk, InodesOk, OwnersOk, BlocksOk, HasName, DirOk;
  }

  lemma NameIsNew(c: Config, s: State, path: Path)
    requires Consistent(c, s) && path != [] && IsDir(s, path[..|path| - 1])
    requires !HasName(s.dirs[s.names[path[..|path| - 1]]], path[|path| - 1])
    ensures path !in s.names
  {
    hide Consistent, HasName;
    assert path[..|path| - 1] + [path[|path| - 1]] == path;
    if path in s.names { Lists(c, s, path[..|path| - 1], path[|path| - 1]); }
  }

  lemma CanCreateBy(c: Config, s: State, path: Path, kind: Kind, t: Slot, taken: seq<Slot>, data: Bitmap)
    requires path != [] && path !in s.names && kind != Nothing && IsDir(s, path[..|path| - 1])
    requires !HasName(s.dirs[s.names[path[..|path| - 1]]], path[|path| - 1])
    requires InBitmap(s.inodeBitmap, t) && At(s.inodeBitmap, t) == FREE
    requires Took(s.dataBitmap, data, taken, Number(t, c.inodes)) && FreeIn(data) == FreeIn(s.dataBitmap) - |taken|
    ensures CanCreate(c, s, path, kind, t, taken, data)
  {
  }

  lemma CreatedIs(c: Config, s: State, path: Path, kind: Kind, t: Slot, taken: seq<Slot>, data: Bitmap)
    requires CanCreate(c, s, path, kind, t, taken, data)
    ensures IsDir(s, path[..|path| - 1]) && InBitmap(s.inodeBitmap, t)
    ensures var n, parent := Number(t, c.inodes), s.names[path[..|path| - 1]];
      var dirs1 := s.dirs[parent := s.dirs[parent] + [Entry(path[|path| - 1], n)]];
      Created(c, s, path, kind, t, taken, data)
      == State(data, Put(s.inodeBitmap, t, n), s.dataFree - |taken|, s.inodesFree - 1,
               s.names[path := n], s.kinds[n := kind], s.fileBlocks[n := Numbers(taken, c.blocks)],
               if kind == Directory then dirs1[n := NewDir()] else dirs1)
  {
  }

  /** A path that names something is an entry of its parent directory. */
  lemma DeletesWhat(c: Config, s: State, path: Path)
    requires Consistent(c, s) && path != [] && path in s.names
    ensures IsDir(s, path[..|path| - 1]) && HasName(s.dirs[s.names[path[..|path| - 1]]], path[|path| - 1])
    ensures path[|path| - 1] != "." && path[|path| - 1] != ".."
  {
    hide Consistent, HasName;
    assert path[..|path| - 1] + [path[|path| - 1]] == path;
    ParentIsDir(c, s, path);
    Lists(c, s, path[..|path| - 1], path[|path| - 1]);
  }

  /** What an entry of a directory names. */
  lemma EntryIs(c: Config, s: State, p: Path, i: int)
    requires Consistent(c, s) && IsDir(s, p) && 0 <= i < |s.dirs[s.names[p]]|
    ensures var e := s.dirs[s.names[p]][i];
      if e.name == "." || e.name == ".." then e.inum == 0
      else p + [e.name] in s.names && s.names[p + [e.name]] == e.inum
  {
    hide ShapesOk, InodesOk, OwnersOk, BlocksOk, NamesOk, HasName;
    assert DirOk(s, p, s.dirs[s.names[p]]);
  }

  lemma KindOfNamed(c: Config, s: State, p: Path)
    requires Consistent(c, s)
    ensures 0 in s.kinds && s.kinds[0] == Directory
    ensures p in s.names ==> s.names[p] in s.kinds && s.kinds[s.names[p]] != Nothing
  {
    hide ShapesOk, InodesOk, OwnersOk, BlocksOk, DirsOk;
  }

  lemma EntryNames(c: Config, s: State, path: Path, i: int)
    requires Consistent(c, s) && path != [] && IsDir(s, path[..|path| - 1])
    requires var es := s.dirs[s.names[path[..|path| - 1]]];
      0 <= i < |es| && es[i].name == path[|path| - 1]
    ensures var n := s.dirs[s.names[path[..|path| - 1]]][i].inum;
      && n in s.kinds && (s.kinds[n] != Directory ==> path in s.names && s.names[path] == n && s.kinds[n] == Regular)
      && (path in s.names ==> s.names[path] == n)
  {
    hide Consistent;
    var p := path[..|path| - 1];
    assert p + [path[|path| - 1]] == path;
    if path in s.names { DeletesWhat(c, s, path); }
    EntryIs(c, s, p, i);
    KindOfNamed(c, s, path);
  }

  lemma DeleteReady(c: Config, s: State, path: Path, i: int)
    requires Consistent(c, s) && path != [] && IsDir(s, path[..|path| - 1]) && path in s.names
    requires s.names[path] in s.kinds && s.kinds[s.names[path]] == Regular
    requires IsRegular(s, path) && ConfigOk(c) ==> WithinBitmaps(c, s, s.names[path])
    requires var es := s.dirs[s.names[path[..|path| - 1]]];
      0 <= i < |es| && es[i] == Entry(path[|path| - 1], s.names[path])
    ensures CanDelete(c, s, path, i)
  {
    hide OwnersOk, DirsOk, SlotOf, DirOk, BlocksOk, InodesOk, WithinBitmaps;
  }

  lemma GiveBackNone(m: Bitmap, slots: seq<Slot>)
    ensures slots[..0] == [] && AllIn(m, slots[..0]) && GiveBack(m, slots[..0]) == m
  {
  }

  lemma GiveBackOneMore(m: Bitmap, slots: seq<Slot>, k: int)
    requires AllIn(m, slots) && 0 <= k < |slots|
    ensures AllIn(m, slots[..k])
    ensures AllIn(m, slots[..k + 1]) && InBitmap(GiveBack(m, slots[..k]), slots[k])
    ensures GiveBack(m, slots[..k + 1]) == Put(GiveBack(m, slots[..k]), slots[k], FREE)
  {
    assert slots[..k + 1][..k] == slots[..k];
    assert InBitmap(m, slots[k]);
  }

  lemma DeletedIs(c: Config, s: State, path: Path, i: int)
    requires CanDelete(c, s, path, i)
    ensures IsDir(s, path[..|path| - 1]) && path in s.names && s.names[path] in s.fileBlocks && c.groups > 0
    ensures AllIn(s.dataBitmap, Slots(s.fileBlocks[s.names[path]], c.groups))
    ensures InBitmap(s.inodeBitmap, SlotOf(s.names[path], c.groups))
    ensures 0 <= i < |s.dirs[s.names[path[..|path| - 1]]]|
    ensures var n, parent := s.names[path], s.names[path[..|path| - 1]];
      Deleted(c, s, path, i)
      == State(GiveBack(s.dataBitmap, Slots(s.fileBlocks[n], c.groups)), Put(s.inodeBitmap, SlotOf(n, c.groups), FREE),
               s.dataFree + |s.fileBlocks[n]|, s.inodesFree + 1,
               s.names - {path}, s.kinds[n := Nothing], s.fileBlocks[n := []],
               s.dirs[parent := Without(s.dirs[parent], i)])
  {
  }
}
