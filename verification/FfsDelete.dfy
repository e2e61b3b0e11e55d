/** What deleting a file does to the tables of the FFS simulator. It finds the slots to free
    by dividing by the number of groups, which is right only for some numbers. */
module FfsDelete {
  import opened Arithmetic
  import opened DirEntries
  import opened FfsBitmap
  import opened FfsState
  import opened Sequences

  /** Dividing by the number of groups, as the deletion does, finds the right slot for
      every number if and only if there are as many slots to a group as groups. */
  lemma DeleteGeometry(groups: int, per: int)
    requires groups >= 1 && per >= 1
    ensures FindsSlots(groups, per) <==> groups == per
  {
    hide SlotOf;
    if groups != per {
      var w := if groups < per then groups else per;
      FirstOfSecond(w, if groups < per then per else groups);
      assert 0 <= w < groups * per by { MulBigger(groups, per); }
      assert SlotOf(w, groups) != SlotOf(w, per);
    }
  }

  ghost predicate FindsSlots(groups: int, per: int)
    requires groups >= 1 && per >= 1
  {
    forall b :: 0 <= b < groups * per ==> SlotOf(b, groups) == SlotOf(b, per)
  }

  lemma FirstOfSecond(small: int, big: int)
    requires 1 <= small < big
    ensures SlotOf(small, small).group == 1 && SlotOf(small, big).group == 0
  {
  }

  lemma MulBigger(x: int, y: int)
    requires x >= 1 && y >= 1 && x != y
    ensures (x * y > x && x < y) || (x * y > y && y < x)
  {
    if x < y {
      assert x * y == x + x * (y - 1) && x * (y - 1) >= 1 * (y - 1);
    } else {
      assert x * y == y + (x - 1) * y && (x - 1) * y >= (x - 1) * 1;
    }
  }

  ghost predicate AllIn(m: Bitmap, slots: seq<Slot>) {
    forall k :: 0 <= k < |slots| ==> InBitmap(m, slots[k])
  }

  /** Mark the slots free, one after the other. */
  ghost function GiveBack(m: Bitmap, slots: seq<Slot>): (r: Bitmap)
    requires AllIn(m, slots)
    ensures |r| == |m| && forall g :: 0 <= g < |m| ==> |r[g]| == |m[g]|
    decreases |slots|
  {
    if slots == [] then m
    else
      var last := |slots| - 1;
      assert AllIn(m, slots[..last]);
      var r0 := GiveBack(m, slots[..last]);
      assert InBitmap(m, slots[last]);
      Put(r0, slots[last], FREE)
  }

  lemma {:induction false} GivenBack(m: Bitmap, slots: seq<Slot>)
    requires AllIn(m, slots)
    ensures forall u :: InBitmap(m, u) ==>
      InBitmap(GiveBack(m, slots), u) && At(GiveBack(m, slots), u) == if u in slots then FREE else At(m, u)
    ensures DistinctSlots(slots) && (forall k :: 0 <= k < |slots| ==> At(m, slots[k]) != FREE) ==>
      FreeIn(GiveBack(m, slots)) == FreeIn(m) + |slots|
    decreases |slots|
  {
    hide FreeIn, FreeInRow;
    if slots != [] {
      var last := |slots| - 1;
      var rest := slots[..last];
      assert AllIn(m, rest);
      GivenBack(m, rest);
      assert InBitmap(m, slots[last]);
      assert slots == rest + [slots[last]];
      PutCounts(GiveBack(m, rest), slots[last], FREE);
    }
  }

  function Slots(ns: seq<int>, per: int): seq<Slot>
    requires per > 0
  {
    seq(|ns|, i requires 0 <= i < |ns| => SlotOf(ns[i], per))
  }

  /** What deleting a file starts from: entry `i` of its directory names it, and the slots
      that the division leads to are within the bitmaps. */
  ghost predicate CanDelete(c: Config, s: State, path: Path, i: int) {
    && path != [] && IsDir(s, path[..|path| - 1]) && path in s.names && ConfigOk(c)
    && var es := s.dirs[s.names[path[..|path| - 1]]];
    0 <= i < |es| && es[i] == Entry(path[|path| - 1], s.names[path])
    && s.names[path] in s.kinds && s.kinds[s.names[path]] == Regular && s.names[path] in s.fileBlocks
    && WithinBitmaps(c, s, s.names[path])
  }

  ghost predicate WithinBitmaps(c: Config, s: State, n: int)
    requires n in s.fileBlocks && ConfigOk(c)
  {
    AllIn(s.dataBitmap, Slots(s.fileBlocks[n], c.groups)) && InBitmap(s.inodeBitmap, SlotOf(n, c.groups))
  }

  ghost function Deleted(c: Config, s: State, path: Path, i: int): State
    requires CanDelete(c, s, path, i)
  {
    var n, parent := s.names[path], s.names[path[..|path| - 1]];
    State(GiveBack(s.dataBitmap, Slots(s.fileBlocks[n], c.groups)), Put(s.inodeBitmap, SlotOf(n, c.groups), FREE),
          s.dataFree + |s.fileBlocks[n]|, s.inodesFree + 1,
          s.names - {path}, s.kinds[n := Nothing], s.fileBlocks[n := []],
          s.dirs[parent := Without(s.dirs[parent], i)])
  }

  // ----- where the division is right

  /** Dividing by two different sizes leads to one slot only in the first group of both. */
  lemma SameSlot(n: int, x: int, y: int)
    requires n >= 0 && x >= 1 && y >= 1
    ensures SlotOf(n, x) == SlotOf(n, y) <==> x == y || (n < x && n < y)
  {
    Divided(n, x);
    Divided(n, y);
    if n < x { Quotient(n, x, 0, n); }
    if n < y { Quotient(n, y, 0, n); }
    var q := n / x;
    if SlotOf(n, x) == SlotOf(n, y) && q >= 1 {
      assert q * x == q * y;
      assert q * (x - y) == 0;
    }
  }

  /** The division is right for a file's blocks: the sizes are the same, or all of its
      blocks are in the first group, at numbers below the number of groups. */
  ghost predicate BlocksRight(c: Config, s: State, n: int)
    requires n in s.fileBlocks
  {
    c.groups == c.blocks || forall b :: b in s.fileBlocks[n] ==> b < c.groups && b < c.blocks
  }

  ghost predicate InodeRight(c: Config, n: int) {
    c.groups == c.inodes || (n < c.groups && n < c.inodes)
  }

  ghost predicate DividesRight(c: Config, s: State, n: int)
    requires n in s.fileBlocks
  {
    BlocksRight(c, s, n) && InodeRight(c, n)
  }

  /** The slots freed are the file's own. */
  ghost predicate FreesOwn(c: Config, s: State, n: int)
    requires n in s.fileBlocks && ConfigOk(c)
  {
    Slots(s.fileBlocks[n], c.groups) == Slots(s.fileBlocks[n], c.blocks)
  }

  lemma RightSlots(c: Config, s: State, n: int)
    requires ConfigOk(c) && n in s.fileBlocks && BlocksRight(c, s, n)
    requires forall b :: b in s.fileBlocks[n] ==> b >= 0
    ensures FreesOwn(c, s, n)
  {
    hide SlotOf;
    var bs := s.fileBlocks[n];
    forall k | 0 <= k < |bs| ensures SlotOf(bs[k], c.groups) == SlotOf(bs[k], c.blocks) {
      assert bs[k] in bs;
      SameSlot(bs[k], c.groups, c.blocks);
    }
  }

  /** A named inode and its blocks have no negative numbers. */
  lemma NumbersAreNatural(c: Config, s: State, path: Path)
    requires Consistent(c, s) && path in s.names
    ensures s.names[path] >= 0 && s.names[path] in s.fileBlocks && OwnsAll(c, s, s.names[path]) && ConfigOk(c)
    ensures forall b :: b in s.fileBlocks[s.names[path]] ==> b >= 0
  {
    hide InodesOk, OwnersOk, DirsOk, SlotOf;
    var bs := s.fileBlocks[s.names[path]];
    forall b | b in bs ensures b >= 0 {
      var k :| 0 <= k < |bs| && bs[k] == b;
      SlotInverse(b, c.blocks);
      assert SlotOf(bs[k], c.blocks).group >= 0;
      assert SlotOf(b, c.blocks).group * c.blocks >= 0;
    }
  }

  lemma NamedAfterDelete(c: Config, s: State, path: Path, i: int, m: int)
    requires CanDelete(c, s, path, i) && NamesOk(s)
    ensures Named(Deleted(c, s, path, i), m) <==> Named(s, m) && m != s.names[path]
  {
    hide GiveBack, FreeIn, SlotOf, AllIn;
    var s' := Deleted(c, s, path, i);
    if Named(s, m) && m != s.names[path] {
      var p :| p in s.names && s.names[p] == m;
      assert p in s'.names && s'.names[p] == m;
    }
    if Named(s', m) {
      var p :| p in s'.names && s'.names[p] == m;
      assert p in s.names && s.names[p] == m && p != path;
    }
  }

  /** The blocks of a named inode, as slots, are different and marked with its number. */
  lemma OwnedSlots(c: Config, s: State, n: int)
    requires n in s.fileBlocks && OwnsAll(c, s, n)
    ensures var slots := Slots(s.fileBlocks[n], c.blocks);
      && DistinctSlots(slots) && AllIn(s.dataBitmap, slots)
      && forall k :: 0 <= k < |slots| ==> At(s.dataBitmap, slots[k]) == n
  {
    hide SlotOf, Number;
    var slots, bs := Slots(s.fileBlocks[n], c.blocks), s.fileBlocks[n];
    forall i, j | 0 <= i < j < |slots| ensures slots[i] != slots[j] {
      SlotInverse(bs[i], c.blocks);
      SlotInverse(bs[j], c.blocks);
    }
  }

  lemma DeleteShapes(c: Config, s: State, path: Path, i: int)
    requires CanDelete(c, s, path, i) && ShapesOk(c, s) && OwnsAll(c, s, s.names[path]) && s.names[path] >= 0
    requires FreesOwn(c, s, s.names[path])
    requires At(s.inodeBitmap, SlotOf(s.names[path], c.groups)) != FREE
    ensures ShapesOk(c, Deleted(c, s, path, i))
  {
    hide FreeIn, GiveBack, SlotOf, AllIn;
    OwnedSlots(c, s, s.names[path]);
    GivenBack(s.dataBitmap, Slots(s.fileBlocks[s.names[path]], c.groups));
    PutCounts(s.inodeBitmap, SlotOf(s.names[path], c.groups), FREE);
  }

  lemma DeleteInodes(c: Config, s: State, path: Path, i: int)
    requires CanDelete(c, s, path, i) && InodesOk(c, s) && NamesOk(s) && ShapesOk(c, s)
    requires SlotOf(s.names[path], c.groups) == SlotOf(s.names[path], c.inodes)
    ensures InodesOk(c, Deleted(c, s, path, i))
    ensures At(s.inodeBitmap, SlotOf(s.names[path], c.groups)) == s.names[path]
  {
    hide FreeIn, GiveBack, SlotOf, Number, Named, AllIn;
    var s', n := Deleted(c, s, path, i), s.names[path];
    SlotInverse(n, c.inodes);
    assert Named(s, n) by { NameIsNamed(s, path); }
    forall u | InBitmap(s'.inodeBitmap, u)
      ensures At(s'.inodeBitmap, u) == if Named(s', Number(u, c.inodes)) then Number(u, c.inodes) else FREE
    {
      NamedAfterDelete(c, s, path, i, Number(u, c.inodes));
      NumberInverse(u, c.inodes);
      assert InBitmap(s.inodeBitmap, u);
    }
    forall p | p in s'.names ensures InBitmap(s'.inodeBitmap, SlotOf(s'.names[p], c.inodes)) {
      assert p in s.names && s'.names[p] == s.names[p];
    }
  }

  lemma NameIsNamed(s: State, p: Path)
    requires p in s.names
    ensures Named(s, s.names[p])
  {
  }

  lemma ListedIsSlot(c: Config, s: State, n: int, u: Slot)
    requires c.blocks > 0 && n in s.fileBlocks && 0 <= u.index < c.blocks
    ensures Number(u, c.blocks) in s.fileBlocks[n] ==> u in Slots(s.fileBlocks[n], c.blocks)
  {
    hide SlotOf, Number;
    if Number(u, c.blocks) in s.fileBlocks[n] {
      var k :| 0 <= k < |s.fileBlocks[n]| && s.fileBlocks[n][k] == Number(u, c.blocks);
      NumberInverse(u, c.blocks);
      assert Slots(s.fileBlocks[n], c.blocks)[k] == u;
    }
  }

  lemma DeleteOwners(c: Config, s: State, path: Path, i: int)
    requires CanDelete(c, s, path, i) && NamesOk(s) && OwnersOk(c, s) && ShapesOk(c, s)
    requires FreesOwn(c, s, s.names[path])
    ensures OwnersOk(c, Deleted(c, s, path, i))
  {
    hide FreeIn, GiveBack, SlotOf, Number, Named, AllIn;
    var s', n := Deleted(c, s, path, i), s.names[path];
    var slots := Slots(s.fileBlocks[n], c.blocks);
    GivenBack(s.dataBitmap, slots);
    forall u | InBitmap(s'.dataBitmap, u) && At(s'.dataBitmap, u) != FREE
      ensures Named(s', At(s'.dataBitmap, u)) && At(s'.dataBitmap, u) in s'.fileBlocks
      ensures Number(u, c.blocks) in s'.fileBlocks[At(s'.dataBitmap, u)]
    {
      assert InBitmap(s.dataBitmap, u);
      var m := At(s'.dataBitmap, u);
      NamedAfterDelete(c, s, path, i, m);
      ListedIsSlot(c, s, n, u);
    }
  }

  lemma DeleteBlocks(c: Config, s: State, path: Path, i: int)
    requires CanDelete(c, s, path, i) && NamesOk(s) && BlocksOk(c, s) && FreesOwn(c, s, s.names[path])
    ensures BlocksOk(c, Deleted(c, s, path, i)) && OwnsAll(c, s, s.names[path])
  {
    hide FreeIn, GiveBack, SlotOf, Number, Named;
    var s', n := Deleted(c, s, path, i), s.names[path];
    var slots := Slots(s.fileBlocks[n], c.blocks);
    OwnedSlots(c, s, n);
    GivenBack(s.dataBitmap, slots);
    forall p | p in s'.names && s'.names[p] in s'.fileBlocks ensures OwnsAll(c, s', s'.names[p]) {
      assert p in s.names && s.names[p] != n && s.names[p] in s.fileBlocks;
      assert OwnsAll(c, s, s.names[p]);
    }
  }

  lemma DeleteNames(c: Config, s: State, path: Path, i: int)
    requires CanDelete(c, s, path, i) && NamesOk(s)
    ensures NamesOk(Deleted(c, s, path, i))
  {
    hide FreeIn, GiveBack, SlotOf, Number, Named, AllIn, Without;
  }

  lemma ParentDirWithout(s: State, s': State, path: Path, es: seq<Entry>, i: int)
    requires path != [] && DirOk(s, path[..|path| - 1], es) && 0 <= i < |es| && es[i].name == path[|path| - 1]
    requires path in s.names && s'.names == s.names - {path}
    ensures DirOk(s', path[..|path| - 1], Without(es, i))
  {
    hide HasName, Without;
    var p, name := path[..|path| - 1], path[|path| - 1];
    var es' := Without(es, i);
    WithoutAt(es, i);
    assert p + [name] == path;
    forall nm ensures HasName(es', nm) <==> HasName(es, nm) && nm != name { NameWithout(es, i, nm); }
    forall nm | p + [nm] in s'.names ensures nm != name {
      assert (p + [nm])[|p|] == nm;
    }
    forall k | 0 <= k < |es'| && es'[k].name != "." && es'[k].name != ".." ensures p + [es'[k].name] != path {
      assert (p + [es'[k].name])[|p|] == es'[k].name;
    }
  }

  lemma DeleteDirs(c: Config, s: State, path: Path, i: int)
    requires CanDelete(c, s, path, i) && NamesOk(s) && DirsOk(s)
    ensures DirsOk(Deleted(c, s, path, i))
  {
    hide FreeIn, GiveBack, SlotOf, Number, Named, AllIn, Without, HasName, DirOk, NamesOk;
    var s' := Deleted(c, s, path, i);
    forall p | p in s'.names && s'.names[p] in s'.kinds && s'.kinds[s'.names[p]] == Directory && s'.names[p] in s'.dirs
      ensures DirOk(s', p, s'.dirs[s'.names[p]])
    {
      DeleteOneDir(c, s, path, i, p);
    }
    forall p | p in s'.names && p != []
      ensures p[..|p| - 1] in s'.names && s'.names[p[..|p| - 1]] in s'.kinds
      ensures s'.kinds[s'.names[p[..|p| - 1]]] == Directory
    {
      DeleteParents(c, s, path, i, p);
    }
  }

  lemma DeleteParents(c: Config, s: State, path: Path, i: int, p: Path)
    requires CanDelete(c, s, path, i) && NamesOk(s) && DirsOk(s) && p != [] && p in s.names
    ensures var s' := Deleted(c, s, path, i);
      p[..|p| - 1] in s'.names && s'.names[p[..|p| - 1]] in s'.kinds && s'.kinds[s'.names[p[..|p| - 1]]] == Directory
  {
    hide FreeIn, GiveBack, SlotOf, Number, Named, AllIn, Without, HasName, DirOk;
    assert s.kinds[s.names[p[..|p| - 1]]] == Directory;
  }

  lemma DeleteOneDir(c: Config, s: State, path: Path, i: int, p: Path)
    requires CanDelete(c, s, path, i) && NamesOk(s) && DirsOk(s) && IsDir(Deleted(c, s, path, i), p)
    ensures var s' := Deleted(c, s, path, i);
      DirOk(s', p, s'.dirs[s'.names[p]])
  {
    hide FreeIn, GiveBack, SlotOf, Number, Named, AllIn, Without, HasName, DirOk;
    var s', n := Deleted(c, s, path, i), s.names[path];
    var parent := path[..|path| - 1];
    assert p in s.names && s.names[p] != n && s.kinds[s.names[p]] == Directory;
    assert DirOk(s, p, s.dirs[s.names[p]]);
    if p == parent {
      ParentDirWithout(s, s', path, s.dirs[s.names[p]], i);
    } else {
      assert s.names[p] != s.names[parent];
      OtherDirOk(s, s', p, s.dirs[s.names[p]], path);
    }
  }

  lemma DeleteRoot(c: Config, s: State, path: Path, i: int)
    requires CanDelete(c, s, path, i) && RootOk(s)
    ensures RootOk(Deleted(c, s, path, i))
  {
    hide FreeIn, GiveBack, SlotOf, Number, Named, AllIn, Without;
  }

  lemma DeleteKeeps(c: Config, s: State, path: Path, i: int)
    requires Consistent(c, s) && CanDelete(c, s, path, i) && FreesOwn(c, s, s.names[path])
    requires SlotOf(s.names[path], c.groups) == SlotOf(s.names[path], c.inodes)
    ensures Consistent(c, Deleted(c, s, path, i))
  {
    hide RootOk, NamesOk, InodesOk, OwnersOk, BlocksOk, DirsOk, Deleted, CanDelete, Named, Number, GiveBack, OwnsAll,
      SlotOf, FreesOwn;
    NamePositive(c, s, path, i);
    DeleteBlocks(c, s, path, i);
    DeleteInodes(c, s, path, i);
    DeleteShapes(c, s, path, i);
    DeleteRoot(c, s, path, i);
    DeleteNames(c, s, path, i);
    DeleteOwners(c, s, path, i);
    DeleteDirs(c, s, path, i);
  }

  lemma NamePositive(c: Config, s: State, path: Path, i: int)
    requires NamesOk(s) && CanDelete(c, s, path, i)
    ensures path in s.names && s.names[path] >= 0 && s.names[path] in s.fileBlocks && ConfigOk(c)
  {
  }

  // ----- when the tables stay consistent

  /** The simulator's own verification passes after a deletion if and only if the division
      was right for the blocks and the inode slot it led to was in use, though it may have
      been another file's. */
  lemma DeleteVerifies(c: Config, s: State, path: Path, i: int)
    requires Consistent(c, s) && CanDelete(c, s, path, i)
    ensures var n := s.names[path];
      Verifies(c, Deleted(c, s, path, i)) <==>
      BlocksRight(c, s, n) && At(s.inodeBitmap, SlotOf(n, c.groups)) != FREE
  {
    hide RootOk, InodesOk, OwnersOk, DirsOk, Named, Number, GiveBack, SlotOf, FreeIn, UsedIn, BlocksRight, FreesOwn,
      NamesOk, BlocksOk, OwnsAll, IsDir, AllIn, Verifies;
    var s', n := Deleted(c, s, path, i), s.names[path];
    NumbersAreNatural(c, s, path);
    if BlocksRight(c, s, n) && At(s.inodeBitmap, SlotOf(n, c.groups)) != FREE {
      RightSlots(c, s, n);
      DeleteBlocks(c, s, path, i);
      DeleteShapes(c, s, path, i);
      DeleteNames(c, s, path, i);
      PartsVerify(c, s');
    }
    if Verifies(c, s') {
      CountsTell(c, s, path, i);
      BlocksTell(c, s, path, i);
    }
  }

  /** The tables stay consistent if and only if the division was right for the blocks and
      for the inode. */
  lemma DeleteConsistent(c: Config, s: State, path: Path, i: int)
    requires Consistent(c, s) && CanDelete(c, s, path, i)
    ensures Consistent(c, Deleted(c, s, path, i)) <==> DividesRight(c, s, s.names[path])
  {
    hide RootOk, InodesOk, OwnersOk, DirsOk, Named, Number, GiveBack, SlotOf, FreeIn, UsedIn, BlocksRight, FreesOwn,
      NamesOk, BlocksOk, OwnsAll, IsDir, AllIn, Verifies, ShapesOk;
    var s', n := Deleted(c, s, path, i), s.names[path];
    NumbersAreNatural(c, s, path);
    SameSlot(n, c.groups, c.inodes);
    if DividesRight(c, s, n) {
      RightSlots(c, s, n);
      DeleteKeeps(c, s, path, i);
    }
    if Consistent(c, s') {
      ConsistentVerifies(c, s');
      DeleteVerifies(c, s, path, i);
      OwnInodeFreed(c, s, path, i);
    }
  }

  /** If the inode bitmap is in order afterwards, the slot freed was the file's own. */
  lemma OwnInodeFreed(c: Config, s: State, path: Path, i: int)
    requires Consistent(c, s) && CanDelete(c, s, path, i) && s.names[path] >= 0
    requires InBitmap(s.inodeBitmap, SlotOf(s.names[path], c.inodes)) ==>
      At(Put(s.inodeBitmap, SlotOf(s.names[path], c.groups), FREE), SlotOf(s.names[path], c.inodes)) == FREE
      || InodesOk(c, Deleted(c, s, path, i))
    ensures SlotOf(s.names[path], c.groups) == SlotOf(s.names[path], c.inodes)
  {
    hide RootOk, OwnersOk, DirsOk, Named, Number, GiveBack, SlotOf, BlocksOk, AllIn, ShapesOk, IsDir;
    var n := s.names[path];
    assert InBitmap(s.inodeBitmap, SlotOf(n, c.inodes));
    SlotInverse(n, c.inodes);
    NameIsNamed(s, path);
    NamedAfterDelete(c, s, path, i, n);
  }

  /** Passing counts mean that every slot freed was in use. */
  lemma CountsTell(c: Config, s: State, path: Path, i: int)
    requires Consistent(c, s) && CanDelete(c, s, path, i) && Verifies(c, Deleted(c, s, path, i))
    ensures var slots := Slots(s.fileBlocks[s.names[path]], c.groups);
      forall k :: 0 <= k < |slots| ==> At(s.dataBitmap, slots[k]) != FREE
    ensures At(s.inodeBitmap, SlotOf(s.names[path], c.groups)) != FREE
  {
    hide RootOk, InodesOk, OwnersOk, DirsOk, Named, Number, GiveBack, SlotOf, FreeIn, UsedIn, NamesOk, BlocksOk,
      OwnsAll,
      IsDir;
    var s', n := Deleted(c, s, path, i), s.names[path];
    UsedAndFree(s'.dataBitmap, c.blocks);
    UsedAndFree(s'.inodeBitmap, c.inodes);
    AllWereUsed(s.dataBitmap, Slots(s.fileBlocks[n], c.groups));
    PutCounts(s.inodeBitmap, SlotOf(n, c.groups), FREE);
  }

  lemma {:induction false} AllWereUsed(m: Bitmap, slots: seq<Slot>)
    requires AllIn(m, slots)
    ensures FreeIn(GiveBack(m, slots)) <= FreeIn(m) + |slots|
    ensures FreeIn(GiveBack(m, slots)) == FreeIn(m) + |slots| ==>
      forall k :: 0 <= k < |slots| ==> At(m, slots[k]) != FREE
    decreases |slots|
  {
    hide FreeIn, FreeInRow;
    if slots != [] {
      var last := |slots| - 1;
      var rest := slots[..last];
      assert AllIn(m, rest);
      AllWereUsed(m, rest);
      GivenBack(m, rest);
      assert InBitmap(m, slots[last]);
      PutCounts(GiveBack(m, rest), slots[last], FREE);
      forall k | 0 <= k < |slots| && FreeIn(GiveBack(m, slots)) == FreeIn(m) + |slots| ensures At(m, slots[k]) != FREE {
        if k < last { assert rest[k] == slots[k]; }
      }
    }
  }

  /** Passing block checks mean that they were the file's own. */
  lemma BlocksTell(c: Config, s: State, path: Path, i: int)
    requires Consistent(c, s) && CanDelete(c, s, path, i) && Verifies(c, Deleted(c, s, path, i))
    ensures BlocksRight(c, s, s.names[path])
  {
    hide RootOk, InodesOk, OwnersOk, DirsOk, Named, Number, GiveBack, SlotOf, FreeIn, UsedIn, NamesOk, BlocksOk,
      OwnsAll,
      IsDir, Verifies;
    var n := s.names[path];
    var bs := s.fileBlocks[n];
    NumbersAreNatural(c, s, path);
    CountsTell(c, s, path, i);
    if c.groups != c.blocks {
      forall b | b in bs ensures Number(SlotOf(b, c.groups), c.blocks) in bs && SlotOf(b, c.groups).index < c.blocks {
        var k :| 0 <= k < |bs| && bs[k] == b;
        assert Slots(bs, c.groups)[k] == SlotOf(b, c.groups);
        FreedWasOwn(c, s, path, i, k);
      }
      var bound := Highest(bs);
      forall b | b in bs ensures b < c.groups && b < c.blocks { Closed(bs, c.groups, c.blocks, bound, b); }
    }
  }

  /** A slot freed that was in use was the file's own, or the check of its owner fails. */
  lemma FreedWasOwn(c: Config, s: State, path: Path, i: int, k: int)
    requires Consistent(c, s) && CanDelete(c, s, path, i) && Verifies(c, Deleted(c, s, path, i))
    requires 0 <= k < |s.fileBlocks[s.names[path]]|
    requires var u := Slots(s.fileBlocks[s.names[path]], c.groups)[k];
      InBitmap(s.dataBitmap, u) && At(s.dataBitmap, u) != FREE
    ensures var u := Slots(s.fileBlocks[s.names[path]], c.groups)[k];
      Number(u, c.blocks) in s.fileBlocks[s.names[path]] && u.index < c.blocks
  {
    hide RootOk, InodesOk, DirsOk, Named, Number, GiveBack, SlotOf, FreeIn, UsedIn, NamesOk, BlocksOk, OwnsAll, IsDir;
    var s', n := Deleted(c, s, path, i), s.names[path];
    var slots := Slots(s.fileBlocks[n], c.groups);
    var u := slots[k];
    var m := At(s.dataBitmap, u);
    GivenBack(s.dataBitmap, slots);
    assert u in slots && At(s'.dataBitmap, u) == FREE;
    assert Named(s, m) && Number(u, c.blocks) in s.fileBlocks[m];
    NumberInverse(u, c.blocks);
    NamedAfterDelete(c, s, path, i, m);
    if m != n { NamedBlock(c, s', m, Number(u, c.blocks)); }
  }

  lemma NamedBlock(c: Config, s: State, m: int, b: int)
    requires Verifies(c, s) && Named(s, m) && m in s.fileBlocks && b in s.fileBlocks[m]
    ensures InBitmap(s.dataBitmap, SlotOf(b, c.blocks)) && At(s.dataBitmap, SlotOf(b, c.blocks)) == m
  {
    hide SlotOf, UsedIn;
  }

  function Highest(bs: seq<int>): (h: int)
    ensures forall b :: b in bs ==> b <= h
  {
    if bs == [] then 0
    else
      var h := Highest(bs[1..]);
      assert bs == [bs[0]] + bs[1..];
      if bs[0] > h then bs[0] else h
  }

  /** If reading numbers by one size and writing them by another stays within a set, the set
      has no number beyond the first group. */
  lemma {:induction false} Closed(bs: seq<int>, g: int, p: int, bound: int, b: int)
    requires g >= 1 && p >= 1 && g != p && b in bs
    requires forall x :: x in bs ==> 0 <= x <= bound
    requires forall x :: x in bs ==> Number(SlotOf(x, g), p) in bs && SlotOf(x, g).index < p
    ensures b < g && b < p
    decreases if g < p then bound - b else b
  {
    var next := Number(SlotOf(b, g), p);
    Divided(b, g);
    NextNumber(b, g, p);
    if b >= g { Closed(bs, g, p, bound, next); }
  }

  lemma NextNumber(b: int, g: int, p: int)
    requires g >= 1 && p >= 1 && b >= 0 && SlotOf(b, g).index < p
    ensures var next := Number(SlotOf(b, g), p);
      && (b < g ==> b < p)
      && (b >= g ==> next >= p && (g < p ==> next > b) && (p < g ==> next < b))
  {
    Divided(b, g);
    var q := b / g;
    Times(q, 0, g);
    if q >= 1 {
      Times(1, q, p);
      Times(g, p, q);
      Times(p, g, q);
    }
  }

  // ----- deleting what was just created

  /** All that a deletion should give back is as it was. */
  ghost predicate Restored(s: State, s': State) {
    && s'.dataBitmap == s.dataBitmap && s'.inodeBitmap == s.inodeBitmap && s'.dataFree == s.dataFree
    && s'.inodesFree == s.inodesFree && s'.names == s.names && s'.dirs == s.dirs
  }

  /** Deleting the file just created restores bitmaps, counters, names and directories if
      and only if the division is right for its blocks and its inode. */
  lemma DeleteUndoesCreate(c: Config, s: State, path: Path, t: Slot, taken: seq<Slot>, data: Bitmap)
    requires Consistent(c, s) && CanCreate(c, s, path, Regular, t, taken, data)
    requires var s1, n := Created(c, s, path, Regular, t, taken, data), Number(t, c.inodes);
      n in s1.fileBlocks && WithinBitmaps(c, s1, n)
    ensures var s1 := Created(c, s, path, Regular, t, taken, data);
      var i := |s.dirs[s.names[path[..|path| - 1]]]|;
      && CanDelete(c, s1, path, i)
      && (Restored(s, Deleted(c, s1, path, i)) <==> DividesRight(c, s1, Number(t, c.inodes)))
  {
    hide FreeIn, FreeInRow, SlotOf, Number, Consistent, Verifies, HasName, GiveBack, AllIn, Numbers, Took, BlocksRight,
      FreesOwn;
    var s1, n := Created(c, s, path, Regular, t, taken, data), Number(t, c.inodes);
    var i := |s.dirs[s.names[path[..|path| - 1]]]|;
    CreateConsistent(c, s, path, Regular, t, taken, data);
    CreatedFile(c, s, path, t, taken, data);
    var s2 := Deleted(c, s1, path, i);
    DeleteConsistent(c, s1, path, i);
    DeleteVerifies(c, s1, path, i);
    NumbersAreNatural(c, s1, path);
    SameSlot(n, c.groups, c.inodes);
    if DividesRight(c, s1, n) {
      RightSlots(c, s1, n);
      GivesBack(c, s, path, t, taken, data);
    }
    if Restored(s, s2) {
      RestoredVerifies(c, s, s1, s2, path, i);
      OwnInodeFreed(c, s1, path, i);
    }
  }

  /** What creating a file leaves for its deletion. */
  lemma CreatedFile(c: Config, s: State, path: Path, t: Slot, taken: seq<Slot>, data: Bitmap)
    requires Consistent(c, s) && CanCreate(c, s, path, Regular, t, taken, data)
    ensures var s1, n := Created(c, s, path, Regular, t, taken, data), Number(t, c.inodes);
      var parent := path[..|path| - 1];
      && path in s1.names && s1.names[path] == n && n in s1.fileBlocks && s1.fileBlocks[n] == Numbers(taken, c.blocks)
      && IsDir(s1, parent) && s1.names[parent] == s.names[parent] && n in s1.kinds && s1.kinds[n] == Regular
      && s1.dirs[s.names[parent]] == s.dirs[s.names[parent]] + [Entry(path[|path| - 1], n)] && ConfigOk(c)
      && InBitmap(s.inodeBitmap, t) && SlotOf(n, c.inodes) == t && At(s.inodeBitmap, t) == FREE && n !in s.names.Values
      && s1.names == s.names[path := n] && s1.inodeBitmap == Put(s.inodeBitmap, t, n) && path !in s.names
  {
    hide FreeIn, FreeInRow, SlotOf, Number, InodesOk, BlocksOk, OwnersOk, DirsOk, HasName, Took, Numbers;
    FreshNumber(c, s, t);
    NumberInverse(t, c.inodes);
  }

  lemma GivesBack(c: Config, s: State, path: Path, t: Slot, taken: seq<Slot>, data: Bitmap)
    requires Consistent(c, s) && CanCreate(c, s, path, Regular, t, taken, data)
    requires var s1, n := Created(c, s, path, Regular, t, taken, data), Number(t, c.inodes);
      && CanDelete(c, s1, path, |s.dirs[s.names[path[..|path| - 1]]]|)
      && FreesOwn(c, s1, n) && SlotOf(n, c.groups) == SlotOf(n, c.inodes)
    ensures var s1 := Created(c, s, path, Regular, t, taken, data);
      Restored(s, Deleted(c, s1, path, |s.dirs[s.names[path[..|path| - 1]]]|))
  {
    hide FreeIn, FreeInRow, SlotOf, Number, NamesOk, InodesOk, BlocksOk, OwnersOk, DirsOk, HasName, GiveBack, AllIn;
    var n := Number(t, c.inodes);
    FreshNumber(c, s, t);
    NumberInverse(t, c.inodes);
    TakenAreOwned(c, s, taken);
    TakenBack(c, s, taken, data, n);
    SameBitmap(Put(Put(s.inodeBitmap, t, n), t, FREE), s.inodeBitmap);
    DirNumbers(s, path[..|path| - 1]);
    var es := s.dirs[s.names[path[..|path| - 1]]];
    assert Without(es + [Entry(path[|path| - 1], n)], |es|) == es;
  }

  lemma RestoredVerifies(c: Config, s: State, s1: State, s2: State, path: Path, i: int)
    requires Consistent(c, s) && CanDelete(c, s1, path, i) && s2 == Deleted(c, s1, path, i) && Restored(s, s2)
    requires s1.names[path] !in s.names.Values
    requires forall m :: m in s.fileBlocks && m != s1.names[path] ==>
      m in s1.fileBlocks && s1.fileBlocks[m] == s.fileBlocks[m]
    ensures Verifies(c, s2)
  {
    hide FreeIn, FreeInRow, SlotOf, Number, Consistent, HasName, GiveBack, AllIn, Named, OwnsAll, UsedIn;
    ConsistentVerifies(c, s);
    forall p | p in s2.names
      ensures s2.names[p] in s2.fileBlocks && s2.fileBlocks[s2.names[p]] == s.fileBlocks[s.names[p]]
    {
      assert p in s.names && s.names[p] in s.names.Values;
      assert s.names[p] != s1.names[path];
      assert s2.fileBlocks == s1.fileBlocks[s1.names[path] := []];
    }
  }

  lemma DirNumbers(s: State, parent: Path)
    requires NamesOk(s) && IsDir(s, parent)
    ensures s.names[parent] in s.dirs
  {
  }

  lemma TakenBack(c: Config, s: State, taken: seq<Slot>, data: Bitmap, n: int)
    requires ConfigOk(c) && Took(s.dataBitmap, data, taken, n)
    requires forall i :: 0 <= i < |taken| ==> SlotOf(Numbers(taken, c.blocks)[i], c.blocks) == taken[i]
    ensures Slots(Numbers(taken, c.blocks), c.blocks) == taken && AllIn(data, taken)
    ensures GiveBack(data, taken) == s.dataBitmap
  {
    hide FreeIn, FreeInRow, SlotOf, Number, GiveBack;
    assert Slots(Numbers(taken, c.blocks), c.blocks) == taken;
    assert AllIn(data, taken);
    GivenBack(data, taken);
    SameBitmap(GiveBack(data, taken), s.dataBitmap);
  }

  lemma FreshNumber(c: Config, s: State, t: Slot)
    requires InodesOk(c, s) && NamesOk(s) && ConfigOk(c) && InBitmap(s.inodeBitmap, t) && At(s.inodeBitmap, t) == FREE
    ensures forall p :: p in s.names ==> s.names[p] != Number(t, c.inodes)
  {
    hide SlotOf, Number;
    FreeIsUnnamed(c, s, t);
  }

  lemma SameBitmap(a: Bitmap, b: Bitmap)
    requires |a| == |b| && forall g :: 0 <= g < |a| ==> |a[g]| == |b[g]|
    requires forall u :: InBitmap(b, u) ==> InBitmap(a, u) && At(a, u) == At(b, u)
    ensures a == b
  {
    forall g | 0 <= g < |a| ensures a[g] == b[g] {
      forall i | 0 <= i < |a[g]| ensures a[g][i] == b[g][i] {
        assert InBitmap(b, Slot(g, i)) && At(a, Slot(g, i)) == At(b, Slot(g, i));
      }
    }
  }
}
