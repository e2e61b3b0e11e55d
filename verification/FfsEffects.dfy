/**
 What creating and deleting do to the tables of the FFS simulator, table by table.
 */
module FfsEffects {
  import opened Arithmetic
  import opened DirEntries
  import opened FfsBitmap
  import opened FfsDelete
  import opened FfsState
  import opened Sequences

  /** What every other path leads to is as it was, but for the directory's own entries. */
  ghost predicate OthersKept(s: State, s': State, path: Path, parent: int) {
    && (forall p :: p in s.names && p != path ==> p in s'.names && s'.names[p] == s.names[p])
    && (forall p :: p in s.names && p != path ==> KeptAt(s, s', s.names[p], parent))
  }

  ghost predicate KeptAt(s: State, s': State, n: int, parent: int) {
    && (n in s.kinds ==> n in s'.kinds && s'.kinds[n] == s.kinds[n])
    && (n in s.fileBlocks ==> n in s'.fileBlocks && s'.fileBlocks[n] == s.fileBlocks[n])
    && (n in s.dirs && n != parent ==> n in s'.dirs && s'.dirs[n] == s.dirs[n])
  }

  /** Inode n is of this kind and lists these blocks, in order. */
  ghost predicate IsMade(c: Config, s: State, n: int, kind: Kind, taken: seq<Slot>) {
    && n in s.kinds && s.kinds[n] == kind && n in s.fileBlocks && |s.fileBlocks[n]| == |taken|
    && (forall k :: 0 <= k < |taken| ==> s.fileBlocks[n][k] == taken[k].index + taken[k].group * c.blocks)
    && (kind == Directory ==> n in s.dirs && s.dirs[n] == [Entry(".", 0), Entry("..", 0)])
  }

  /** Directory d has one entry more, the last. */
  ghost predicate Appended(s: State, s': State, d: int, e: Entry) {
    d in s.dirs && d in s'.dirs && s'.dirs[d] == s.dirs[d] + [e]
  }

  /** Creation: the path leads to the number of its slot, with its kind and the numbers of the
      blocks in the order in which they were taken; it is the last entry of its directory; every
      other path keeps its inode, its blocks and its entries. */
  lemma CreateSeen(c: Config, s: State, path: Path, kind: Kind, t: Slot, taken: seq<Slot>, data: Bitmap)
    requires Consistent(c, s) && CanCreate(c, s, path, kind, t, taken, data)
    ensures var s', n := Created(c, s, path, kind, t, taken, data), t.index + t.group * c.inodes;
      var parent := s.names[path[..|path| - 1]];
      && s'.names == s.names[path := n] && OthersKept(s, s', path, parent)
      && IsMade(c, s', n, kind, taken) && Appended(s, s', parent, Entry(path[|path| - 1], n))
  {
    hide Consistent, FreeIn, FreeInRow, Took, HasName, Named;
    NumberIsNew(c, s, t);
    var s', n := Created(c, s, path, kind, t, taken, data), Number(t, c.inodes);
    forall p | p in s.names ensures s.names[p] != n { NamedBy(s, p); }
  }

  lemma NumberIsNew(c: Config, s: State, t: Slot)
    requires Consistent(c, s) && InBitmap(s.inodeBitmap, t) && At(s.inodeBitmap, t) == FREE
    ensures !Named(s, Number(t, c.inodes))
  {
    FreeIsUnnamed(c, s, t);
  }

  lemma NamedBy(s: State, p: Path)
    requires p in s.names
    ensures Named(s, s.names[p])
  {
  }

  /** The division by the number of groups, as the deletion does it, leads from one of these
      numbers to this slot. */
  ghost predicate LeadsTo(numbers: seq<int>, groups: int, u: Slot) {
    0 <= u.index < groups && u.group * groups + u.index in numbers
  }

  ghost predicate FreedAt(m: Bitmap, m': Bitmap, numbers: seq<int>, groups: int) {
    forall u :: InBitmap(m, u) ==>
      InBitmap(m', u) && At(m', u) == if LeadsTo(numbers, groups, u) then FREE else At(m, u)
  }

  /** Deletion: the path and its entry are gone, the others keep their order, every other path
      keeps its inode, its blocks and its entries, and the slots that the division leads to, and
      no others, become free. */
  lemma DeleteSeen(c: Config, s: State, path: Path, i: int)
    requires Consistent(c, s) && CanDelete(c, s, path, i)
    ensures var s', n, parent := Deleted(c, s, path, i), s.names[path], s.names[path[..|path| - 1]];
      && s'.names == s.names - {path} && OthersKept(s, s', path, parent)
      && n in s'.kinds && s'.kinds[n] == Nothing && n in s'.fileBlocks && s'.fileBlocks[n] == []
      && parent in s'.dirs && |s'.dirs[parent]| == |s.dirs[parent]| - 1
      && (forall j :: 0 <= j < |s'.dirs[parent]| ==> s'.dirs[parent][j] == s.dirs[parent][if j < i then j else j + 1])
      && s.dirs[parent][i].name == path[|path| - 1]
      && s'.dataFree == s.dataFree + |s.fileBlocks[n]| && s'.inodesFree == s.inodesFree + 1
      && FreedAt(s.dataBitmap, s'.dataBitmap, s.fileBlocks[n], c.groups)
      && FreedAt(s.inodeBitmap, s'.inodeBitmap, [n], c.groups)
  {
    hide Consistent, FreeIn, FreeInRow, HasName, Named, GiveBack, AllIn, InBitmap, LeadsTo;
    var n, parent := s.names[path], s.names[path[..|path| - 1]];
    NamesApart(c, s);
    WithoutAt(s.dirs[parent], i);
    Freed(s.dataBitmap, s.fileBlocks[n], c.groups);
    var slots := Slots([n], c.groups);
    assert slots == [SlotOf(n, c.groups)];
    forall u | InBitmap(s.inodeBitmap, u) ensures u == SlotOf(n, c.groups) <==> LeadsTo([n], c.groups, u) {
      LeadsToSlot([n], c.groups, u);
      assert u in slots <==> u == slots[0];
    }
  }

  lemma NamesApart(c: Config, s: State)
    requires Consistent(c, s)
    ensures forall p, q :: p in s.names && q in s.names && s.names[p] == s.names[q] ==> p == q
  {
  }

  lemma LeadsToSlot(numbers: seq<int>, groups: int, u: Slot)
    requires groups > 0
    ensures u in Slots(numbers, groups) <==> LeadsTo(numbers, groups, u)
  {
    hide SlotOf;
    if LeadsTo(numbers, groups, u) {
      var k :| 0 <= k < |numbers| && numbers[k] == u.group * groups + u.index;
      assert Number(u, groups) == numbers[k];
      NumberInverse(u, groups);
      assert Slots(numbers, groups)[k] == u;
    }
    if u in Slots(numbers, groups) {
      var k :| 0 <= k < |numbers| && Slots(numbers, groups)[k] == u;
      SlotInverse(numbers[k], groups);
      assert numbers[k] in numbers;
    }
  }

  lemma Freed(m: Bitmap, numbers: seq<int>, groups: int)
    requires groups > 0 && AllIn(m, Slots(numbers, groups))
    ensures FreedAt(m, GiveBack(m, Slots(numbers, groups)), numbers, groups)
  {
    hide GiveBack, AllIn, InBitmap, LeadsTo, Slots, FreeIn;
    GivenBack(m, Slots(numbers, groups));
    forall u ensures u in Slots(numbers, groups) <==> LeadsTo(numbers, groups, u) { LeadsToSlot(numbers, groups, u); }
  }
}
