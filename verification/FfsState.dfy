/**
 The tables of the FFS simulator as a value, the consistency that its verification
 pass checks and more, and what creating and deleting a file does to them.
 */
module FfsState {
  import opened DirEntries
  import opened FfsBitmap
  import opened Sequences

  datatype Kind = Nothing | Regular | Directory

  /** A canonical absolute path: its components, the root being empty. */
  type Path = seq<string>

  datatype Config = Config(groups: int, blocks: int, inodes: int)

  datatype State = State(
    dataBitmap: Bitmap, inodeBitmap: Bitmap, dataFree: int, inodesFree: int,
    names: map<Path, int>, kinds: map<int, Kind>, fileBlocks: map<int, seq<int>>, dirs: map<int, seq<Entry>>)

  ghost predicate ConfigOk(c: Config) {
    c.groups >= 1 && c.blocks >= 1 && c.inodes >= 1
  }

  /** The number of a slot, `per` slots to a group. */
  function Number(s: Slot, per: int): int {
    s.index + s.group * per
  }

  function SlotOf(n: int, per: int): Slot
    requires per > 0
  {
    Slot(n / per, n % per)
  }

  lemma NumberInverse(s: Slot, per: int)
    requires per > 0 && 0 <= s.index < per
    ensures SlotOf(Number(s, per), per) == s
  {
    var n := Number(s, per);
    assert n == per * (n / per) + n % per;
    var d := n / per - s.group;
    assert per * d == per * (n / per) - per * s.group;
    assert d >= 1 ==> per * d >= per;
    assert d <= -1 ==> per * d <= -per;
  }

  lemma SlotInverse(n: int, per: int)
    requires per > 0
    ensures Number(SlotOf(n, per), per) == n && 0 <= SlotOf(n, per).index < per
  {
    assert n == per * (n / per) + n % per;
  }

  ghost predicate Named(s: State, n: int) {
    exists p :: p in s.names && s.names[p] == n
  }

  ghost predicate ShapesOk(c: Config, s: State) {
    && ConfigOk(c) && Shape(s.dataBitmap, c.groups, c.blocks) && Shape(s.inodeBitmap, c.groups, c.inodes)
    && s.dataFree == FreeIn(s.dataBitmap) && s.inodesFree == FreeIn(s.inodeBitmap)
  }

  /** Every name has an inode of its own, with a kind and blocks. */
  ghost predicate NamesOk(s: State) {
    && [] in s.names && s.names[[]] == 0
    && (forall p, q :: p in s.names && q in s.names && s.names[p] == s.names[q] ==> p == q)
    && (forall p :: p in s.names ==>
          var n := s.names[p];
          && n >= 0 && n in s.fileBlocks && n in s.kinds && s.kinds[n] != Nothing
          && (s.kinds[n] == Directory ==> n in s.dirs))
  }

  /** An inode is marked used, with its own number, exactly when something is named by it. */
  ghost predicate InodesOk(c: Config, s: State) {
    && c.inodes > 0
    && (forall t :: InBitmap(s.inodeBitmap, t) ==>
          At(s.inodeBitmap, t) == if Named(s, Number(t, c.inodes)) then Number(t, c.inodes) else FREE)
    && (forall p :: p in s.names ==> InBitmap(s.inodeBitmap, SlotOf(s.names[p], c.inodes)))
  }

  /** Every used block belongs to exactly one named inode, which lists it. */
  ghost predicate OwnersOk(c: Config, s: State) {
    forall t :: InBitmap(s.dataBitmap, t) && At(s.dataBitmap, t) != FREE ==>
      && Named(s, At(s.dataBitmap, t)) && At(s.dataBitmap, t) in s.fileBlocks
      && Number(t, c.blocks) in s.fileBlocks[At(s.dataBitmap, t)]
  }

  /** A named inode's blocks are different blocks, all marked with its number: the
      check of the simulator's own verification pass. */
  ghost predicate BlocksOk(c: Config, s: State) {
    forall p :: p in s.names && s.names[p] in s.fileBlocks ==> OwnsAll(c, s, s.names[p])
  }

  ghost predicate OwnsAll(c: Config, s: State, n: int)
    requires n in s.fileBlocks
  {
    var bs := s.fileBlocks[n];
    && c.blocks > 0
    && (forall i, j :: 0 <= i < j < |bs| ==> bs[i] != bs[j])
    && (forall i :: 0 <= i < |bs| ==>
          InBitmap(s.dataBitmap, SlotOf(bs[i], c.blocks)) && At(s.dataBitmap, SlotOf(bs[i], c.blocks)) == n)
  }

  /** A path that names a directory. */
  ghost predicate IsDir(s: State, p: Path) {
    p in s.names && s.names[p] in s.kinds && s.kinds[s.names[p]] == Directory && s.names[p] in s.dirs
  }

  /** The entry list of a directory and the name table agree. */
  ghost predicate DirsOk(s: State) {
    && (forall p :: IsDir(s, p) ==> DirOk(s, p, s.dirs[s.names[p]]))
    && (forall p :: p in s.names && p != [] ==>
          p[..|p| - 1] in s.names && s.names[p[..|p| - 1]] in s.kinds && s.kinds[s.names[p[..|p| - 1]]] == Directory)
  }

  ghost predicate DirOk(s: State, p: Path, es: seq<Entry>) {
    && (forall i, j :: 0 <= i < j < |es| ==> es[i].name != es[j].name)
    && HasName(es, ".") && HasName(es, "..")
    && (forall i :: 0 <= i < |es| ==>
          if es[i].name == "." || es[i].name == ".." then es[i].inum == 0
          else p + [es[i].name] in s.names && s.names[p + [es[i].name]] == es[i].inum)
    && (forall name :: p + [name] in s.names ==> HasName(es, name) && name != "." && name != "..")
  }

  ghost predicate RootOk(s: State) {
    [] in s.names && s.names[[]] == 0 && 0 in s.kinds && s.kinds[0] == Directory
  }

  ghost predicate Consistent(c: Config, s: State) {
    ShapesOk(c, s) && RootOk(s) && NamesOk(s) && InodesOk(c, s) && OwnersOk(c, s) && BlocksOk(c, s) && DirsOk(s)
  }

  // ----- create

  function NewDir(): seq<Entry> {
    [Entry(".", 0), Entry("..", 0)]
  }

  function Numbers(slots: seq<Slot>, per: int): seq<int> {
    seq(|slots|, i requires 0 <= i < |slots| => Number(slots[i], per))
  }

  /** The tables after creating `path` on inode slot `t` with the blocks `taken`. */
  ghost function Created(c: Config, s: State, path: Path, kind: Kind, t: Slot, taken: seq<Slot>, data: Bitmap): State
    requires path != [] && path[..|path| - 1] in s.names && s.names[path[..|path| - 1]] in s.dirs
    requires InBitmap(s.inodeBitmap, t)
  {
    var n, parent := Number(t, c.inodes), s.names[path[..|path| - 1]];
    var dirs1 := s.dirs[parent := s.dirs[parent] + [Entry(path[|path| - 1], n)]];
    State(data, Put(s.inodeBitmap, t, n), s.dataFree - |taken|, s.inodesFree - 1,
          s.names[path := n], s.kinds[n := kind], s.fileBlocks[n := Numbers(taken, c.blocks)],
          if kind == Directory then dirs1[n := NewDir()] else dirs1)
  }

  /** What creating a file starts from. */
  ghost predicate CanCreate(c: Config, s: State, path: Path, kind: Kind, t: Slot, taken: seq<Slot>, data: Bitmap) {
    && path != [] && path !in s.names && kind != Nothing && IsDir(s, path[..|path| - 1])
    && !HasName(s.dirs[s.names[path[..|path| - 1]]], path[|path| - 1])
    && InBitmap(s.inodeBitmap, t) && At(s.inodeBitmap, t) == FREE
    && Took(s.dataBitmap, data, taken, Number(t, c.inodes)) && FreeIn(data) == FreeIn(s.dataBitmap) - |taken|
  }

  lemma FreeIsUnnamed(c: Config, s: State, t: Slot)
    requires InodesOk(c, s) && InBitmap(s.inodeBitmap, t) && At(s.inodeBitmap, t) == FREE
    requires ConfigOk(c) && t.index >= 0 && t.group >= 0
    ensures Number(t, c.inodes) >= 0 && !Named(s, Number(t, c.inodes))
  {
    assert t.group * c.inodes >= 0;
  }

  lemma NamedAfterCreate(c: Config, s: State, path: Path, kind: Kind, t: Slot, taken: seq<Slot>, data: Bitmap, m: int)
    requires CanCreate(c, s, path, kind, t, taken, data)
    ensures var s' := Created(c, s, path, kind, t, taken, data);
      Named(s', m) <==> Named(s, m) || m == Number(t, c.inodes)
  {
    hide Took, FreeIn;
    var s' := Created(c, s, path, kind, t, taken, data);
    if Named(s, m) {
      var p :| p in s.names && s.names[p] == m;
      assert p in s'.names && s'.names[p] == m;
    }
    if m == Number(t, c.inodes) { assert path in s'.names && s'.names[path] == m; }
  }

  lemma CreateShapes(c: Config, s: State, path: Path, kind: Kind, t: Slot, taken: seq<Slot>, data: Bitmap)
    requires CanCreate(c, s, path, kind, t, taken, data) && ShapesOk(c, s) && Number(t, c.inodes) >= 0
    ensures ShapesOk(c, Created(c, s, path, kind, t, taken, data))
  {
    hide FreeIn;
    PutCounts(s.inodeBitmap, t, Number(t, c.inodes));
  }

  lemma CreateInodes(c: Config, s: State, path: Path, kind: Kind, t: Slot, taken: seq<Slot>, data: Bitmap)
    requires CanCreate(c, s, path, kind, t, taken, data) && ShapesOk(c, s) && InodesOk(c, s)
    ensures InodesOk(c, Created(c, s, path, kind, t, taken, data))
  {
    hide Took, FreeIn, Named, SlotOf, Number;
    var s' := Created(c, s, path, kind, t, taken, data);
    forall u | InBitmap(s'.inodeBitmap, u)
      ensures At(s'.inodeBitmap, u) == if Named(s', Number(u, c.inodes)) then Number(u, c.inodes) else FREE
    {
      NamedAfterCreate(c, s, path, kind, t, taken, data, Number(u, c.inodes));
      NumberInverse(u, c.inodes);
      NumberInverse(t, c.inodes);
    }
    NumberInverse(t, c.inodes);
    forall p | p in s'.names ensures InBitmap(s'.inodeBitmap, SlotOf(s'.names[p], c.inodes)) {
      if p != path { assert InBitmap(s.inodeBitmap, SlotOf(s.names[p], c.inodes)); }
    }
  }

  lemma CreateOwners(c: Config, s: State, path: Path, kind: Kind, t: Slot, taken: seq<Slot>, data: Bitmap)
    requires CanCreate(c, s, path, kind, t, taken, data) && ShapesOk(c, s) && OwnersOk(c, s)
    requires !Named(s, Number(t, c.inodes)) && Number(t, c.inodes) != FREE
    ensures OwnersOk(c, Created(c, s, path, kind, t, taken, data))
  {
    hide FreeIn, Named, SlotOf, Number;
    var s' := Created(c, s, path, kind, t, taken, data);
    forall u | InBitmap(data, u) && At(data, u) != FREE
      ensures Named(s', At(data, u)) && At(data, u) in s'.fileBlocks
      ensures Number(u, c.blocks) in s'.fileBlocks[At(data, u)]
    {
      NamedAfterCreate(c, s, path, kind, t, taken, data, At(data, u));
      assert InBitmap(s.dataBitmap, u);
      if u in taken {
        var k :| 0 <= k < |taken| && taken[k] == u;
        assert Numbers(taken, c.blocks)[k] == Number(u, c.blocks);
      }
    }
  }

  lemma CreateBlocks(c: Config, s: State, path: Path, kind: Kind, t: Slot, taken: seq<Slot>, data: Bitmap)
    requires CanCreate(c, s, path, kind, t, taken, data) && ShapesOk(c, s) && BlocksOk(c, s) && NamesOk(s)
    requires !Named(s, Number(t, c.inodes)) && Number(t, c.inodes) != FREE
    ensures BlocksOk(c, Created(c, s, path, kind, t, taken, data))
  {
    hide FreeIn, SlotOf, Number;
    var s' := Created(c, s, path, kind, t, taken, data);
    forall p | p in s'.names && s'.names[p] in s'.fileBlocks ensures OwnsAll(c, s', s'.names[p]) {
      if p == path {
        TakenAreOwned(c, s', taken);
      } else {
        assert s.names[p] != Number(t, c.inodes);
        assert OwnsAll(c, s, s.names[p]);
      }
    }
  }

  lemma TakenAreOwned(c: Config, s: State, taken: seq<Slot>)
    requires ConfigOk(c) && DistinctSlots(taken)
    requires forall k :: 0 <= k < |taken| ==> InBitmap(s.dataBitmap, taken[k]) && 0 <= taken[k].index < c.blocks
    ensures forall i, j :: 0 <= i < j < |taken| ==> Numbers(taken, c.blocks)[i] != Numbers(taken, c.blocks)[j]
    ensures forall i :: 0 <= i < |taken| ==> SlotOf(Numbers(taken, c.blocks)[i], c.blocks) == taken[i]
  {
    hide SlotOf, Number;
    forall i | 0 <= i < |taken| ensures SlotOf(Numbers(taken, c.blocks)[i], c.blocks) == taken[i] {
      NumberInverse(taken[i], c.blocks);
    }
    forall i, j | 0 <= i < j < |taken| ensures Numbers(taken, c.blocks)[i] != Numbers(taken, c.blocks)[j] {
      NumberInverse(taken[i], c.blocks);
      NumberInverse(taken[j], c.blocks);
    }
  }

  lemma CreateNames(c: Config, s: State, path: Path, kind: Kind, t: Slot, taken: seq<Slot>, data: Bitmap)
    requires CanCreate(c, s, path, kind, t, taken, data) && NamesOk(s)
    requires !Named(s, Number(t, c.inodes)) && Number(t, c.inodes) >= 0
    ensures NamesOk(Created(c, s, path, kind, t, taken, data))
  {
    hide FreeIn, SlotOf, Number, Took, HasName, Numbers;
  }

  lemma NoChildYet(s: State, path: Path, name: string)
    requires DirsOk(s) && path !in s.names
    ensures path + [name] !in s.names
  {
    hide DirOk;
    assert (path + [name])[..|path + [name]| - 1] == path;
  }

  /** A directory other than the parent keeps its entries when a path is added or
      taken away. */
  lemma OtherDirOk(s: State, s': State, p: Path, es: seq<Entry>, path: Path)
    requires DirOk(s, p, es) && path != [] && p != path[..|path| - 1]
    requires forall q :: q != path ==> (q in s'.names <==> q in s.names) && (q in s.names ==> s'.names[q] == s.names[q])
    ensures DirOk(s', p, es)
  {
    forall name ensures p + [name] != path { assert (p + [name])[..|p + [name]| - 1] == p; }
  }

  lemma ParentDirOk(s: State, s': State, path: Path, es: seq<Entry>, n: int)
    requires path != [] && path !in s.names && DirOk(s, path[..|path| - 1], es) && !HasName(es, path[|path| - 1])
    requires s'.names == s.names[path := n]
    ensures DirOk(s', path[..|path| - 1], es + [Entry(path[|path| - 1], n)])
  {
    hide HasName;
    var p, name := path[..|path| - 1], path[|path| - 1];
    var e := Entry(name, n);
    var es' := es + [e];
    assert p + [name] == path;
    forall nm ensures HasName(es', nm) <==> HasName(es, nm) || nm == name { NameAppended(es, e, nm); }
    forall i | 0 <= i < |es| ensures es[i].name != name { NameAt(es, i); }
    forall nm | p + [nm] in s'.names ensures HasName(es', nm) && nm != "." && nm != ".." {
      if p + [nm] == path { assert (p + [nm])[|p|] == nm; }
    }
  }

  lemma NewDirOk(s: State, p: Path)
    requires forall name :: p + [name] !in s.names
    ensures DirOk(s, p, NewDir())
  {
    var es := NewDir();
    assert es[0].name == "." && es[1].name == ".." && |es| == 2 && |".."| != |"."|;
  }

  lemma CreateDirs(c: Config, s: State, path: Path, kind: Kind, t: Slot, taken: seq<Slot>, data: Bitmap)
    requires CanCreate(c, s, path, kind, t, taken, data) && NamesOk(s) && DirsOk(s)
    requires !Named(s, Number(t, c.inodes))
    ensures DirsOk(Created(c, s, path, kind, t, taken, data))
  {
    hide FreeIn, SlotOf, Number, Took, HasName, DirOk, NewDir, Numbers, NamesOk;
    var s' := Created(c, s, path, kind, t, taken, data);
    forall p | p in s'.names && s'.names[p] in s'.kinds && s'.kinds[s'.names[p]] == Directory && s'.names[p] in s'.dirs
      ensures DirOk(s', p, s'.dirs[s'.names[p]])
    {
      CreateOneDir(c, s, path, kind, t, taken, data, p);
    }
    forall p | p in s'.names && p != []
      ensures p[..|p| - 1] in s'.names && s'.names[p[..|p| - 1]] in s'.kinds
      ensures s'.kinds[s'.names[p[..|p| - 1]]] == Directory
    {
      CreateParents(c, s, path, kind, t, taken, data, p);
    }
  }

  lemma CreateParents(c: Config, s: State, path: Path, kind: Kind, t: Slot, taken: seq<Slot>, data: Bitmap, p: Path)
    requires CanCreate(c, s, path, kind, t, taken, data) && DirsOk(s) && !Named(s, Number(t, c.inodes))
    requires p != [] && (p in s.names || p == path)
    ensures var s' := Created(c, s, path, kind, t, taken, data);
      p[..|p| - 1] in s'.names && s'.names[p[..|p| - 1]] in s'.kinds && s'.kinds[s'.names[p[..|p| - 1]]] == Directory
  {
    hide FreeIn, SlotOf, Number, Took, HasName, DirOk, NewDir, Numbers, Named, Put;
    var up := p[..|p| - 1];
    if p in s.names { assert s.kinds[s.names[up]] == Directory; }
    NotNew(s, Number(t, c.inodes), up);
  }

  lemma NotNew(s: State, n: int, p: Path)
    requires !Named(s, n)
    ensures p in s.names ==> s.names[p] != n
  {
  }

  lemma CreateOneDir(c: Config, s: State, path: Path, kind: Kind, t: Slot, taken: seq<Slot>, data: Bitmap, p: Path)
    requires CanCreate(c, s, path, kind, t, taken, data) && NamesOk(s) && DirsOk(s)
    requires !Named(s, Number(t, c.inodes))
    requires IsDir(Created(c, s, path, kind, t, taken, data), p)
    ensures var s' := Created(c, s, path, kind, t, taken, data);
      DirOk(s', p, s'.dirs[s'.names[p]])
  {
    hide FreeIn, SlotOf, Number, Took, HasName, DirOk, NewDir, Numbers, Named, Put;
    var s' := Created(c, s, path, kind, t, taken, data);
    var n, parent := Number(t, c.inodes), path[..|path| - 1];
    NotNew(s, n, p);
    NotNew(s, n, parent);
    if p == path {
      forall name ensures p + [name] !in s'.names {
        NoChildYet(s, path, name);
        assert |p + [name]| > |p|;
      }
      NewDirOk(s', p);
    } else {
      assert s.names[p] != n;
      assert DirOk(s, p, s.dirs[s.names[p]]);
      if p == parent {
        ParentDirOk(s, s', path, s.dirs[s.names[p]], n);
      } else {
        assert s.names[p] != s.names[parent];
        OtherDirOk(s, s', p, s.dirs[s.names[p]], path);
      }
    }
  }

  lemma CreateRoot(c: Config, s: State, path: Path, kind: Kind, t: Slot, taken: seq<Slot>, data: Bitmap)
    requires CanCreate(c, s, path, kind, t, taken, data) && RootOk(s) && !Named(s, Number(t, c.inodes))
    ensures RootOk(Created(c, s, path, kind, t, taken, data))
  {
    hide FreeIn, FreeInRow, Took, Number, HasName, Numbers;
  }

  /** Creating a file or a directory keeps the tables consistent. */
  lemma CreateConsistent(c: Config, s: State, path: Path, kind: Kind, t: Slot, taken: seq<Slot>, data: Bitmap)
    requires Consistent(c, s) && CanCreate(c, s, path, kind, t, taken, data)
    ensures Consistent(c, Created(c, s, path, kind, t, taken, data))
  {
    hide RootOk, NamesOk, InodesOk, OwnersOk, BlocksOk, DirsOk, Created, CanCreate, Named, Number;
    assert InBitmap(s.inodeBitmap, t)
      && At(s.inodeBitmap, t) == FREE by { CreateTakesFree(c, s, path, kind, t, taken, data); }
    FreeIsUnnamed(c, s, t);
    CreateShapes(c, s, path, kind, t, taken, data);
    CreateRoot(c, s, path, kind, t, taken, data);
    CreateNames(c, s, path, kind, t, taken, data);
    CreateInodes(c, s, path, kind, t, taken, data);
    CreateOwners(c, s, path, kind, t, taken, data);
    CreateBlocks(c, s, path, kind, t, taken, data);
    CreateDirs(c, s, path, kind, t, taken, data);
  }

  lemma CreateTakesFree(c: Config, s: State, path: Path, kind: Kind, t: Slot, taken: seq<Slot>, data: Bitmap)
    requires CanCreate(c, s, path, kind, t, taken, data)
    ensures InBitmap(s.inodeBitmap, t) && At(s.inodeBitmap, t) == FREE && t.index >= 0 && t.group >= 0
  {
  }

  // ----- the simulator's own verification pass

  function UsedIn(m: Bitmap): int {
    if m == [] then 0 else |m[|m| - 1]| - FreeInRow(m[|m| - 1]) + UsedIn(m[..|m| - 1])
  }

  lemma {:induction false} UsedAndFree(m: Bitmap, per: int)
    requires forall g :: 0 <= g < |m| ==> |m[g]| == per
    ensures UsedIn(m) + FreeIn(m) == |m| * per
  {
    if m != [] { UsedAndFree(m[..|m| - 1], per); }
  }

  /** What the pass asserts. */
  ghost predicate Verifies(c: Config, s: State) {
    && c.blocks > 0
    && UsedIn(s.dataBitmap) + s.dataFree == c.groups * c.blocks
    && UsedIn(s.inodeBitmap) + s.inodesFree == c.groups * c.inodes
    && (forall p :: p in s.names ==> s.names[p] in s.fileBlocks)
    && (forall p, b :: p in s.names && b in s.fileBlocks[s.names[p]] ==>
          InBitmap(s.dataBitmap, SlotOf(b, c.blocks)) && At(s.dataBitmap, SlotOf(b, c.blocks)) == s.names[p])
  }

  lemma ConsistentVerifies(c: Config, s: State)
    requires Consistent(c, s)
    ensures Verifies(c, s)
  {
    hide InodesOk, OwnersOk, DirsOk, ShapesOk, NamesOk, BlocksOk, RootOk;
    PartsVerify(c, s);
  }

  lemma PartsVerify(c: Config, s: State)
    requires ShapesOk(c, s) && NamesOk(s) && BlocksOk(c, s)
    ensures Verifies(c, s)
  {
    hide SlotOf, FreeIn, UsedIn;
    UsedAndFree(s.dataBitmap, c.blocks);
    UsedAndFree(s.inodeBitmap, c.inodes);
    forall p, b | p in s.names && b in s.fileBlocks[s.names[p]]
      ensures InBitmap(s.dataBitmap, SlotOf(b, c.blocks)) && At(s.dataBitmap, SlotOf(b, c.blocks)) == s.names[p]
    {
      assert OwnsAll(c, s, s.names[p]);
    }
  }

  /** No block is in two files, or twice in one. */
  lemma NoSharedBlock(c: Config, s: State, p: Path, q: Path, i: int, j: int)
    requires Consistent(c, s) && p in s.names && q in s.names
    requires 0 <= i < |s.fileBlocks[s.names[p]]| && 0 <= j < |s.fileBlocks[s.names[q]]|
    requires s.fileBlocks[s.names[p]][i] == s.fileBlocks[s.names[q]][j]
    ensures p == q && i == j
  {
    hide InodesOk, OwnersOk, DirsOk, SlotOf, FreeIn;
    assert OwnsAll(c, s, s.names[p]) && OwnsAll(c, s, s.names[q]);
  }
}
