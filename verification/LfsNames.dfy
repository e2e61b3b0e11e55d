/**
 The file system as a user sees it: directories are maps from names to inode
 numbers, files are block maps. Slots, link counts and addresses are gone. The
 operations of the simulator implement the plain operations on this tree.
 */
module LfsNames {
  import opened LfsTable
  import opened LfsTableInv
  import opened LfsDisk
  import opened LfsRun

  datatype View =
    | Folder(names: map<string, int>)
    | Contents(size: int, blocks: seq<Option<string>>)

  type Tree = map<int, View>

  // ----- the plain operations

  function Find(a: Tree, d: int, name: string): int
    requires d in a && a[d].Folder?
  {
    if name in a[d].names then a[d].names[name] else -1
  }

  function FollowFrom(a: Tree, d: int, path: seq<string>): Walked
    requires |path| > 0
    decreases |path|
  {
    if d !in a || !a[d].Folder? then Crash
    else if |path| == 1 then At(d, path[0], Find(a, d, path[0]))
    else if Find(a, d, path[0]) == -1 then NoParent
    else FollowFrom(a, Find(a, d, path[0]), path[1..])
  }

  function Follow(a: Tree, path: string): Walked {
    var p := Split(path);
    if p[0] != "" then NotRooted else FollowFrom(a, 0, if |p| == 1 then p else p[1..])
  }

  predicate LeadsToFile(a: Tree, path: string) {
    var w := Follow(a, path);
    w.At? && w.inum in a && a[w.inum].Contents?
  }

  /** A missing name in a directory of fewer than 64 names, dots included. */
  predicate CanAdd(a: Tree, path: string) {
    var w := Follow(a, path);
    w.At? && w.inum == -1 && w.parent in a && a[w.parent].Folder? && |a[w.parent].names| < 64
  }

  function AddName(a: Tree, p: int, name: string, n: int): Tree
    requires p in a && a[p].Folder?
  {
    a[p := Folder(a[p].names[name := n])]
  }

  /** Some directory still has a name for inode `n`. */
  ghost predicate IsNamed(a: Tree, n: int) {
    exists d, name :: d in a && a[d].Folder? && name in a[d].names && a[d].names[name] == n
  }

  /** Take a name away; the file goes when no name is left. */
  ghost function RemoveName(a: Tree, p: int, name: string, n: int): Tree
    requires p in a && a[p].Folder?
  {
    var a1 := a[p := Folder(a[p].names - {name})];
    if IsNamed(a1, n) then a1 else a1 - {n}
  }

  function Overwrite(v: View, offset: int, data: seq<string>): View
    requires v.Contents? && |v.blocks| == 8 && 0 <= offset < 8
  {
    var end := WriteEnd(offset, |data|);
    Contents(end, seq(8, k requires 0 <= k < 8 => if offset <= k < end then Some(data[k - offset]) else v.blocks[k]))
  }

  ghost predicate EightBlocks(a: Tree) {
    forall i :: i in a && a[i].Contents? ==> |a[i].blocks| == 8
  }

  ghost function TreeStep(a: Tree, op: Op): Tree
    requires EightBlocks(a)
  {
    match op
    case Create(path, isFile, pick) =>
      if CanAdd(a, path) && 0 <= pick < 256 then
        AddName(a, Follow(a, path).parent, Follow(a, path).name, pick)
          [pick := if isFile then Contents(0, NoBlocks()) else Folder(map["." := pick, ".." := Follow(a, path).parent])]
      else a
    case Link(src, dst) =>
      if LeadsToFile(a, src) && CanAdd(a, dst)
      then AddName(a, Follow(a, dst).parent, Follow(a, dst).name, Follow(a, src).inum) else a
    case Write(path, offset, data) =>
      if LeadsToFile(a, path) && 0 <= offset < 8
      then a[Follow(a, path).inum := Overwrite(a[Follow(a, path).inum], offset, data)] else a
    case Delete(path) =>
      FollowIn(a, path);
      if LeadsToFile(a, path)
      then RemoveName(a, Follow(a, path).parent, Follow(a, path).name, Follow(a, path).inum) else a
    case Sync => a
  }

  lemma {:induction false} FollowedFrom(a: Tree, d: int, path: seq<string>)
    requires |path| > 0
    ensures var w := FollowFrom(a, d, path); w.At? ==> w.parent in a && a[w.parent].Folder?
    decreases |path|
  {
    if d in a && a[d].Folder? && |path| > 1 && Find(a, d, path[0]) != -1 {
      FollowedFrom(a, Find(a, d, path[0]), path[1..]);
    }
  }

  lemma FollowIn(a: Tree, path: string)
    ensures var w := Follow(a, path); w.At? ==> w.parent in a && a[w.parent].Folder?
  {
    var p := Split(path);
    if p[0] == "" { FollowedFrom(a, 0, if |p| == 1 then p else p[1..]); }
  }

  // ----- what a table of slots stands for

  function UsedNames(s: seq<Entry>): set<string> {
    set x | 0 <= x < |s| && !IsFree(s[x]) :: s[x].name
  }

  function NameMap(s: seq<Entry>): map<string, int> {
    map name | name in UsedNames(s) :: LookupSlots(s, name)
  }

  function ViewOf(v: Node): View {
    match v
    case Dir(_, slots) => Folder(NameMap(slots))
    case File(_, size, blocks) => Contents(size, blocks)
  }

  function TreeOf(t: Table): Tree {
    map i | i in t :: ViewOf(t[i])
  }

  ghost predicate SlotsOk(s: seq<Entry>) {
    SizeOk(s) && UniqueNames(s) && forall x :: 0 <= x < |s| ==> (IsFree(s[x]) <==> s[x].inum == -1)
  }

  lemma DirSlotsOk(t: Table, d: int)
    requires DirsOk(t) && d in t && t[d].Dir?
    ensures SlotsOk(t[d].slots)
  {
    DirIsOk(t, d);
  }

  /** Looking a name up in the slots and in the map is the same. */
  lemma LookupIsFind(s: seq<Entry>, name: string)
    requires SlotsOk(s)
    ensures name in NameMap(s) <==> LookupSlots(s, name) != -1
    ensures name in NameMap(s) ==> NameMap(s)[name] == LookupSlots(s, name)
  {
    var x := FindName(s, name);
    if name in UsedNames(s) {
      var y :| 0 <= y < |s| && !IsFree(s[y]) && s[y].name == name;
      assert x == y;
    }
  }

  lemma NameOfSlot(s: seq<Entry>, x: int)
    requires SlotsOk(s) && 0 <= x < |s| && !IsFree(s[x])
    ensures s[x].name in NameMap(s) && NameMap(s)[s[x].name] == s[x].inum
  {
    FindNameUnique(s, x);
    LookupIsFind(s, s[x].name);
  }

  lemma {:induction false} UsedCount(s: seq<Entry>, k: nat)
    requires k <= |s| && UniqueNames(s)
    ensures |UsedNames(s[..k])| <= k
    ensures |UsedNames(s[..k])| == k <==> forall x :: 0 <= x < k ==> !IsFree(s[x])
  {
    hide UsedNames, UniqueNames, IsFree;
    if k > 0 {
      UsedCount(s, k - 1);
      UsedGrows(s, k - 1);
    } else {
      NoneUsed();
      assert s[..0] == [];
    }
  }

  lemma NoneUsed()
    ensures UsedNames([]) == {}
  {
  }

  /** One slot more is one name more, unless it is free. */
  lemma UsedGrows(s: seq<Entry>, k: nat)
    requires k < |s| && UniqueNames(s)
    ensures s[k].name !in UsedNames(s[..k]) || IsFree(s[k])
    ensures UsedNames(s[..k + 1]) == UsedNames(s[..k]) + if IsFree(s[k]) then {} else {s[k].name}
  {
    var a, b := s[..k], s[..k + 1];
    assert b[k] == s[k];
    forall nm | nm in UsedNames(a) ensures nm in UsedNames(b) {
      var x :| 0 <= x < |a| && !IsFree(a[x]) && a[x].name == nm;
      assert b[x] == a[x];
    }
    forall nm | nm in UsedNames(b) ensures nm in UsedNames(a) || (nm == s[k].name && !IsFree(s[k])) {
      var x :| 0 <= x < |b| && !IsFree(b[x]) && b[x].name == nm;
      if x < k { assert a[x] == b[x]; }
    }
  }

  /** Full means 64 names. */
  lemma FullMeans64(s: seq<Entry>)
    requires SlotsOk(s)
    ensures Full(s) <==> |NameMap(s)| >= 64
  {
    UsedCount(s, |s|);
    assert s[..|s|] == s && NameMap(s).Keys == UsedNames(s);
    assert |NameMap(s)| == |NameMap(s).Keys|;
    if |UsedNames(s)| == |s| {
      assert FreeSlot(s) == |s|;
    }
  }

  /** A map that lists exactly the used slots is the name map. */
  lemma NameMapIs(s: seq<Entry>, m: map<string, int>)
    requires SlotsOk(s)
    requires forall x :: 0 <= x < |s| && !IsFree(s[x]) ==> s[x].name in m && m[s[x].name] == s[x].inum
    requires forall name :: name in m ==> exists x :: 0 <= x < |s| && !IsFree(s[x]) && s[x].name == name
    ensures NameMap(s) == m
  {
    hide IsFree, SizeOk;
    forall name ensures name in NameMap(s) <==> name in m {
      if name in m {
        var x :| 0 <= x < |s| && !IsFree(s[x]) && s[x].name == name;
        NameOfSlot(s, x);
      }
    }
    forall name | name in m ensures NameMap(s)[name] == m[name] {
      var x :| 0 <= x < |s| && !IsFree(s[x]) && s[x].name == name;
      NameOfSlot(s, x);
    }
  }

  lemma NamesAfterAdd(s: seq<Entry>, name: string, n: int)
    requires SlotsOk(s) && SlotsOk(AddSlot(s, Entry(name, n))) && !Full(s)
    requires name != "-" && LookupSlots(s, name) == -1
    ensures NameMap(AddSlot(s, Entry(name, n))) == NameMap(s)[name := n]
  {
    hide SizeOk, AddSlot, FreeSlot, FindName, UniqueNames, NameMap, LookupSlots;
    var s', m := AddSlot(s, Entry(name, n)), NameMap(s)[name := n];
    AddSlotEffect(s, Entry(name, n)) by { hide SlotsOk; }
    NotFoundIsFresh(s, name);
    var at := FreeSlot(s);
    forall x | 0 <= x < |s'| && !IsFree(s'[x]) ensures s'[x].name in m && m[s'[x].name] == s'[x].inum {
      if x != at { NameOfSlot(s, x); }
    }
    forall nm | nm in m ensures exists x :: 0 <= x < |s'| && !IsFree(s'[x]) && s'[x].name == nm {
      if nm == name {
        assert s'[at].name == nm && !IsFree(s'[at]);
      } else {
        var x := SlotOfName(s, nm);
        assert s'[x] == s[x];
      }
    }
    NameMapIs(s', m);
  }

  lemma SlotOfName(s: seq<Entry>, name: string) returns (x: int)
    requires name in NameMap(s)
    ensures 0 <= x < |s| && !IsFree(s[x]) && s[x].name == name
  {
    x :| 0 <= x < |s| && !IsFree(s[x]) && s[x].name == name;
  }

  lemma NamesAfterClear(s: seq<Entry>, name: string)
    requires SlotsOk(s) && FindName(s, name) < |s| && !IsFree(s[FindName(s, name)])
    requires SlotsOk(s[FindName(s, name) := FREE])
    ensures NameMap(s[FindName(s, name) := FREE]) == NameMap(s) - {name}
  {
    hide SizeOk, NameMap;
    var at := FindName(s, name);
    var s', m := s[at := FREE], NameMap(s) - {name};
    forall x | 0 <= x < |s'| && !IsFree(s'[x]) ensures s'[x].name in m && m[s'[x].name] == s'[x].inum {
      NameOfSlot(s, x);
      FindNameUnique(s, x);
    }
    forall nm | nm in m ensures exists x :: 0 <= x < |s'| && !IsFree(s'[x]) && s'[x].name == nm {
      var x := SlotOfName(s, nm);
      assert s'[x] == s[x];
    }
    NameMapIs(s', m);
  }

  lemma NamesOfNewDir(n: int, p: int)
    requires n != -1 && p != -1
    ensures NameMap(NewDirSlots(n, p)) == map["." := n, ".." := p]
  {
    var s, m := NewDirSlots(n, p), map["." := n, ".." := p];
    assert s[0].name == "." && s[1].name == ".." && "."[0] != '-' && |".."| != |"."|;
    NameMapIs(s, m);
  }

  // ----- the refinement

  lemma {:induction false} SameFollow(t: Table, d: int, path: seq<string>)
    requires DirsOk(t) && |path| > 0
    ensures FollowFrom(TreeOf(t), d, path) == WalkFrom(t, d, path)
    decreases |path|
  {
    hide NameMap, SlotsOk, LookupSlots, DirOk;
    if d in t && t[d].Dir? {
      DirSlotsOk(t, d);
      LookupIsFind(t[d].slots, path[0]);
      if |path| > 1 && Lookup(t, d, path[0]) != -1 { SameFollow(t, Lookup(t, d, path[0]), path[1..]); }
    }
  }

  /** Paths lead to the same place in the simulator and in the tree. */
  lemma SameTarget(t: Table, path: string)
    requires DirsOk(t)
    ensures Follow(TreeOf(t), path) == Target(t, path)
  {
    hide DirsOk, FollowFrom, WalkFrom, TreeOf;
    var p := Split(path);
    SameFollow(t, 0, if |p| == 1 then p else p[1..]);
  }

  lemma SameGuards(t: Table, path: string)
    requires DirsOk(t)
    ensures LeadsToFile(TreeOf(t), path) == FileTarget(t, path)
    ensures CanAdd(TreeOf(t), path) == FreshTarget(t, path)
  {
    hide NameMap, SlotsOk, Full, DirsOk, Target, Follow;
    SameTarget(t, path);
    var w := Target(t, path);
    if w.At? && w.parent in t && t[w.parent].Dir? {
      DirSlotsOk(t, w.parent);
      FullMeans64(t[w.parent].slots);
    }
  }

  lemma CreateRefinesTree(t: Table, p: int, name: string, n: int, isFile: bool)
    requires Inv(t) && CanCreate(t, p, name, n)
    ensures TreeOf(CreateNode(t, p, name, n, isFile))
      == AddName(TreeOf(t), p, name, n)[n := if isFile then Contents(0, NoBlocks()) else Folder(map["." := n,
        ".." := p])]
  {
    hide NameMap, SlotsOk, Full, DirsOk, AddSlot, NewDirSlots, LookupSlots, CountsOk, IsTree;
    CreateInv(t, p, name, n, isFile);
    var t' := CreateNode(t, p, name, n, isFile);
    DirSlotsOk(t, p);
    DirSlotsOk(t', p);
    NamesAfterAdd(t[p].slots, name, n);
    NamesOfNewDir(n, p);
  }

  lemma LinkRefinesTree(t: Table, p: int, name: string, n: int)
    requires Inv(t) && CanLink(t, p, name, n)
    ensures TreeOf(LinkNode(t, p, name, n)) == AddName(TreeOf(t), p, name, n)
  {
    hide NameMap, SlotsOk, Full, DirsOk, AddSlot, LookupSlots, CountsOk, IsTree;
    LinkInv(t, p, name, n);
    DirSlotsOk(t, p);
    DirSlotsOk(LinkNode(t, p, name, n), p);
    NamesAfterAdd(t[p].slots, name, n);
  }

  /** An inode has a name in the tree exactly when some slot names it. */
  lemma NamedMeansRef(t: Table, n: int)
    requires DirsOk(t) && n != -1
    ensures IsNamed(TreeOf(t), n) <==> RefSet(t, n) != {}
  {
    hide NameMap, SlotsOk, DirsOk, LookupSlots, IsFree, RefSet;
    if IsNamed(TreeOf(t), n) {
      var d, name :| d in TreeOf(t) && TreeOf(t)[d].Folder? && name in TreeOf(t)[d].names
        && TreeOf(t)[d].names[name] == n;
      DirSlotsOk(t, d);
      var x := SlotOfName(t[d].slots, name);
      NameOfSlot(t[d].slots, x);
      RefSetMember(t, Pos(d, x), n);
    }
    if RefSet(t, n) != {} {
      var q :| q in RefSet(t, n);
      RefSetMember(t, q, n);
      DirSlotsOk(t, q.d);
      UsedSlot(t[q.d].slots, q.x);
      NameOfSlot(t[q.d].slots, q.x);
      assert TreeOf(t)[q.d].names[t[q.d].slots[q.x].name] == n;
    }
  }

  lemma UsedSlot(s: seq<Entry>, x: int)
    requires SlotsOk(s) && 0 <= x < |s| && s[x].inum != -1
    ensures !IsFree(s[x])
  {
  }

  lemma DeleteRefinesTree(t: Table, p: int, name: string, n: int)
    requires Inv(t) && CanDelete(t, p, name, n)
    ensures TreeOf(DeleteNode(t, p, name, n)) == RemoveName(TreeOf(t), p, name, n)
  {
    hide NameMap, SlotsOk, DirsOk, CountsOk, IsTree, RefSet, FindName, IsNamed;
    DeleteInv(t, p, name, n);
    var t' := DeleteNode(t, p, name, n);
    FreedAtLastName(t, p, name, n);
    NamedMeansRef(t', n);
    DirSlotsOk(t, p);
    DirSlotsOk(t', p);
    UsedSlot(t[p].slots, FindName(t[p].slots, name));
    NamesAfterClear(t[p].slots, name);
    var a1 := TreeOf(t)[p := Folder(TreeOf(t)[p].names - {name})];
    forall i | i in t' ensures TreeOf(t')[i] == a1[i] {}
    SameNamed(TreeOf(t'), a1, n);
  }

  /** A file that is dropped from the tree, or not, names nothing itself. */
  lemma SameNamed(a: Tree, b: Tree, n: int)
    requires forall i :: i in a ==> i in b && a[i] == b[i]
    requires forall i :: i in b && i !in a ==> b[i].Contents?
    ensures IsNamed(a, n) == IsNamed(b, n)
  {
    if IsNamed(b, n) {
      var d, name :| d in b && b[d].Folder? && name in b[d].names && b[d].names[name] == n;
      assert d in a && a[d] == b[d];
    }
    if IsNamed(a, n) {
      var d, name :| d in a && a[d].Folder? && name in a[d].names && a[d].names[name] == n;
      assert d in b && a[d] == b[d];
    }
  }

  lemma StepTableRefinesTree(t: Table, op: Op)
    requires ShapeOk(t) && Inv(t) && Fits(t, op)
    ensures EightBlocks(TreeOf(t)) && TreeOf(StepTable(t, op)) == TreeStep(TreeOf(t), op)
  {
    hide CreateNode, LinkNode, WriteNode, DeleteNode, Target, Full, CountsOk, IsTree, DirsOk, NameMap,
      Follow, LeadsToFile, CanAdd, AddName, RemoveName, LookupSlots;
    match op
    case Create(path, isFile, pick) =>
      var w := Target(t, path); TargetIn(t, path); SameTarget(t, path); SameGuards(t, path);
      if FreshTarget(t, path) && 0 <= pick < 256 {
        DirIsSized(t, w.parent);
        CreateRefinesTree(t, w.parent, w.name, pick, isFile);
      }
    case Link(src, dst) =>
      var w := Target(t, dst); TargetIn(t, dst); SameTarget(t, dst); SameGuards(t, dst);
      SameTarget(t, src); SameGuards(t, src);
      if FileTarget(t, src) && FreshTarget(t, dst) {
        DirIsSized(t, w.parent);
        LinkRefinesTree(t, w.parent, w.name, Target(t, src).inum);
      }
    case Write(path, offset, data) =>
      SameTarget(t, path); SameGuards(t, path);
      if FileTarget(t, path) && 0 <= offset < 8 {
        WriteRefinesTree(t, Target(t, path).inum, offset, data);
      }
    case Delete(path) =>
      var w := Target(t, path); TargetIn(t, path); SameTarget(t, path); SameGuards(t, path);
      if FileTarget(t, path) { DeleteRefinesTree(t, w.parent, w.name, w.inum); }
    case Sync =>
  }

  lemma WriteRefinesTree(t: Table, n: int, offset: int, data: seq<string>)
    requires n in t && t[n].File? && |t[n].blocks| == 8 && 0 <= offset < 8
    ensures TreeOf(WriteNode(t, n, offset, data)) == TreeOf(t)[n := Overwrite(TreeOf(t)[n], offset, data)]
  {
    hide NameMap;
    assert ViewOf(WriteNode(t, n, offset, data)[n]).blocks == Overwrite(TreeOf(t)[n], offset, data).blocks;
  }

  /** Every operation, as written to the log, does to the tree of names exactly
      what the plain operation does; where the plain operation does nothing, the
      whole state is unchanged. */
  lemma StepRefinesTree(s: FS, op: Op, force: bool)
    requires WellFormed(s) && Inv(TableOf(s)) && Allowed(s, op)
    ensures var r := Step(s, op, force);
      && WellFormed(r) && EightBlocks(TreeOf(TableOf(s)))
      && TreeOf(TableOf(r)) == TreeStep(TreeOf(TableOf(s)), op)
    ensures !Succeeds(s, op) ==> Step(s, op, force) == s
  {
    hide Inv, Step, Target, StepTable, TreeStep, TreeOf, Full, Succeeds, CrOk, InodeAt, NodeOf;
    StepRefines(s, op, force);
    AllowedFits(s, op);
    ShapeOfInv(TableOf(s));
    StepTableRefinesTree(TableOf(s), op);
  }

  lemma ShapeOfInv(t: Table)
    requires Inv(t)
    ensures ShapeOk(t)
  {
  }
}
