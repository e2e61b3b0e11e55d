/**
 The file system of the log-structured simulator with its addresses resolved:
 one node per allocated inode number. A directory node lists its slots in the
 order in which the simulator scans them (block by block, eight slots each); a
 file node lists the contents behind its eight pointers.
 */
module LfsTable {

  datatype Option<T> = None | Some(value: T)

  datatype Entry = Entry(name: string, inum: int)

  const FREE := Entry("-", -1)

  datatype Node =
    | Dir(refs: int, slots: seq<Entry>)
    | File(refs: int, size: int, blocks: seq<Option<string>>)

  type Table = map<int, Node>

  /** A directory slot: slot `x` of directory `d`. */
  datatype Pos = Pos(d: int, x: int)

  // ----- looking names up

  /** The first slot called `name`, or |slots| when there is none. */
  function FindName(slots: seq<Entry>, name: string): (x: nat)
    ensures x <= |slots|
    ensures x < |slots| ==> slots[x].name == name
    ensures forall y :: 0 <= y < x ==> slots[y].name != name
  {
    if slots == [] then 0
    else if slots[0].name == name then 0
    else 1 + FindName(slots[1..], name)
  }

  function LookupSlots(slots: seq<Entry>, name: string): int {
    var x := FindName(slots, name);
    if x < |slots| then slots[x].inum else -1
  }

  function Lookup(t: Table, d: int, name: string): int
    requires d in t && t[d].Dir?
  {
    LookupSlots(t[d].slots, name)
  }

  /** What resolving a path can come to. `Crash` is the failed assertion of
      looking a name up in something that is not a directory. */
  datatype Walked =
    | NotRooted
    | NoParent
    | Crash
    | At(parent: int, name: string, inum: int)

  /** Resolve components `path` from directory `d`; the last one may be missing. */
  function WalkFrom(t: Table, d: int, path: seq<string>): Walked
    requires |path| > 0
    decreases |path|
  {
    if d !in t || !t[d].Dir? then Crash
    else if |path| == 1 then At(d, path[0], Lookup(t, d, path[0]))
    else
      var next := Lookup(t, d, path[0]);
      if next == -1 then NoParent else WalkFrom(t, next, path[1..])
  }

  /** Resolve a whole path, already split at its slashes. */
  function Walk(t: Table, path: seq<string>): Walked
    requires |path| > 0
  {
    if path[0] != "" then NotRooted
    else if |path| == 1 then WalkFrom(t, 0, path)
    else WalkFrom(t, 0, path[1..])
  }

  // ----- updating

  /** A slot called "-" is free. */
  predicate IsFree(e: Entry) {
    e.name == "-"
  }

  /** The first free slot, or |slots| when there is none. */
  function FreeSlot(slots: seq<Entry>): (x: nat)
    ensures x <= |slots|
    ensures x < |slots| ==> IsFree(slots[x])
    ensures forall y :: 0 <= y < x ==> !IsFree(slots[y])
  {
    FindName(slots, "-")
  }

  predicate Full(slots: seq<Entry>) {
    FreeSlot(slots) == |slots| && |slots| == 64
  }

  /** Put `e` in the first free slot, in a fresh block of eight if there is none. */
  function AddSlot(slots: seq<Entry>, e: Entry): seq<Entry> {
    var x := FreeSlot(slots);
    if x < |slots| then slots[x := e]
    else slots + [e, FREE, FREE, FREE, FREE, FREE, FREE, FREE]
  }

  function NewDirSlots(self: int, parent: int): seq<Entry> {
    [Entry(".", self), Entry("..", parent), FREE, FREE, FREE, FREE, FREE, FREE]
  }

  function NoBlocks(): seq<Option<string>> {
    [None, None, None, None, None, None, None, None]
  }

  function NewNode(isFile: bool, self: int, parent: int): Node {
    if isFile then File(1, 0, NoBlocks()) else Dir(2, NewDirSlots(self, parent))
  }

  function CreateNode(t: Table, p: int, name: string, n: int, isFile: bool): Table
    requires p in t && t[p].Dir?
  {
    t[p := Dir(t[p].refs + (if isFile then 0 else 1), AddSlot(t[p].slots, Entry(name, n)))]
     [n := NewNode(isFile, n, p)]
  }

  function LinkNode(t: Table, p: int, name: string, n: int): Table
    requires p in t && t[p].Dir? && n in t && t[n].File?
  {
    t[p := t[p].(slots := AddSlot(t[p].slots, Entry(name, n)))][n := t[n].(refs := t[n].refs + 1)]
  }

  function DeleteNode(t: Table, p: int, name: string, n: int): Table
    requires p in t && t[p].Dir? && n in t && t[n].File?
    requires FindName(t[p].slots, name) < |t[p].slots|
  {
    var t1 := t[p := t[p].(slots := t[p].slots[FindName(t[p].slots, name) := FREE])];
    if t[n].refs == 1 then t1 - {n}
    else if t[n].refs > 1 then t1[n := t[n].(refs := t[n].refs - 1)]
    else t1
  }

  /** Where a write at `offset` of `k` blocks stops: the inode has eight pointers. */
  function WriteEnd(offset: int, k: nat): int {
    if offset + k < 8 then offset + k else 8
  }

  function WriteNode(t: Table, n: int, offset: int, data: seq<string>): Table
    requires n in t && t[n].File? && |t[n].blocks| == 8 && 0 <= offset < 8
  {
    var end := WriteEnd(offset, |data|);
    t[n := File(t[n].refs, end,
                seq(8, k requires 0 <= k < 8 =>
                  if offset <= k < end then Some(data[k - offset]) else t[n].blocks[k]))]
  }

  // ----- the invariant

  ghost predicate SizeOk(s: seq<Entry>) {
    |s| % 8 == 0 && 8 <= |s| <= 64
  }

  /** The first two slots name the directory itself and its parent. */
  ghost predicate DotsOk(t: Table, d: int, s: seq<Entry>) {
    && |s| > 1 && s[0] == Entry(".", d) && s[1].name == ".."
    && s[1].inum in t && t[s[1].inum].Dir?
  }

  /** Free slots hold -1, the others live inode numbers. */
  ghost predicate EntriesOk(t: Table, s: seq<Entry>) {
    && (forall x :: 0 <= x < |s| ==> (IsFree(s[x]) <==> s[x].inum == -1))
    && (forall x :: 0 <= x < |s| && s[x].inum != -1 ==> s[x].inum in t)
  }

  /** No two slots in use share a name. */
  ghost predicate UniqueNames(s: seq<Entry>) {
    forall x, y :: 0 <= x < y < |s| && s[x].name == s[y].name ==> IsFree(s[x])
  }

  ghost predicate DirOk(t: Table, d: int)
    requires d in t && t[d].Dir?
  {
    SizeOk(t[d].slots) && DotsOk(t, d, t[d].slots) && EntriesOk(t, t[d].slots) && UniqueNames(t[d].slots)
  }

  ghost predicate IsSlot(t: Table, p: Pos) {
    p.d in t && t[p.d].Dir? && 0 <= p.x < |t[p.d].slots|
  }

  ghost predicate Names(t: Table, p: Pos, i: int) {
    IsSlot(t, p) && t[p.d].slots[p.x].inum == i
  }

  /** All slots of all directories. */
  ghost function AllSlots(t: Table): set<Pos> {
    set d, x | d in t.Keys && t[d].Dir? && 0 <= x < |t[d].slots| :: Pos(d, x)
  }

  /** The slots that name inode `i`, dots included: what a link count counts. */
  ghost function RefSet(t: Table, i: int): set<Pos> {
    set p | p in AllSlots(t) && Names(t, p, i)
  }

  ghost predicate DirsOk(t: Table) {
    forall d :: d in t && t[d].Dir? ==> DirOk(t, d)
  }

  ghost predicate CountsOk(t: Table) {
    forall i :: i in t ==> t[i].refs == |RefSet(t, i)|
  }

  /** Inode numbers are in range, the root is a directory, files have eight pointers. */
  ghost predicate ShapeOk(t: Table) {
    && (forall i :: i in t ==> 0 <= i < 256)
    && 0 in t && t[0].Dir?
    && FilesOk(t)
  }

  ghost predicate FilesOk(t: Table) {
    forall i :: i in t && t[i].File? ==> |t[i].blocks| == 8
  }

  /** Below the dots, the directories form a tree with root 0: `home` gives the
      one slot that names a directory, `depth` its distance from the root. */
  ghost predicate TreeOk(t: Table, home: map<int, Pos>, depth: map<int, nat>) {
    && (forall c :: c in t && t[c].Dir? ==> c in depth)
    && (0 in depth ==> depth[0] == 0)
    && (forall c :: c in t && t[c].Dir? && c != 0 ==>
          && c in home && home[c].x >= 2 && Names(t, home[c], c)
          && t[c].slots != [] && |t[c].slots| > 1 && t[c].slots[1].inum == home[c].d
          && home[c].d in depth && depth[c] == depth[home[c].d] + 1)
    && (forall p: Pos, c: int :: c in t && t[c].Dir? && p.x >= 2 && Names(t, p, c) ==> c != 0 && home[c] == p)
  }

  ghost predicate IsTree(t: Table) {
    exists home, depth :: TreeOk(t, home, depth)
  }

  ghost predicate Inv(t: Table) {
    ShapeOk(t) && DirsOk(t) && CountsOk(t) && IsTree(t)
  }

  function Initial(): Table {
    map[0 := Dir(2, NewDirSlots(0, 0))]
  }

  // ----- helper lemmas about slots

  lemma FindNameUnique(s: seq<Entry>, x: int)
    requires 0 <= x < |s| && UniqueNames(s) && !IsFree(s[x])
    ensures FindName(s, s[x].name) == x
  {
  }

  lemma RefSetMember(t: Table, p: Pos, i: int)
    ensures p in RefSet(t, i) <==> Names(t, p, i)
  {
  }

  /** A change of slots that adds exactly the slots `more` to those naming `i`. */
  lemma RefSetGrows(t: Table, t': Table, i: int, more: set<Pos>)
    requires forall p :: Names(t', p, i) <==> Names(t, p, i) || p in more
    ensures RefSet(t', i) == RefSet(t, i) + more
  {
    forall p ensures p in RefSet(t', i) <==> p in RefSet(t, i) + more {
      RefSetMember(t, p, i);
      RefSetMember(t', p, i);
    }
  }

  lemma RefSetShrinks(t: Table, t': Table, i: int, gone: Pos)
    requires forall p :: Names(t', p, i) <==> Names(t, p, i) && p != gone
    ensures RefSet(t', i) == RefSet(t, i) - {gone}
  {
    forall p ensures p in RefSet(t', i) <==> p in RefSet(t, i) - {gone} {
      RefSetMember(t, p, i);
      RefSetMember(t', p, i);
    }
  }
}
