/** Every operation on the resolved file system keeps its invariant: valid and
    unique entries, exact link counts, a directory tree rooted at inode 0. */
module LfsTableInv {
  import opened LfsTable

  /** A directory with room for one more name. */
  ghost predicate HasRoom(t: Table, p: int) {
    p in t && t[p].Dir? && SizeOk(t[p].slots) && !Full(t[p].slots)
  }

  /** The slot the next entry of directory `p` goes to. */
  ghost function NextSlot(t: Table, p: int): Pos
    requires p in t && t[p].Dir?
  {
    Pos(p, FreeSlot(t[p].slots))
  }

  lemma AddSlotEffect(s: seq<Entry>, e: Entry)
    requires SizeOk(s) && !Full(s)
    ensures var x, r := FreeSlot(s), AddSlot(s, e);
      && SizeOk(r) && |s| <= |r| && x < |r| && r[x] == e
      && forall y :: 0 <= y < |r| && y != x ==> r[y] == if y < |s| then s[y] else FREE
  {
  }

  lemma NotFoundIsFresh(s: seq<Entry>, name: string)
    requires name != "-" && LookupSlots(s, name) == -1
    requires forall x :: 0 <= x < |s| ==> (IsFree(s[x]) <==> s[x].inum == -1)
    ensures forall y :: 0 <= y < |s| ==> s[y].name != name
  {
  }

  lemma DotsAreUsed(t: Table, d: int, s: seq<Entry>)
    requires DotsOk(t, d, s)
    ensures !IsFree(s[0]) && !IsFree(s[1])
  {
  }

  ghost predicate SameKinds(t: Table, t': Table) {
    forall i :: i in t ==> i in t' && t'[i].Dir? == t[i].Dir?
  }

  lemma AddSlotOk(t: Table, t': Table, d: int, e: Entry)
    requires d in t && t[d].Dir? && DirOk(t, d) && !Full(t[d].slots)
    requires d in t' && t'[d].Dir? && t'[d].slots == AddSlot(t[d].slots, e)
    requires SameKinds(t, t') && e.inum in t' && e.inum != -1
    requires e.name != "-" && LookupSlots(t[d].slots, e.name) == -1
    ensures DirOk(t', d)
  {
    hide AddSlot, FreeSlot, LookupSlots, FindName, SizeOk;
    AddSlotEffect(t[d].slots, e);
    NotFoundIsFresh(t[d].slots, e.name);
    DotsAreUsed(t, d, t[d].slots);
  }

  lemma OtherDirOk(t: Table, t': Table, d: int)
    requires d in t && t[d].Dir? && DirOk(t, d)
    requires d in t' && t'[d].Dir? && t'[d].slots == t[d].slots
    requires SameKinds(t, t')
    ensures DirOk(t', d)
  {
    hide IsFree, UniqueNames;
  }

  // ----- create and mkdir

  ghost predicate CanCreate(t: Table, p: int, name: string, n: int) {
    && HasRoom(t, p) && 0 <= n < 256 && n !in t
    && name != "-" && Lookup(t, p, name) == -1
  }

  /** What a create makes of the slots: `at` names the new inode and, for a
      directory, its own two dots name it and its parent. */
  ghost predicate CreatedSlots(t: Table, t': Table, at: Pos, p: int, n: int, isFile: bool) {
    forall q, i :: i != -1 ==> (Names(t', q, i) <==>
      || (q == at && i == n)
      || (!isFile && q == Pos(n, 0) && i == n)
      || (!isFile && q == Pos(n, 1) && i == p)
      || (q != at && Names(t, q, i)))
  }

  lemma CreateSlots(t: Table, p: int, name: string, n: int, isFile: bool)
    requires HasRoom(t, p) && n !in t
    ensures CreatedSlots(t, CreateNode(t, p, name, n, isFile), NextSlot(t, p), p, n, isFile)
  {
    AddSlotEffect(t[p].slots, Entry(name, n));
    hide AddSlot, FreeSlot, SizeOk, Full;
  }

  /** The next slot of a directory comes after the dots and names nothing yet. */
  lemma NextSlotIsFree(t: Table, p: int)
    requires p in t && t[p].Dir? && DirOk(t, p)
    ensures NextSlot(t, p).x >= 2
    ensures forall i :: i != -1 ==> !Names(t, NextSlot(t, p), i)
  {
    hide FindName, UniqueNames, IsFree;
    DotsAreUsed(t, p, t[p].slots);
  }

  lemma NewDirOk(t': Table, p: int, n: int)
    requires p in t' && t'[p].Dir? && n in t' && t'[n] == NewNode(false, n, p) && n != -1 && p != -1
    ensures DirOk(t', n)
  {
    var s := t'[n].slots;
    assert |s| == 8 && s == NewDirSlots(n, p);
    assert s[0].name == "." && s[1].name == ".." && "."[0] != '-' && |".."| != |"."|;
    assert forall x :: 2 <= x < 8 ==> s[x] == FREE;
  }

  lemma CreateDirsOk(t: Table, p: int, name: string, n: int, isFile: bool)
    requires CanCreate(t, p, name, n) && DirsOk(t) && -1 !in t
    ensures DirsOk(CreateNode(t, p, name, n, isFile))
  {
    hide AddSlot, Full, LookupSlots, SizeOk, NewDirSlots, DirOk;
    var t' := CreateNode(t, p, name, n, isFile);
    forall d | d in t' && t'[d].Dir? ensures DirOk(t', d) {
      if d == n { NewDirOk(t', p, n); }
      else if d == p { AddSlotOk(t, t', p, Entry(name, n)); }
      else { OtherDirOk(t, t', d); }
    }
  }

  lemma NoNameForAbsent(t: Table, n: int)
    requires DirsOk(t) && n !in t && n != -1
    ensures forall q :: !Names(t, q, n)
  {
    hide SizeOk, DotsOk, IsFree, UniqueNames;
    forall q ensures !Names(t, q, n) {
      if q.d in t && t[q.d].Dir? { assert DirOk(t, q.d); }
    }
  }

  /** The slots a create adds to those that name inode `i`. */
  ghost function Added(p: int, n: int, isFile: bool, at: Pos, i: int): set<Pos> {
    if i == n then (if isFile then {at} else {at, Pos(n, 0)})
    else if !isFile && i == p then {Pos(n, 1)}
    else {}
  }

  lemma CreateRefSet(t: Table, t': Table, at: Pos, p: int, n: int, isFile: bool, i: int)
    requires CreatedSlots(t, t', at, p, n, isFile) && i != -1 && !Names(t, at, i) && n != p
    ensures RefSet(t', i) == RefSet(t, i) + Added(p, n, isFile, at, i)
  {
    hide RefSet;
    RefSetGrows(t, t', i, Added(p, n, isFile, at, i));
  }

  lemma CreateCounts(t: Table, p: int, name: string, n: int, isFile: bool)
    requires HasRoom(t, p) && DirsOk(t) && CountsOk(t) && n !in t && n != -1 && -1 !in t
    ensures CountsOk(CreateNode(t, p, name, n, isFile))
  {
    hide RefSet, AddSlot, FreeSlot, Full, SizeOk, NewDirSlots, DirOk, CreatedSlots;
    var t', at := CreateNode(t, p, name, n, isFile), NextSlot(t, p);
    CreateSlots(t, p, name, n, isFile);
    NextSlotIsFree(t, p);
    NoNameForAbsent(t, n);
    forall i | i in t' ensures t'[i].refs == |RefSet(t', i)| {
      CreateRefSet(t, t', at, p, n, isFile, i);
      RefSetMember(t, Pos(n, 1), p);
      if i == n { NoRefs(t, n); }
    }
  }

  lemma NoRefs(t: Table, n: int)
    requires forall q :: !Names(t, q, n)
    ensures RefSet(t, n) == {}
  {
  }

  lemma NamesInDirs(t: Table)
    ensures forall q, i :: Names(t, q, i) ==> q.d in t && t[q.d].Dir?
  {
  }

  lemma CreateTreeOk(t: Table, t': Table, at: Pos, p: int, n: int, isFile: bool,
                     home: map<int, Pos>, depth: map<int, nat>)
    requires TreeOk(t, home, depth) && CreatedSlots(t, t', at, p, n, isFile)
    requires p in t && t[p].Dir? && at.d == p && at.x >= 2 && n !in t && n != 0 && n != -1 && -1 !in t
    requires forall i :: i != -1 ==> !Names(t, at, i)
    requires forall q :: !Names(t, q, n)
    requires forall i :: i in t' && t'[i].Dir? <==> (i in t && t[i].Dir?) || (!isFile && i == n)
    requires forall i :: i in t && t[i].Dir? && |t[i].slots| > 1 ==>
      |t'[i].slots| > 1 && t'[i].slots[1] == t[i].slots[1]
    requires !isFile ==> |t'[n].slots| > 1 && t'[n].slots[1].inum == p
    requires 0 in t && t[0].Dir?
    ensures IsTree(t')
  {
    hide Names;
    NamesInDirs(t);
    var home' := if isFile then home else home[n := at];
    var depth' := if isFile then depth else depth[n := depth[p] + 1];
    assert TreeOk(t', home', depth');
  }

  lemma CreateTree(t: Table, p: int, name: string, n: int, isFile: bool)
    requires HasRoom(t, p) && DirsOk(t) && ShapeOk(t) && IsTree(t) && n !in t && n != -1
    ensures IsTree(CreateNode(t, p, name, n, isFile))
  {
    hide FreeSlot, AddSlot, Names, Full, DirsOk, DirOk, TreeOk, CreatedSlots, SizeOk, NewDirSlots;
    var t' := CreateNode(t, p, name, n, isFile);
    CreateSlots(t, p, name, n, isFile);
    assert NextSlot(t, p).x >= 2 && forall i :: i != -1 ==> !Names(t, NextSlot(t, p), i) by {
      assert DirOk(t, p) by { DirIsOk(t, p); }
      NextSlotIsFree(t, p);
    }
    NoNameForAbsent(t, n);
    AddSlotKeepsDots(t, p, Entry(name, n));
    NewDirDots(n, p);
    var home: map<int, Pos>, depth: map<int, nat> :| TreeOk(t, home, depth);
    CreateTreeOk(t, t', NextSlot(t, p), p, n, isFile, home, depth);
  }

  lemma DirIsOk(t: Table, d: int)
    requires DirsOk(t) && d in t && t[d].Dir?
    ensures DirOk(t, d)
  {
    hide DirOk;
  }

  lemma AddSlotKeepsDots(t: Table, p: int, e: Entry)
    requires HasRoom(t, p) && DirsOk(t)
    ensures var r := AddSlot(t[p].slots, e); |r| > 1 && r[1] == t[p].slots[1]
  {
    DirIsOk(t, p);
    NextSlotIsFree(t, p);
    AddSlotEffect(t[p].slots, e);
  }

  lemma NewDirDots(n: int, p: int)
    ensures |NewDirSlots(n, p)| > 1 && NewDirSlots(n, p)[1].inum == p
  {
  }

  lemma CreateInv(t: Table, p: int, name: string, n: int, isFile: bool)
    requires Inv(t) && CanCreate(t, p, name, n)
    ensures Inv(CreateNode(t, p, name, n, isFile))
  {
    hide CountsOk, DirsOk, IsTree, AddSlot, NewDirSlots, Full, LookupSlots;
    CreateDirsOk(t, p, name, n, isFile);
    CreateCounts(t, p, name, n, isFile);
    CreateTree(t, p, name, n, isFile);
  }

  // ----- link

  ghost predicate CanLink(t: Table, p: int, name: string, n: int) {
    && HasRoom(t, p) && n in t && t[n].File? && name != "-" && Lookup(t, p, name) == -1
  }

  ghost predicate LinkedSlots(t: Table, t': Table, at: Pos, n: int) {
    forall q, i :: i != -1 ==> (Names(t', q, i) <==> (q == at && i == n) || (q != at && Names(t, q, i)))
  }

  lemma LinkSlots(t: Table, p: int, name: string, n: int)
    requires HasRoom(t, p) && n in t && t[n].File?
    ensures LinkedSlots(t, LinkNode(t, p, name, n), NextSlot(t, p), n)
  {
    AddSlotEffect(t[p].slots, Entry(name, n));
    hide AddSlot, FreeSlot, SizeOk, Full;
  }

  lemma LinkDirsOk(t: Table, p: int, name: string, n: int)
    requires CanLink(t, p, name, n) && DirsOk(t) && n != -1
    ensures DirsOk(LinkNode(t, p, name, n))
  {
    hide AddSlot, Full, LookupSlots, SizeOk, DirOk;
    var t' := LinkNode(t, p, name, n);
    forall d | d in t' && t'[d].Dir? ensures DirOk(t', d) {
      if d == p { AddSlotOk(t, t', p, Entry(name, n)); } else { OtherDirOk(t, t', d); }
    }
  }

  lemma LinkRefSet(t: Table, t': Table, at: Pos, n: int, i: int)
    requires LinkedSlots(t, t', at, n) && i != -1 && !Names(t, at, i)
    ensures RefSet(t', i) == RefSet(t, i) + (if i == n then {at} else {})
    ensures at !in RefSet(t, i)
  {
    hide RefSet;
    RefSetGrows(t, t', i, if i == n then {at} else {});
    RefSetMember(t, at, i);
  }

  lemma LinkCounts(t: Table, p: int, name: string, n: int)
    requires HasRoom(t, p) && DirsOk(t) && CountsOk(t) && n in t && t[n].File? && -1 !in t
    ensures CountsOk(LinkNode(t, p, name, n))
  {
    hide RefSet, AddSlot, FreeSlot, Full, SizeOk, DirOk, LinkedSlots, Names;
    var t', at := LinkNode(t, p, name, n), NextSlot(t, p);
    LinkSlots(t, p, name, n);
    NextSlotIsFree(t, p);
    forall i | i in t' ensures t'[i].refs == |RefSet(t', i)| {
      LinkRefSet(t, t', at, n, i);
    }
  }

  /** Changing one slot that names no directory, before or after, keeps the tree. */
  lemma SameTree(t: Table, t': Table, at: Pos)
    requires IsTree(t)
    requires forall d :: d in t && t[d].Dir? <==> d in t' && t'[d].Dir?
    requires forall d :: d in t && t[d].Dir? && |t[d].slots| > 1 ==>
      |t'[d].slots| > 1 && t'[d].slots[1] == t[d].slots[1]
    requires forall q, c :: c in t && t[c].Dir? ==> (Names(t', q, c) <==> q != at && Names(t, q, c))
    requires forall c :: c in t && t[c].Dir? ==> !Names(t, at, c)
    ensures IsTree(t')
  {
    hide TreeOk, Names;
    var home: map<int, Pos>, depth: map<int, nat> :| TreeOk(t, home, depth);
    SameTreeOk(t, t', at, home, depth);
  }

  lemma SameTreeOk(t: Table, t': Table, at: Pos, home: map<int, Pos>, depth: map<int, nat>)
    requires TreeOk(t, home, depth)
    requires forall d :: d in t && t[d].Dir? <==> d in t' && t'[d].Dir?
    requires forall d :: d in t && t[d].Dir? && |t[d].slots| > 1 ==>
      |t'[d].slots| > 1 && t'[d].slots[1] == t[d].slots[1]
    requires forall q, c :: c in t && t[c].Dir? ==> (Names(t', q, c) <==> q != at && Names(t, q, c))
    requires forall c :: c in t && t[c].Dir? ==> !Names(t, at, c)
    ensures TreeOk(t', home, depth)
  {
    hide Names;
  }

  lemma LinkTree(t: Table, p: int, name: string, n: int)
    requires HasRoom(t, p) && DirsOk(t) && IsTree(t) && n in t && t[n].File? && -1 !in t
    ensures IsTree(LinkNode(t, p, name, n))
  {
    hide FreeSlot, AddSlot, Names, Full, DirsOk, DirOk, IsTree, SizeOk;
    LinkSlots(t, p, name, n);
    DirIsOk(t, p);
    NextSlotIsFree(t, p);
    AddSlotKeepsDots(t, p, Entry(name, n));
    SameTree(t, LinkNode(t, p, name, n), NextSlot(t, p));
  }

  lemma LinkInv(t: Table, p: int, name: string, n: int)
    requires Inv(t) && CanLink(t, p, name, n)
    ensures Inv(LinkNode(t, p, name, n))
  {
    hide CountsOk, DirsOk, IsTree, AddSlot, Full, LookupSlots;
    LinkDirsOk(t, p, name, n);
    LinkCounts(t, p, name, n);
    LinkTree(t, p, name, n);
  }

  // ----- delete

  ghost predicate CanDelete(t: Table, p: int, name: string, n: int) {
    p in t && t[p].Dir? && n in t && t[n].File? && n != -1 && Lookup(t, p, name) == n
  }

  /** The slot of directory `p` that carries `name`. */
  ghost function NamedAt(t: Table, p: int, name: string): Pos
    requires p in t && t[p].Dir?
  {
    Pos(p, FindName(t[p].slots, name))
  }

  ghost predicate ClearedSlots(t: Table, t': Table, at: Pos) {
    forall q, i :: i != -1 ==> (Names(t', q, i) <==> q != at && Names(t, q, i))
  }

  lemma DeleteSlots(t: Table, p: int, name: string, n: int)
    requires CanDelete(t, p, name, n)
    ensures ClearedSlots(t, DeleteNode(t, p, name, n), NamedAt(t, p, name))
    ensures Names(t, NamedAt(t, p, name), n)
  {
    hide FindName;
  }

  lemma DeleteRefSet(t: Table, t': Table, at: Pos, n: int, i: int)
    requires ClearedSlots(t, t', at) && Names(t, at, n) && i != -1
    ensures RefSet(t', i) == RefSet(t, i) - {at}
    ensures at in RefSet(t, i) <==> i == n
  {
    hide RefSet;
    RefSetShrinks(t, t', i, at);
    RefSetMember(t, at, i);
  }

  lemma DeleteCounts(t: Table, p: int, name: string, n: int)
    requires CanDelete(t, p, name, n) && CountsOk(t) && -1 !in t
    ensures CountsOk(DeleteNode(t, p, name, n))
  {
    hide RefSet, FindName, ClearedSlots, Names;
    var t', at := DeleteNode(t, p, name, n), NamedAt(t, p, name);
    DeleteSlots(t, p, name, n);
    forall i | i in t' ensures t'[i].refs == |RefSet(t', i)| {
      DeleteRefSet(t, t', at, n, i);
      if i != n { assert RefSet(t', i) == RefSet(t, i); }
    }
  }

  /** A file's inode goes exactly when its last name goes. */
  lemma FreedAtLastName(t: Table, p: int, name: string, n: int)
    requires CanDelete(t, p, name, n) && CountsOk(t)
    ensures n !in DeleteNode(t, p, name, n) <==> RefSet(DeleteNode(t, p, name, n), n) == {}
  {
    hide RefSet, FindName, ClearedSlots, Names;
    var at := NamedAt(t, p, name);
    DeleteSlots(t, p, name, n);
    DeleteRefSet(t, DeleteNode(t, p, name, n), at, n, n);
    assert |RefSet(t, n) - {at}| == t[n].refs - 1;
  }

  /** Directories stay valid when a slot behind the dots is cleared and a file
      that no slot names any more is dropped. */
  lemma ClearedDirOk(t: Table, t': Table, d: int, x: int, n: int)
    requires d in t && t[d].Dir? && DirOk(t, d) && n in t && t[n].File?
    requires d in t' && t'[d].Dir? && 1 < x
    requires t'[d].slots == t[d].slots || (x < |t[d].slots| && t'[d].slots == t[d].slots[x := FREE])
    requires forall i :: i in t && i != n ==> i in t' && t'[i].Dir? == t[i].Dir?
    requires n !in t' ==> forall q :: !Names(t', q, n)
    ensures DirOk(t', d)
  {
    var s, s' := t[d].slots, t'[d].slots;
    forall y | 0 <= y < |s'| && s'[y].inum != -1 ensures s'[y].inum in t' {
      assert Names(t', Pos(d, y), s'[y].inum);
    }
    assert forall y :: 0 <= y < |s'| ==> s'[y] == s[y] || s'[y] == FREE;
    assert UniqueNames(s');
  }

  lemma DeleteDirsOk(t: Table, p: int, name: string, n: int)
    requires CanDelete(t, p, name, n) && DirsOk(t) && CountsOk(t)
    ensures DirsOk(DeleteNode(t, p, name, n))
  {
    hide RefSet, FindName, DirOk, CountsOk, Names;
    var t', at := DeleteNode(t, p, name, n), NamedAt(t, p, name);
    FreedAtLastName(t, p, name, n);
    NamedAfterDots(t, p, name, n);
    forall q ensures n !in t' ==> !Names(t', q, n) { RefSetMember(t', q, n); }
    forall d | d in t' && t'[d].Dir? ensures DirOk(t', d) {
      ClearedDirOk(t, t', d, at.x, n);
    }
  }

  lemma NamedAfterDots(t: Table, p: int, name: string, n: int)
    requires CanDelete(t, p, name, n) && DirsOk(t)
    ensures NamedAt(t, p, name).x >= 2
  {
    DirIsOk(t, p);
  }

  lemma DeleteTree(t: Table, p: int, name: string, n: int)
    requires CanDelete(t, p, name, n) && DirsOk(t) && IsTree(t) && -1 !in t
    ensures IsTree(DeleteNode(t, p, name, n))
  {
    hide FindName, Names, DirsOk, IsTree;
    DeleteSlots(t, p, name, n);
    NamedAfterDots(t, p, name, n);
    forall c | c in t && t[c].Dir? ensures !Names(t, NamedAt(t, p, name), c) {
      OneNamePerSlot(t, NamedAt(t, p, name), n, c);
    }
    SameTree(t, DeleteNode(t, p, name, n), NamedAt(t, p, name));
  }

  lemma OneNamePerSlot(t: Table, q: Pos, n: int, c: int)
    requires Names(t, q, n) && c != n
    ensures !Names(t, q, c)
  {
  }

  lemma DeleteInv(t: Table, p: int, name: string, n: int)
    requires Inv(t) && CanDelete(t, p, name, n)
    ensures Inv(DeleteNode(t, p, name, n))
  {
    hide CountsOk, DirsOk, IsTree, FindName;
    DeleteDirsOk(t, p, name, n);
    DeleteCounts(t, p, name, n);
    DeleteTree(t, p, name, n);
  }

  // ----- write, and the initial state

  lemma WriteSlots(t: Table, n: int, offset: int, data: seq<string>, q: Pos, i: int)
    requires n in t && t[n].File? && |t[n].blocks| == 8 && 0 <= offset < 8
    ensures Names(WriteNode(t, n, offset, data), q, i) <==> Names(t, q, i)
  {
  }

  lemma WriteInv(t: Table, n: int, offset: int, data: seq<string>)
    requires Inv(t) && n in t && t[n].File? && 0 <= offset < 8
    ensures Inv(WriteNode(t, n, offset, data))
  {
    hide RefSet, DirOk, Names, TreeOk;
    var t' := WriteNode(t, n, offset, data);
    forall q, i ensures Names(t', q, i) <==> Names(t, q, i) { WriteSlots(t, n, offset, data, q, i); }
    forall d | d in t' && t'[d].Dir? ensures DirOk(t', d) { OtherDirOk(t, t', d); }
    forall i | i in t' ensures t'[i].refs == |RefSet(t', i)| { RefSetGrows(t, t', i, {}); }
    var home: map<int, Pos>, depth: map<int, nat> :| TreeOk(t, home, depth);
    assert Pos(0, -1).x == -1;
    forall c ensures !Names(t, Pos(0, -1), c) { NoNegativeSlot(t, c); }
    SameTreeOk(t, t', Pos(0, -1), home, depth);
  }

  lemma NoNegativeSlot(t: Table, c: int)
    ensures !Names(t, Pos(0, -1), c)
  {
  }

  lemma InitialInv()
    ensures Inv(Initial())
  {
    hide DirOk, RefSet, TreeOk, NewDirSlots;
    var t := Initial();
    NewDirOk(t, 0, 0);
    InitialRefs();
    InitialTree();
  }

  lemma InitialRefs()
    ensures |RefSet(Initial(), 0)| == 2
  {
    hide RefSet;
    var t := Initial();
    assert RefSet(t, 0) == {Pos(0, 0), Pos(0, 1)} by {
      forall q ensures q in RefSet(t, 0) <==> q in {Pos(0, 0), Pos(0, 1)} { RefSetMember(t, q, 0); }
    }
  }

  lemma InitialTree()
    ensures TreeOk(Initial(), map[], map[0 := 0])
  {
    assert |NewDirSlots(0, 0)| == 8;
  }

  // ----- the tree, seen from the root

  /** Walking on from where a walk arrived. */
  lemma {:induction false} WalkConcat(t: Table, s: int, comps: seq<string>, d: int, rest: seq<string>)
    requires |rest| > 0
    requires WalkFrom(t, s, comps + ["."]).At? && WalkFrom(t, s, comps + ["."]).parent == d
    ensures WalkFrom(t, s, comps + rest) == WalkFrom(t, d, rest)
    decreases |comps|
  {
    if comps == [] {
      assert comps + rest == rest && comps + ["."] == ["."];
    } else {
      assert (comps + ["."])[1..] == comps[1..] + ["."] && (comps + rest)[1..] == comps[1..] + rest;
      WalkConcat(t, Lookup(t, s, comps[0]), comps[1..], d, rest);
    }
  }

  /** Following home slots up from any directory ends at the root, so each live
      directory is what some path from the root leads to: a tree, not a cycle. */
  lemma {:induction false} RootReached(t: Table, home: map<int, Pos>, depth: map<int, nat>, d: int)
    returns (comps: seq<string>)
    requires DirsOk(t) && -1 !in t && TreeOk(t, home, depth) && d in t && t[d].Dir?
    ensures WalkFrom(t, 0, comps + ["."]) == At(d, ".", d)
    decreases depth[d]
  {
    hide UniqueNames, DirOk, EntriesOk, SizeOk, DirsOk, FindName, IsFree;
    DotLooksUpSelf(t, d);
    if d == 0 {
      comps := [];
      assert comps + ["."] == ["."];
    } else {
      var h := home[d];
      var up := RootReached(t, home, depth, h.d);
      var name := t[h.d].slots[h.x].name;
      NameLooksUpInum(t, h);
      comps := up + [name];
      assert comps + ["."] == up + [name, "."];
      WalkConcat(t, 0, up, h.d, [name, "."]);
      assert [name, "."][1..] == ["."];
    }
  }

  lemma DotLooksUpSelf(t: Table, d: int)
    requires DirsOk(t) && d in t && t[d].Dir?
    ensures Lookup(t, d, ".") == d
  {
    DirIsOk(t, d);
  }

  lemma NameLooksUpInum(t: Table, q: Pos)
    requires DirsOk(t) && IsSlot(t, q) && t[q.d].slots[q.x].inum != -1
    ensures Lookup(t, q.d, t[q.d].slots[q.x].name) == t[q.d].slots[q.x].inum
  {
    hide SizeOk, DotsOk;
    DirIsOk(t, q.d);
    FindNameUnique(t[q.d].slots, q.x);
  }
}
