/**
 What the operations of the log-structured file system do, told by paths: which paths lead
 where before and after, and what the files hold. A path is the list of its components here.
 */
module LfsEffects {
  import opened LfsTable
  import opened LfsTableInv
  import opened LfsDisk
  import opened LfsRun
  import opened LfsNames

  ghost predicate IsFolder(a: Tree, d: int) {
    d in a && a[d].Folder?
  }

  ghost predicate NamedIn(a: Tree, d: int, name: string, i: int) {
    IsFolder(a, d) && name in a[d].names && a[d].names[name] == i
  }

  /** An absolute path: nothing before its first slash, no slash within a component. */
  ghost predicate IsPath(comps: seq<string>) {
    |comps| >= 2 && comps[0] == "" && forall i :: 0 <= i < |comps| ==> '/' !in comps[i]
  }

  /** The directories on the way along `names`: each name but the last leads on to the next. */
  ghost predicate Way(a: Tree, names: seq<string>, dirs: seq<int>) {
    && |names| == |dirs| > 0
    && (forall j :: 0 <= j < |dirs| ==> IsFolder(a, dirs[j]))
    && forall j :: 0 <= j < |dirs| - 1 ==> LeadsOn(a, names, dirs, j)
  }

  ghost predicate LeadsOn(a: Tree, names: seq<string>, dirs: seq<int>, j: int)
    requires 0 <= j < |names| && 0 <= j < |dirs| - 1
  {
    NamedIn(a, dirs[j], names[j], dirs[j + 1])
  }

  /** From the root to the directory that holds, or would hold, the last component. */
  ghost predicate PathWay(a: Tree, comps: seq<string>, dirs: seq<int>) {
    IsPath(comps) && Way(a, comps[1..], dirs) && dirs[0] == 0
  }

  /** Names lead to inodes there are; files have eight pointers. */
  ghost predicate Closed(a: Tree) {
    -1 !in a && EightBlocks(a) && forall d, name, i :: NamedIn(a, d, name, i) ==> i in a
  }

  lemma TreeIsClosed(t: Table)
    requires Inv(t)
    ensures Closed(TreeOf(t))
  {
    hide CountsOk, IsTree, NameMap, SlotsOk;
    var a := TreeOf(t);
    forall d, name, i | NamedIn(a, d, name, i) ensures i in a {
      DirSlotsOk(t, d);
      DirIsOk(t, d);
      var x := SlotOfName(t[d].slots, name);
      NameOfSlot(t[d].slots, x);
    }
  }

  // ----- where paths lead

  lemma {:induction false} WayIsFollowed(a: Tree, names: seq<string>, dirs: seq<int>)
    requires -1 !in a && Way(a, names, dirs)
    ensures var p, name := dirs[|dirs| - 1], names[|names| - 1];
      FollowFrom(a, dirs[0], names) == At(p, name, if name in a[p].names then a[p].names[name] else -1)
    decreases |names|
  {
    if |names| > 1 {
      assert LeadsOn(a, names, dirs, 0);
      forall j | 0 <= j < |dirs| - 2 ensures LeadsOn(a, names[1..], dirs[1..], j) {
        assert LeadsOn(a, names, dirs, j + 1);
      }
      WayIsFollowed(a, names[1..], dirs[1..]);
    }
  }

  lemma {:induction false} FollowedIsWay(a: Tree, d: int, names: seq<string>) returns (dirs: seq<int>)
    requires |names| > 0 && FollowFrom(a, d, names).At?
    ensures Way(a, names, dirs) && dirs[0] == d
    decreases |names|
  {
    if |names| == 1 {
      dirs := [d];
    } else {
      var next := Find(a, d, names[0]);
      var rest := FollowedIsWay(a, next, names[1..]);
      dirs := [d] + rest;
      assert NamedIn(a, d, names[0], next);
      forall j | 0 <= j < |dirs| - 1 ensures LeadsOn(a, names, dirs, j) {
        if j > 0 { assert LeadsOn(a, names[1..], rest, j - 1); }
      }
    }
  }

  /** Following a path ends at its last component, in the directory that the components
      before it lead to, if and only if they lead through directories all the way. */
  lemma FollowMeans(a: Tree, comps: seq<string>)
    requires -1 !in a && IsPath(comps)
    ensures var w := Follow(a, Join(comps));
      && (w.At? <==> exists dirs :: PathWay(a, comps, dirs))
      && forall dirs :: PathWay(a, comps, dirs) ==>
           var p, name := dirs[|dirs| - 1], comps[|comps| - 1];
           w == At(p, name, if name in a[p].names then a[p].names[name] else -1)
  {
    hide Way;
    SplitJoined(comps);
    forall dirs | PathWay(a, comps, dirs)
      ensures |dirs| > 0 && FollowFrom(a, 0, comps[1..]).At?
      ensures dirs[|dirs| - 1] in a && a[dirs[|dirs| - 1]].Folder?
      ensures var p, name := dirs[|dirs| - 1], comps[|comps| - 1];
        FollowFrom(a, 0, comps[1..]) == At(p, name, if name in a[p].names then a[p].names[name] else -1)
    {
      WayIsFollowed(a, comps[1..], dirs);
      WayEnd(a, comps[1..], dirs);
    }
    if FollowFrom(a, 0, comps[1..]).At? {
      var dirs := FollowedIsWay(a, 0, comps[1..]);
      assert PathWay(a, comps, dirs);
    }
  }

  lemma WayEnd(a: Tree, names: seq<string>, dirs: seq<int>)
    requires Way(a, names, dirs)
    ensures |names| == |dirs| > 0 && IsFolder(a, dirs[|dirs| - 1])
  {
  }

  /** The last of the directories names something, not at the end of the names, that is none. */
  ghost predicate Obstructed(a: Tree, names: seq<string>, dirs: seq<int>) {
    && 0 < |dirs| < |names| && Way(a, names[..|dirs|], dirs)
    && exists i :: NamedIn(a, dirs[|dirs| - 1], names[|dirs| - 1], i) && !IsFolder(a, i)
  }

  lemma {:induction false} ObstructedStops(a: Tree, names: seq<string>, dirs: seq<int>)
    requires Closed(a) && Obstructed(a, names, dirs)
    ensures FollowFrom(a, dirs[0], names).Crash?
    decreases |names|
  {
    var first := names[..|dirs|];
    if |dirs| > 1 {
      assert LeadsOn(a, first, dirs, 0);
      var rest := names[1..];
      assert rest[..|dirs| - 1] == first[1..];
      forall j | 0 <= j < |dirs| - 2 ensures LeadsOn(a, first[1..], dirs[1..], j) {
        assert LeadsOn(a, first, dirs, j + 1);
      }
      ObstructedStops(a, rest, dirs[1..]);
    }
  }

  lemma {:induction false} StopIsObstructed(a: Tree, d: int, names: seq<string>) returns (dirs: seq<int>)
    requires |names| > 0 && IsFolder(a, d) && FollowFrom(a, d, names).Crash?
    ensures Obstructed(a, names, dirs) && dirs[0] == d
    decreases |names|
  {
    var next := Find(a, d, names[0]);
    assert NamedIn(a, d, names[0], next);
    if IsFolder(a, next) {
      var rest := StopIsObstructed(a, next, names[1..]);
      dirs := [d] + rest;
      var first := names[..|dirs|];
      assert first[1..] == names[1..][..|rest|];
      forall j | 0 <= j < |dirs| - 1 ensures LeadsOn(a, first, dirs, j) {
        if j > 0 { assert LeadsOn(a, first[1..], rest, j - 1); }
      }
      assert dirs[|dirs| - 1] == rest[|rest| - 1] && names[|dirs| - 1] == names[1..][|rest| - 1];
    } else {
      dirs := [d];
      assert names[..1] == [names[0]];
    }
  }

  /** The simulator stops on a path exactly when something on the way, before the last
      component, is no directory. */
  lemma StopsWhen(a: Tree, comps: seq<string>)
    requires Closed(a) && IsFolder(a, 0) && IsPath(comps)
    ensures Follow(a, Join(comps)).Crash? <==> exists dirs :: Obstructed(a, comps[1..], dirs) && dirs[0] == 0
  {
    hide Closed, Way, NamedIn;
    SplitJoined(comps);
    forall dirs | Obstructed(a, comps[1..], dirs) && dirs != [] && dirs[0] == 0
      ensures FollowFrom(a, 0, comps[1..]).Crash?
    {
      ObstructedStops(a, comps[1..], dirs);
    }
    if FollowFrom(a, 0, comps[1..]).Crash? { var _ := StopIsObstructed(a, 0, comps[1..]); }
  }

  /** A path that leads to something in `a` leads to the same in `b`. */
  ghost predicate SamePath(a: Tree, b: Tree, path: string) {
    Follow(a, path).At? && Follow(a, path).inum != -1 ==> Follow(b, path) == Follow(a, path)
  }

  /** The path ends at this name of this directory. */
  ghost predicate EndsAt(a: Tree, path: string, p: int, name: string) {
    Follow(a, path).At? && Follow(a, path).parent == p && Follow(a, path).name == name
  }

  /** All of `a` is in `b`, but for the name `name` of directory `p`. */
  ghost predicate KeptBut(a: Tree, b: Tree, p: int, name: string) {
    && (forall d :: IsFolder(a, d) ==> IsFolder(b, d))
    && (forall d, nm, i :: NamedIn(a, d, nm, i) && (d != p || nm != name) ==> NamedIn(b, d, nm, i))
    && (forall d :: NamedIn(a, p, name, d) ==> !IsFolder(a, d))
  }

  lemma {:induction false} FollowKept(a: Tree, b: Tree, p: int, name: string, d: int, names: seq<string>)
    requires KeptBut(a, b, p, name) && |names| > 0
    ensures var w := FollowFrom(a, d, names);
      w.At? && w.inum != -1 && (w.parent != p || w.name != name) ==> FollowFrom(b, d, names) == w
    decreases |names|
  {
    if IsFolder(a, d) && Find(a, d, names[0]) != -1 {
      assert NamedIn(a, d, names[0], Find(a, d, names[0]));
      if |names| > 1 { FollowKept(a, b, p, name, Find(a, d, names[0]), names[1..]); }
    }
  }

  lemma PathKept(a: Tree, b: Tree, p: int, name: string, path: string)
    requires KeptBut(a, b, p, name)
    ensures EndsAt(a, path, p, name) || SamePath(a, b, path)
  {
    hide FollowFrom, KeptBut;
    var q := Split(path);
    FollowKept(a, b, p, name, 0, if |q| == 1 then q else q[1..]);
  }

  lemma WayKept(a: Tree, b: Tree, p: int, name: string, names: seq<string>, dirs: seq<int>)
    requires KeptBut(a, b, p, name) && Way(a, names, dirs)
    ensures Way(b, names, dirs)
  {
    forall j | 0 <= j < |dirs| - 1 ensures LeadsOn(b, names, dirs, j) {
      assert LeadsOn(a, names, dirs, j) && IsFolder(a, dirs[j + 1]);
    }
  }

  // ----- when an operation takes effect

  /** The last component is missing and there is room for it. */
  ghost predicate RoomFor(a: Tree, comps: seq<string>, dirs: seq<int>)
    requires PathWay(a, comps, dirs)
  {
    WayEnd(a, comps[1..], dirs);
    comps[|comps| - 1] !in a[dirs[|dirs| - 1]].names && |a[dirs[|dirs| - 1]].names| < 64
  }

  /** The last component is a name of file n. */
  ghost predicate FileHere(a: Tree, comps: seq<string>, dirs: seq<int>, n: int) {
    && |comps| > 0 && |dirs| > 0 && NamedIn(a, dirs[|dirs| - 1], comps[|comps| - 1], n)
    && n in a && a[n].Contents?
  }

  lemma GuardsMean(a: Tree, comps: seq<string>, dirs: seq<int>)
    requires Closed(a) && PathWay(a, comps, dirs)
    ensures CanAdd(a, Join(comps)) <==> RoomFor(a, comps, dirs)
    ensures LeadsToFile(a, Join(comps)) <==> exists n :: FileHere(a, comps, dirs, n)
    ensures var w := Follow(a, Join(comps));
      && w.At? && w.parent == dirs[|dirs| - 1] && w.name == comps[|comps| - 1]
      && forall n :: FileHere(a, comps, dirs, n) ==> w.inum == n
  {
    hide Way, Follow;
    FollowMeans(a, comps);
    WayEnd(a, comps[1..], dirs);
    var p, name := dirs[|dirs| - 1], comps[|comps| - 1];
    assert name in a[p].names ==> NamedIn(a, p, name, a[p].names[name]);
    if LeadsToFile(a, Join(comps)) { assert FileHere(a, comps, dirs, Follow(a, Join(comps)).inum); }
  }

  /** An operation returns its success exactly when its paths allow it, told by the tree. */
  lemma SucceedsMeans(s: FS, op: Op)
    requires WellFormed(s) && Inv(TableOf(s))
    ensures var a := TreeOf(TableOf(s));
      Succeeds(s, op) <==> match op
        case Create(path, _, pick) => CanAdd(a, path) && 0 <= pick < 256
        case Link(src, dst) => LeadsToFile(a, src) && CanAdd(a, dst)
        case Write(path, offset, _) => LeadsToFile(a, path) && 0 <= offset < 8
        case Delete(path) => LeadsToFile(a, path)
        case Sync => true
  {
    hide LeadsToFile, CanAdd, FileTarget, FreshTarget, CountsOk, IsTree, TreeOf, TableOf, WellFormed;
    var t := TableOf(s);
    match op
    case Create(path, _, _) => SameGuards(t, path);
    case Link(src, dst) => SameGuards(t, src); SameGuards(t, dst);
    case Write(path, _, _) => SameGuards(t, path);
    case Delete(path) => SameGuards(t, path);
    case Sync =>
  }

  /** An operation on a path that leads nowhere does nothing. */
  lemma NowhereNoEffect(a: Tree, op: Op)
    requires EightBlocks(a)
    requires match op
      case Link(src, dst) => !Follow(a, src).At? || !Follow(a, dst).At?
      case Sync => true
      case _ => !Follow(a, op.path).At?
    ensures TreeStep(a, op) == a
  {
    hide Follow;
  }

  // ----- what the operations do

  /** The directory has one name more; everything else is as it was. */
  ghost predicate OneNameMore(a: Tree, b: Tree, comps: seq<string>, dirs: seq<int>, n: int)
    requires PathWay(a, comps, dirs)
  {
    WayEnd(a, comps[1..], dirs);
    var p, name := dirs[|dirs| - 1], comps[|comps| - 1];
    && Follow(b, Join(comps)) == At(p, name, n)
    && (forall path :: SamePath(a, b, path))
    && IsFolder(b, p) && b[p].names == a[p].names[name := n]
    && forall i :: i in a && i != p ==> i in b && b[i] == a[i]
  }

  lemma NameAdded(a: Tree, b: Tree, comps: seq<string>, dirs: seq<int>, n: int)
    requires Closed(a) && PathWay(a, comps, dirs) && RoomFor(a, comps, dirs) && -1 !in b
    requires var p, name := dirs[|dirs| - 1], comps[|comps| - 1];
      && IsFolder(b, p) && IsFolder(a, p) && b[p].names == a[p].names[name := n]
      && forall i :: i in a && i != p ==> i in b && b[i] == a[i]
    ensures OneNameMore(a, b, comps, dirs, n)
  {
    hide Follow, Way;
    WayEnd(a, comps[1..], dirs);
    var p, name := dirs[|dirs| - 1], comps[|comps| - 1];
    forall path ensures SamePath(a, b, path) {
      PathKept(a, b, p, name, path);
      FollowIn(a, path);
      FoundNotMissing(a, path);
    }
    WayKept(a, b, p, name, comps[1..], dirs);
    FollowMeans(b, comps);
    assert PathWay(b, comps, dirs);
  }

  lemma {:induction false} FoundFrom(a: Tree, d: int, names: seq<string>)
    requires |names| > 0
    ensures var w := FollowFrom(a, d, names); w.At? && w.inum != -1 ==> NamedIn(a, w.parent, w.name, w.inum)
    decreases |names|
  {
    if IsFolder(a, d) && |names| > 1 && Find(a, d, names[0]) != -1 {
      FoundFrom(a, Find(a, d, names[0]), names[1..]);
    }
  }

  lemma FoundNotMissing(a: Tree, path: string)
    ensures var w := Follow(a, path); w.At? && w.inum != -1 ==> NamedIn(a, w.parent, w.name, w.inum)
  {
    hide FollowFrom;
    var q := Split(path);
    FoundFrom(a, 0, if |q| == 1 then q else q[1..]);
  }

  /** Creation: afterwards the path leads to the new inode, an empty file or a directory of
      two dots, and nothing else has changed. */
  lemma CreateSeen(a: Tree, comps: seq<string>, dirs: seq<int>, isFile: bool, pick: int)
    requires Closed(a) && PathWay(a, comps, dirs) && 0 <= pick < 256 && pick !in a
    ensures var b := TreeStep(a, Create(Join(comps), isFile, pick));
      if !RoomFor(a, comps, dirs) then b == a
      else
        && b.Keys == a.Keys + {pick} && OneNameMore(a, b, comps, dirs, pick)
        && if isFile then
             b[pick].Contents? && b[pick].size == 0 && b[pick].blocks == seq(8, k => None)
           else b[pick].Folder? && b[pick].names == map["." := pick, ".." := dirs[|dirs| - 1]]
  {
    hide Follow, Way, LeadsToFile, CanAdd, RoomFor;
    GuardsMean(a, comps, dirs);
    WayEnd(a, comps[1..], dirs);
    if RoomFor(a, comps, dirs) {
      NameAdded(a, TreeStep(a, Create(Join(comps), isFile, pick)), comps, dirs, pick);
    }
  }

  /** Linking: afterwards both paths lead to the same file, and nothing else has changed. */
  lemma LinkSeen(a: Tree, src: seq<string>, from: seq<int>, comps: seq<string>, dirs: seq<int>, n: int)
    requires Closed(a) && PathWay(a, src, from) && PathWay(a, comps, dirs)
    ensures var b := TreeStep(a, Link(Join(src), Join(comps)));
      && (FileHere(a, src, from, n) && RoomFor(a, comps, dirs) ==>
            b.Keys == a.Keys && OneNameMore(a, b, comps, dirs, n) && Follow(b, Join(src)) == Follow(a, Join(src)))
      && (!(exists m :: FileHere(a, src, from, m)) || !RoomFor(a, comps, dirs) ==> b == a)
  {
    hide Follow, Way, LeadsToFile, CanAdd, RoomFor, FileHere;
    GuardsMean(a, comps, dirs);
    GuardsMean(a, src, from);
    WayEnd(a, comps[1..], dirs);
    var b := TreeStep(a, Link(Join(src), Join(comps)));
    if FileHere(a, src, from, n) && RoomFor(a, comps, dirs) {
      NameAdded(a, b, comps, dirs, n);
      FileIsIn(a, src, from, n);
      assert SamePath(a, b, Join(src));
    }
  }

  lemma FileIsIn(a: Tree, comps: seq<string>, dirs: seq<int>, n: int)
    requires FileHere(a, comps, dirs, n)
    ensures n in a && a[n].Contents?
  {
  }

  /** Writing: what is read afterwards is what was written, as far as eight blocks go, and
      what was there before elsewhere; no path and no other file is affected. */
  lemma WriteSeen(a: Tree, comps: seq<string>, dirs: seq<int>, n: int, offset: int, data: seq<string>)
    requires Closed(a) && PathWay(a, comps, dirs)
    ensures var b := TreeStep(a, Write(Join(comps), offset, data));
      && (FileHere(a, comps, dirs, n) && 0 <= offset < 8 ==>
            && b.Keys == a.Keys && (forall i :: i in a && i != n ==> b[i] == a[i])
            && n in b && b[n].Contents? && b[n].size == (if offset + |data| > 8 then 8 else offset + |data|)
            && n in a && a[n].Contents? && |b[n].blocks| == |a[n].blocks| == 8
            && (forall j :: 0 <= j < |data| && offset + j < 8 ==> b[n].blocks[offset + j] == Some(data[j]))
            && (forall k :: 0 <= k < 8 && !(offset <= k < offset + |data|) ==> b[n].blocks[k] == a[n].blocks[k])
            && forall path :: Follow(b, path) == Follow(a, path))
      && (!(exists m :: FileHere(a, comps, dirs, m)) || !(0 <= offset < 8) ==> b == a)
  {
    hide Follow, Way, LeadsToFile;
    GuardsMean(a, comps, dirs);
    var b := TreeStep(a, Write(Join(comps), offset, data));
    if FileHere(a, comps, dirs, n) && 0 <= offset < 8 {
      forall path ensures Follow(b, path) == Follow(a, path) { SameFolders(a, b, path); }
    }
  }

  lemma {:induction false} SameFoldersFrom(a: Tree, b: Tree, d: int, names: seq<string>)
    requires a.Keys == b.Keys && |names| > 0
    requires forall i :: i in a ==> a[i] == b[i] || (a[i].Contents? && b[i].Contents?)
    ensures FollowFrom(b, d, names) == FollowFrom(a, d, names)
    decreases |names|
  {
    if IsFolder(a, d) && |names| > 1 && Find(a, d, names[0]) != -1 {
      SameFoldersFrom(a, b, Find(a, d, names[0]), names[1..]);
    }
  }

  lemma SameFolders(a: Tree, b: Tree, path: string)
    requires a.Keys == b.Keys
    requires forall i :: i in a ==> a[i] == b[i] || (a[i].Contents? && b[i].Contents?)
    ensures Follow(b, path) == Follow(a, path)
  {
    hide FollowFrom;
    var q := Split(path);
    SameFoldersFrom(a, b, 0, if |q| == 1 then q else q[1..]);
  }

  /** Deletion: afterwards the path leads to nothing and every other path where it led; the
      file is gone if and only if this was its only name. */
  lemma DeleteSeen(a: Tree, comps: seq<string>, dirs: seq<int>, n: int)
    requires Closed(a) && PathWay(a, comps, dirs)
    ensures var b := TreeStep(a, Delete(Join(comps)));
      && (FileHere(a, comps, dirs, n) ==>
            var p, name := dirs[|dirs| - 1], comps[|comps| - 1];
            && Follow(b, Join(comps)) == At(p, name, -1)
            && (forall path :: EndsAt(a, path, p, name) || SamePath(a, b, path))
            && (n in b <==> exists d, nm :: NamedIn(a, d, nm, n) && (d != p || nm != name))
            && b.Keys == (if n in b then a.Keys else a.Keys - {n})
            && IsFolder(a, p) && IsFolder(b, p) && b[p].names == a[p].names - {name}
            && forall i :: i in b && i != p ==> b[i] == a[i])
      && (!(exists m :: FileHere(a, comps, dirs, m)) ==> b == a)
  {
    hide Follow, Way, LeadsToFile;
    GuardsMean(a, comps, dirs);
    WayEnd(a, comps[1..], dirs);
    var b := TreeStep(a, Delete(Join(comps)));
    if FileHere(a, comps, dirs, n) {
      var p, name := dirs[|dirs| - 1], comps[|comps| - 1];
      FollowIn(a, Join(comps));
      assert b == RemoveName(a, p, name, n);
      RemovedIs(a, p, name, n);
      forall path ensures EndsAt(a, path, p, name) || SamePath(a, b, path) {
        PathKept(a, b, p, name, path);
      }
      WayKept(a, b, p, name, comps[1..], dirs);
      FollowMeans(b, comps);
      assert PathWay(b, comps, dirs);
    }
  }

  lemma RemovedIs(a: Tree, p: int, name: string, n: int)
    requires Closed(a) && NamedIn(a, p, name, n) && n in a && a[n].Contents?
    ensures var b := RemoveName(a, p, name, n);
      && (n in b <==> exists d, nm :: NamedIn(a, d, nm, n) && (d != p || nm != name))
      && b.Keys == (if n in b then a.Keys else a.Keys - {n})
      && IsFolder(b, p) && b[p].names == a[p].names - {name}
      && (forall i :: i in b && i != p ==> b[i] == a[i])
      && KeptBut(a, b, p, name)
  {
    var b, a1 := RemoveName(a, p, name, n), a[p := Folder(a[p].names - {name})];
    forall d, nm, i ensures NamedIn(a1, d, nm, i) <==> NamedIn(a, d, nm, i) && (d != p || nm != name) {}
    if IsNamed(a1, n) {
      var d, nm :| d in a1 && a1[d].Folder? && nm in a1[d].names && a1[d].names[nm] == n;
      assert NamedIn(a1, d, nm, n);
    }
    if d, nm :| NamedIn(a, d, nm, n) && (d != p || nm != name) {
      assert NamedIn(a1, d, nm, n);
      assert nm in a1[d].names;
    }
  }
}
