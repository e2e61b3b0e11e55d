/** Whole runs of the log-structured file system: what every operation does to the
    state, and the invariant every reachable state satisfies. */
module LfsRun {
  import opened LfsTable
  import opened LfsTableInv
  import opened LfsDisk
  import opened LfsRefine

  /** Split a path at its slashes, as Python's str.split does. */
  function Split(s: string): (r: seq<string>)
    ensures |r| > 0
  {
    if s == "" then [""]
    else
      var rest := Split(s[1..]);
      if s[0] == '/' then [""] + rest else [[s[0]] + rest[0]] + rest[1..]
  }

  /** The components with slashes between them. */
  function Join(comps: seq<string>): string
    requires |comps| > 0
  {
    if |comps| == 1 then comps[0] else comps[0] + ['/'] + Join(comps[1..])
  }

  /** The components of a path are what lies between its slashes: they have none, and with
      slashes between them they are the path again. */
  lemma {:induction false} SplitParts(s: string)
    ensures Join(Split(s)) == s
    ensures forall i :: 0 <= i < |Split(s)| ==> '/' !in Split(s)[i]
  {
    if s != "" {
      var rest := Split(s[1..]);
      SplitParts(s[1..]);
      assert s == [s[0]] + s[1..];
      if s[0] == '/' {
        assert ([""] + rest)[1..] == rest;
        assert Join([""] + rest) == "" + ['/'] + Join(rest);
      } else {
        var first := [s[0]] + rest[0];
        assert ([first] + rest[1..])[1..] == rest[1..];
        if |rest| == 1 {
          assert Join([first] + rest[1..]) == first;
        } else {
          assert Join([first] + rest[1..]) == first + ['/'] + Join(rest[1..]);
        }
      }
    }
  }

  /** No other components do that: splitting undoes joining, too. */
  lemma {:induction false} SplitJoined(comps: seq<string>)
    requires |comps| > 0 && forall i :: 0 <= i < |comps| ==> '/' !in comps[i]
    ensures Split(Join(comps)) == comps
    decreases |comps|, |comps[0]|
  {
    var s, first := Join(comps), comps[0];
    if first == "" {
      if |comps| > 1 {
        SplitJoined(comps[1..]);
        assert s == ['/'] + Join(comps[1..]);
        assert comps == [""] + comps[1..];
      }
    } else {
      var less := [first[1..]] + comps[1..];
      assert less[1..] == comps[1..];
      assert first == [first[0]] + first[1..] && first[0] in first;
      assert s == [first[0]] + Join(less);
      SplitJoined(less);
      assert comps == [[first[0]] + less[0]] + less[1..];
    }
  }

  /** The operations. `pick` is the inode number the allocation policy came up
      with, -1 when every inode is taken. */
  datatype Op =
    | Create(path: string, isFile: bool, pick: int)
    | Link(src: string, dst: string)
    | Write(path: string, offset: int, data: seq<string>)
    | Delete(path: string)
    | Sync

  /** What either allocation policy can return: some free inode, -1 if there is none. */
  ghost predicate PickOk(inodeMap: seq<int>, pick: int) {
    if pick == -1 then forall i :: 0 <= i < |inodeMap| ==> inodeMap[i] != -1
    else 0 <= pick < |inodeMap| && inodeMap[pick] == -1
  }

  ghost function Target(t: Table, path: string): Walked {
    Walk(t, Split(path))
  }

  /** Where an operation is defined: no walk through something that is not a
      directory, no file called "-", no link into a directory that does not exist. */
  ghost predicate Allowed(s: FS, op: Op)
    requires WellFormed(s)
  {
    var t := TableOf(s);
    match op
    case Create(path, _, pick) =>
      && PickOk(s.inodeMap, pick) && !Target(t, path).Crash?
      && (Target(t, path).At? ==> Target(t, path).name != "-")
    case Link(src, dst) =>
      && !Target(t, src).Crash?
      && (FileTarget(t, src) ==> Target(t, dst).At? && Target(t, dst).name != "-")
    case Write(path, _, _) => !Target(t, path).Crash?
    case Delete(path) => !Target(t, path).Crash?
    case Sync => true
  }

  /** The path leads to a regular file. */
  ghost predicate FileTarget(t: Table, path: string) {
    var w := Target(t, path);
    w.At? && w.inum in t && t[w.inum].File?
  }

  /** The path leads to a name that is missing in a directory that is not full. */
  ghost predicate FreshTarget(t: Table, path: string) {
    var w := Target(t, path);
    w.At? && w.inum == -1 && w.parent in t && t[w.parent].Dir? && !Full(t[w.parent].slots)
  }

  /** When an operation takes effect; otherwise it returns -1 and changes nothing. */
  ghost predicate Succeeds(s: FS, op: Op)
    requires WellFormed(s)
  {
    var t := TableOf(s);
    match op
    case Create(path, _, pick) => FreshTarget(t, path) && 0 <= pick < 256
    case Link(src, dst) => FileTarget(t, src) && FreshTarget(t, dst)
    case Write(path, offset, _) => FileTarget(t, path) && 0 <= offset < 8
    case Delete(path) => FileTarget(t, path)
    case Sync => true
  }

  /** Every walk that arrives, arrives in a directory. */
  lemma {:induction false} WalkedFrom(t: Table, d: int, path: seq<string>)
    requires |path| > 0
    ensures var w := WalkFrom(t, d, path);
      w.At? ==> w.parent in t && t[w.parent].Dir? && w.inum == Lookup(t, w.parent, w.name)
    decreases |path|
  {
    if d in t && t[d].Dir? && |path| > 1 && Lookup(t, d, path[0]) != -1 {
      WalkedFrom(t, Lookup(t, d, path[0]), path[1..]);
    }
  }

  lemma TargetIn(t: Table, path: string)
    ensures var w := Target(t, path);
      w.At? ==> w.parent in t && t[w.parent].Dir? && w.inum == Lookup(t, w.parent, w.name)
  {
    var p := Split(path);
    if p[0] == "" { WalkedFrom(t, 0, if |p| == 1 then p else p[1..]); }
  }

  lemma TableLive(s: FS, i: int)
    requires WellFormed(s) && i in TableOf(s)
    ensures Live(s.inodeMap, i) && 0 <= i < 256
  {
  }

  lemma FoundInSlots(t: Table, w: Walked)
    requires w.At? && w.parent in t && t[w.parent].Dir? && w.inum == Lookup(t, w.parent, w.name)
    requires w.inum in t && -1 !in t
    ensures FindName(t[w.parent].slots, w.name) < |t[w.parent].slots|
  {
  }

  lemma FreshHasRoom(s: FS, path: string)
    requires WellFormed(s) && FreshTarget(TableOf(s), path)
    ensures DirWithRoom(s, Target(TableOf(s), path).parent)
  {
    hide Target, Full, CrOk, InodeAt, NodeOf;
    TableLive(s, Target(TableOf(s), path).parent);
  }

  lemma FileIsLive(s: FS, path: string)
    requires WellFormed(s) && FileTarget(TableOf(s), path)
    ensures var w := Target(TableOf(s), path);
      && LiveFile(s, w.inum) && w.parent in TableOf(s) && TableOf(s)[w.parent].Dir? && Live(s.inodeMap, w.parent)
      && w.inum == Lookup(TableOf(s), w.parent, w.name)
  {
    hide Target, Full, CrOk, InodeAt, NodeOf, LookupSlots;
    TargetIn(TableOf(s), path);
    TableLive(s, Target(TableOf(s), path).parent);
    TableLive(s, Target(TableOf(s), path).inum);
  }

  lemma DeletedIsFound(s: FS, path: string)
    requires WellFormed(s) && FileTarget(TableOf(s), path)
    ensures var w := Target(TableOf(s), path);
      && w.parent in TableOf(s) && TableOf(s)[w.parent].Dir?
      && FindName(TableOf(s)[w.parent].slots, w.name) < |TableOf(s)[w.parent].slots|
  {
    hide Target, Full, CrOk, InodeAt, NodeOf, LookupSlots;
    FileIsLive(s, path);
    FoundInSlots(TableOf(s), Target(TableOf(s), path));
  }

  /** The disk and maps after an operation's writes, before any sync. */
  ghost function Logged(s: FS, op: Op): FS
    requires WellFormed(s) && Succeeds(s, op)
  {
    var t := TableOf(s);
    match op
    case Create(path, isFile, pick) =>
      FreshHasRoom(s, path);
      CreateLogged(s, Target(t, path).parent, Target(t, path).name, pick, isFile)
    case Link(src, dst) =>
      FreshHasRoom(s, dst);
      FileIsLive(s, src);
      LinkLogged(s, Target(t, dst).parent, Target(t, dst).name, Target(t, src).inum)
    case Write(path, offset, data) =>
      FileIsLive(s, path);
      WriteLogged(s, Target(t, path).inum, offset, data)
    case Delete(path) =>
      FileIsLive(s, path);
      DeletedIsFound(s, path);
      DeleteLogged(s, Target(t, path).parent, Target(t, path).name, Target(t, path).inum)
    case Sync => s
  }

  /** One operation; `force` syncs the checkpoint region after every update. */
  ghost function Step(s: FS, op: Op, force: bool): FS
    requires WellFormed(s) && Allowed(s, op)
  {
    if !Succeeds(s, op) then s
    else if op.Sync? then CrSync(s)
    else if force then CrSync(LoggedOk(s, op))
    else LoggedOk(s, op)
  }

  ghost function LoggedOk(s: FS, op: Op): (r: FS)
    requires WellFormed(s) && Allowed(s, op) && Succeeds(s, op)
    ensures |r.disk| > 0 && r == Logged(s, op)
  {
    LoggedRefines(s, op);
    Logged(s, op)
  }

  /** The same operation on the resolved file system. */
  ghost function StepTable(t: Table, op: Op): Table
    requires -1 !in t && FilesOk(t)
  {
    match op
    case Create(path, isFile, pick) =>
      if FreshTarget(t, path) && 0 <= pick < 256
      then CreateNode(t, Target(t, path).parent, Target(t, path).name, pick, isFile) else t
    case Link(src, dst) =>
      if FileTarget(t, src) && FreshTarget(t, dst)
      then LinkNode(t, Target(t, dst).parent, Target(t, dst).name, Target(t, src).inum) else t
    case Write(path, offset, data) =>
      if FileTarget(t, path) && 0 <= offset < 8 then WriteNode(t, Target(t, path).inum, offset, data) else t
    case Delete(path) =>
      TargetIn(t, path);
      if FileTarget(t, path)
      then
        FoundInSlots(t, Target(t, path));
        DeleteNode(t, Target(t, path).parent, Target(t, path).name, Target(t, path).inum)
      else t
    case Sync => t
  }

  lemma FilesHaveEightBlocks(s: FS)
    requires WellFormed(s)
    ensures -1 !in TableOf(s) && FilesOk(TableOf(s))
  {
  }

  lemma LoggedRefines(s: FS, op: Op)
    requires WellFormed(s) && Allowed(s, op) && Succeeds(s, op)
    ensures -1 !in TableOf(s) && FilesOk(TableOf(s))
    ensures var r := Logged(s, op);
      WellFormed(r) && s.disk <= r.disk && TableOf(r) == StepTable(TableOf(s), op)
  {
    hide Full, Target, CreateNode, LinkNode, WriteNode, DeleteNode, InodeAt, NodeOf, CrOk, FindName;
    FilesHaveEightBlocks(s);
    var t := TableOf(s);
    match op
    case Create(path, isFile, pick) =>
      FreshHasRoom(s, path);
      CreateRefines(s, Target(t, path).parent, Target(t, path).name, pick, isFile);
    case Link(src, dst) =>
      FreshHasRoom(s, dst);
      FileIsLive(s, src);
      LinkRefines(s, Target(t, dst).parent, Target(t, dst).name, Target(t, src).inum);
    case Write(path, offset, data) =>
      FileIsLive(s, path);
      WriteRefines(s, Target(t, path).inum, offset, data);
    case Delete(path) =>
      FileIsLive(s, path);
      DeletedIsFound(s, path);
      DeleteRefines(s, Target(t, path).parent, Target(t, path).name, Target(t, path).inum);
    case Sync =>
  }

  /** What an operation asks for besides defined walks: a free inode number, and
      no new name "-". */
  ghost predicate Fits(t: Table, op: Op) {
    && (op.Create? ==> (0 <= op.pick < 256 ==> op.pick !in t) && (Target(t, op.path).At? ==>
          Target(t, op.path).name != "-"))
    && (op.Link? && FileTarget(t, op.src) ==> Target(t, op.dst).At? && Target(t, op.dst).name != "-")
  }

  lemma StepTableInv(t: Table, op: Op)
    requires Inv(t) && Fits(t, op)
    ensures Inv(StepTable(t, op))
  {
    hide CreateNode, LinkNode, WriteNode, DeleteNode, Target, Full, CountsOk, IsTree, DirOk;
    match op
    case Create(path, isFile, pick) =>
      var w := Target(t, path); TargetIn(t, path);
      if FreshTarget(t, path) && 0 <= pick < 256 {
        DirIsSized(t, w.parent);
        CreateInv(t, w.parent, w.name, pick, isFile);
      }
    case Link(src, dst) =>
      var w := Target(t, dst); TargetIn(t, dst);
      if FileTarget(t, src) && FreshTarget(t, dst) {
        DirIsSized(t, w.parent);
        LinkInv(t, w.parent, w.name, Target(t, src).inum);
      }
    case Write(path, offset, data) =>
      if FileTarget(t, path) && 0 <= offset < 8 { WriteInv(t, Target(t, path).inum, offset, data); }
    case Delete(path) =>
      var w := Target(t, path); TargetIn(t, path);
      if FileTarget(t, path) { DeleteInv(t, w.parent, w.name, w.inum); }
    case Sync =>
  }

  lemma DirIsSized(t: Table, d: int)
    requires DirsOk(t) && d in t && t[d].Dir?
    ensures SizeOk(t[d].slots)
  {
    DirIsOk(t, d);
  }

  lemma AllowedFits(s: FS, op: Op)
    requires WellFormed(s) && Allowed(s, op)
    ensures Fits(TableOf(s), op)
  {
    hide InodeAt, NodeOf, Target, CrOk;
  }

  /** One step keeps the invariant, refines the operation on the resolved file
      system, fails without any change, and overwrites nothing but address 0. */
  lemma StepRefines(s: FS, op: Op, force: bool)
    requires WellFormed(s) && Inv(TableOf(s)) && Allowed(s, op)
    ensures var r := Step(s, op, force);
      && WellFormed(r) && Inv(TableOf(r)) && Extends(s.disk, r.disk)
      && TableOf(r) == StepTable(TableOf(s), op)
      && (!Succeeds(s, op) ==> r == s)
  {
    hide Inv, InodeAt, NodeOf, Target, Full, Logged, DirOk, CountsOk, IsTree, FindName;
    var t := TableOf(s);
    AllowedFits(s, op);
    StepTableInv(t, op);
    if Succeeds(s, op) {
      LoggedRefines(s, op);
      var r := Logged(s, op);
      SyncIsInvisible(r);
      SyncIsInvisible(s);
    }
  }
}
