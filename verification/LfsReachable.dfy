/**
 The theorems about every run: what holds in each reachable state, what a crash
 recovers, and which blocks are garbage.
 */
module LfsReachable {
  import opened LfsTable
  import opened LfsTableInv
  import opened LfsDisk
  import opened LfsRefine
  import opened LfsRun
  import opened LfsRecovery
  import opened LfsOwnership
  import opened LfsNames

  /** A run so far: the present state, the state at the last sync, and the stale
      files of both. */
  datatype Run = Run(now: FS, synced: FS, stale: set<int>, syncedStale: set<int>)

  function InitialFS(): FS {
    var cr := seq(16, c => if c == 0 then 3 else -1);
    FS([Checkpoint(cr), DirBlock(NewDirSlots(0, 0)), InodeBlock(Inode(Directory, 1, 2, NoPtrs()[0 := 1])),
        ImapChunk(seq(16, i => if i == 0 then 2 else -1))],
       seq(256, i => if i == 0 then 2 else -1), cr)
  }

  function InitialRun(): Run {
    Run(InitialFS(), InitialFS(), {}, {})
  }

  ghost predicate StateOk(s: FS, stale: set<int>) {
    Agree(s, stale) && Inv(TableOf(s)) && Owned(s)
  }

  /** The invariant of all runs. */
  ghost predicate RunOk(run: Run) {
    && StateOk(run.now, run.stale) && StateOk(run.synced, run.syncedStale)
    && Extends(run.synced.disk, run.now.disk)
    && run.now.disk[0].addrs == run.synced.cr
  }

  ghost function RunStep(run: Run, op: Op, force: bool): Run
    requires WellFormed(run.now) && Allowed(run.now, op)
  {
    if !Succeeds(run.now, op) then run
    else
      var r := Step(run.now, op, force);
      var stale := if op.Sync? then run.stale else StaleAfter(run.now, op, run.stale);
      if op.Sync? || force then Run(r, r, stale, stale) else Run(r, run.synced, stale, run.syncedStale)
  }

  lemma StepOk(run: Run, op: Op, force: bool)
    requires RunOk(run) && Allowed(run.now, op)
    ensures RunOk(RunStep(run, op, force))
  {
    hide Inv, Owned, InodeAt, NodeOf, CrOk, Logged, Allowed, Succeeds, AgreeAt, StaleAfter, MapOk;
    var s := run.now;
    StepRefines(s, op, force);
    if Succeeds(s, op) {
      var r := if op.Sync? then s else LoggedOk(s, op);
      var stale := if op.Sync? then run.stale else StaleAfter(s, op, run.stale);
      if !op.Sync? {
        LoggedRefines(s, op);
        AgreeLogged(s, run.stale, op);
        LoggedOwned(s, op);
      }
      SyncAgrees(r, stale);
      SyncOwned(r);
      SyncIsInvisible(r);
    }
  }

  lemma SyncAgrees(s: FS, stale: set<int>)
    requires Agree(s, stale)
    ensures Agree(CrSync(s), stale)
  {
    hide InodeAt, NodeOf;
    SyncIsInvisible(s);
    forall i | 0 <= i < 256 ensures AgreeAt(CrSync(s), stale, i) {
      assert AgreeAt(s, stale, i);
      ChunkAddrFrame(s.disk, CrSync(s).disk, s.cr, i);
      if i in stale { BehindFrame(s.disk, CrSync(s).disk, ChunkAddr(s.disk, s.cr, i), s.inodeMap[i]); }
    }
  }

  lemma ChunkAddrFrame(disk: seq<Block>, disk': seq<Block>, cr: seq<int>, i: int)
    requires CrOk(disk, cr) && Extends(disk, disk') && 0 <= i < 256
    ensures CrOk(disk', cr) && ChunkAddr(disk', cr, i) == ChunkAddr(disk, cr, i)
  {
    ChunkFrame(disk, disk', cr);
    if cr[ChunkOf(i)] != -1 { assert ChunkAt(disk, cr[ChunkOf(i)]); }
  }

  /** All operations of a run are defined where they are run. */
  ghost predicate AllAllowed(run: Run, ops: seq<Op>, force: bool)
    decreases |ops|
  {
    ops == [] || (WellFormed(run.now) && Allowed(run.now, ops[0])
      && AllAllowed(RunStep(run, ops[0], force), ops[1..], force))
  }

  ghost function RunAll(run: Run, ops: seq<Op>, force: bool): Run
    requires AllAllowed(run, ops, force)
    decreases |ops|
  {
    if ops == [] then run else RunAll(RunStep(run, ops[0], force), ops[1..], force)
  }

  lemma {:induction false} RunKeepsOk(run: Run, ops: seq<Op>, force: bool)
    requires RunOk(run) && AllAllowed(run, ops, force)
    ensures RunOk(RunAll(run, ops, force))
    decreases |ops|
  {
    hide RunOk, Allowed, WellFormed, RunStep;
    if ops != [] {
      StepOk(run, ops[0], force);
      RunKeepsOk(RunStep(run, ops[0], force), ops[1..], force);
    }
  }

  lemma InitialOk()
    ensures RunOk(InitialRun())
  {
    hide Inv;
    var s := InitialFS();
    assert IsDirBlock(s.disk, 1) && s.disk[2].inode.pointers[0] == 1;
    assert InodeAt(s.disk, 2);
    assert DirSlots(s.disk, s.disk[2].inode.pointers, 1) == NewDirSlots(0, 0);
    assert ChunkAt(s.disk, 3);
    assert TableOf(s) == Initial();
    InitialInv();
    forall i | 0 <= i < 256 ensures AgreeAt(s, {}, i) {}
    assert Owned(s) by {
      forall q | IsPtr(s, q) && PtrAt(s, q) != -1 ensures q == Pos(0, 0) {}
    }
  }

  /** Every state that any sequence of operations reaches, under either checkpoint
      policy, satisfies the invariant: entries valid, names unique, link counts
      exact, directories a tree, blocks owned once, checkpoint entries in agreement. */
  lemma EveryReachableState(ops: seq<Op>, force: bool)
    requires AllAllowed(InitialRun(), ops, force)
    ensures RunOk(RunAll(InitialRun(), ops, force))
  {
    hide RunOk, RunAll, AllAllowed;
    InitialOk();
    RunKeepsOk(InitialRun(), ops, force);
  }

  /** Over a whole run the simulator does to the tree of names what the plain
      operations do, one after the other. */
  lemma {:induction false} RunRefinesTree(run: Run, ops: seq<Op>, force: bool)
    requires RunOk(run) && AllAllowed(run, ops, force)
    ensures RunOk(RunAll(run, ops, force)) && WellFormed(run.now) && WellFormed(RunAll(run, ops, force).now)
    ensures TreeNow(RunAll(run, ops, force)) == TreeRun(TreeNow(run), ops)
    decreases |ops|
  {
    hide RunOk, Allowed, WellFormed, TreeStep, TreeNow, RunStep, EightBlocks, Inv, TableOf, TreeOf, Step, Succeeds,
      StaleAfter;
    RunIsWellFormed(run);
    RunKeepsOk(run, ops, force);
    RunIsWellFormed(RunAll(run, ops, force));
    if ops != [] {
      StepOk(run, ops[0], force);
      TreeAfterStep(run, ops[0], force);
      RunRefinesTree(RunStep(run, ops[0], force), ops[1..], force);
    }
  }

  /** The tree of names at a point of a run. */
  ghost function TreeNow(run: Run): Tree
    requires WellFormed(run.now)
  {
    TreeOf(TableOf(run.now))
  }

  lemma TreeAfterStep(run: Run, op: Op, force: bool)
    requires WellFormed(run.now) && Inv(TableOf(run.now)) && Allowed(run.now, op)
    ensures WellFormed(RunStep(run, op, force).now) && EightBlocks(TreeNow(run))
    ensures TreeNow(RunStep(run, op, force)) == TreeStep(TreeNow(run), op)
  {
    hide Allowed, WellFormed, TreeStep, TableOf, TreeOf, Step, Succeeds, StaleAfter, EightBlocks;
    StepRefinesTree(run.now, op, force);
  }

  /** The plain operations one after the other. */
  ghost function TreeRun(a: Tree, ops: seq<Op>): Tree
    decreases |ops|
  {
    if ops == [] then a
    else if !EightBlocks(a) then a
    else TreeRun(TreeStep(a, ops[0]), ops[1..])
  }

  lemma RunIsWellFormed(run: Run)
    requires RunOk(run)
    ensures WellFormed(run.now) && WellFormed(run.synced)
    ensures Inv(TableOf(run.now)) && EightBlocks(TreeNow(run))
  {
    hide InodeAt, NodeOf, CrOk, Owned, DirsOk, CountsOk, IsTree;
  }

  // ----- crash recovery

  /** The inode map that a reader rebuilds from address 0. */
  ghost function RecoveredFrom(disk: seq<Block>): seq<int>
    requires |disk| > 0 && disk[0].Checkpoint? && CrOk(disk, disk[0].addrs)
  {
    seq(256, i requires 0 <= i < 256 => ChunkAddr(disk, disk[0].addrs, i))
  }

  ghost function RecoveredMap(s: FS): seq<int>
    requires WellFormed(s)
  {
    RecoveredFrom(s.disk)
  }

  /** Two nodes that differ at most in their link count. */
  ghost predicate SameButRefs(u: Node, v: Node) {
    u == v.(refs := u.refs)
  }

  /** What recovery yields, compared with the state at the last sync. */
  ghost predicate RecoversUpToRefs(t: Table, t0: Table, stale: set<int>) {
    && t.Keys == t0.Keys
    && (forall i :: i in t ==> SameButRefs(t[i], t0[i]))
    && (forall i :: i in t ==> if i in stale then t[i].refs < t0[i].refs else t[i].refs == t0[i].refs)
    && (t == t0 <==> stale == {})
  }

  /** A disk whose address 0 was last written at the sync of `synced` and to which
      anything may have been appended since. */
  ghost predicate SyncedDisk(synced: FS, disk: seq<Block>) {
    |disk| > 0 && Extends(synced.disk, disk) && disk[0] == Checkpoint(synced.cr)
  }

  lemma RecoveredNode(synced: FS, stale: set<int>, disk: seq<Block>, i: int)
    requires Agree(synced, stale) && SyncedDisk(synced, disk) && 0 <= i < 256
    ensures CrOk(disk, disk[0].addrs)
    ensures var a, b := ChunkAddr(disk, disk[0].addrs, i), synced.inodeMap[i];
      && (a == -1 <==> b == -1)
      && (a == -1 ==> i !in stale)
      && (a != -1 ==>
        && InodeAt(disk, a) && InodeAt(synced.disk, b)
        && SameButRefs(NodeOf(disk, a), NodeOf(synced.disk, b))
        && if i in stale then NodeOf(disk, a).refs < NodeOf(synced.disk, b).refs
           else NodeOf(disk, a).refs == NodeOf(synced.disk, b).refs)
  {
    hide CrOk;
    assert AgreeAt(synced, stale, i);
    ChunkAddrFrame(synced.disk, disk, synced.cr, i);
    var a := ChunkAddr(synced.disk, synced.cr, i);
    if a != -1 { NodeFrame(synced.disk, disk, a); }
  }

  lemma AgreeOf(s: FS, stale: set<int>)
    requires StateOk(s, stale)
    ensures Agree(s, stale) && Inv(TableOf(s)) && WellFormed(s) && MapOk(s.disk, s.inodeMap)
    ensures TableOf(s) == Resolve(s.disk, s.inodeMap)
  {
    hide Inv, Owned;
  }

  /** Crash recovery: whatever was appended since the last sync, even only part of
      an operation's blocks, what address 0 leads to is the file system of that
      sync, node by node, with a smaller link count exactly at the stale files. */
  lemma DiskRecovery(synced: FS, stale: set<int>, disk: seq<Block>)
    requires StateOk(synced, stale) && SyncedDisk(synced, disk)
    ensures WellFormed(synced) && CrOk(disk, disk[0].addrs)
    ensures MapOk(disk, RecoveredFrom(disk))
    ensures RecoversUpToRefs(Resolve(disk, RecoveredFrom(disk)), TableOf(synced), stale)
  {
    hide Inv, Owned, CrOk, InodeAt, NodeOf, Agree, StateOk, WellFormed;
    AgreeOf(synced, stale);
    RecoveredNode(synced, stale, disk, 0);
    var m := RecoveredFrom(disk);
    forall i | 0 <= i < 256
      ensures m[i] != -1 ==> InodeAt(disk, m[i])
      ensures m[i] == -1 <==> synced.inodeMap[i] == -1
    {
      RecoveredNode(synced, stale, disk, i);
    }
    var t, t0 := Resolve(disk, m), TableOf(synced);
    forall i | i in t
      ensures i in t0 && SameButRefs(t[i], t0[i])
      ensures if i in stale then t[i].refs < t0[i].refs else t[i].refs == t0[i].refs
    {
      RecoveredNode(synced, stale, disk, i);
    }
    StaleAreLive(synced, stale);
    if stale == {} {
      forall i | i in t ensures t[i] == t0[i] {}
    } else {
      var i :| i in stale;
      RecoveredNode(synced, stale, disk, i);
    }
  }

  lemma StaleAreLive(s: FS, stale: set<int>)
    requires StateOk(s, stale)
    ensures forall i :: i in stale ==> 0 <= i < 256 && i in TableOf(s)
  {
    hide Inv, Owned, CrOk, InodeAt, NodeOf;
    forall i | i in stale ensures 0 <= i < 256 && i in TableOf(s) { assert AgreeAt(s, stale, i); }
  }

  /** After any run, and in the middle of the next operation: a crash recovers the
      last sync. */
  lemma CrashRecovery(run: Run, disk: seq<Block>)
    requires RunOk(run) && run.now.disk <= disk
    ensures WellFormed(run.synced) && |disk| > 0 && disk[0].Checkpoint? && CrOk(disk, disk[0].addrs)
    ensures MapOk(disk, RecoveredFrom(disk))
    ensures RecoversUpToRefs(Resolve(disk, RecoveredFrom(disk)), TableOf(run.synced), run.syncedStale)
  {
    hide Inv, Owned, CrOk, InodeAt, NodeOf, StateOk, WellFormed;
    AgreeOf(run.now, run.stale);
    CheckpointIsThere(run.now);
    DiskRecovery(run.synced, run.syncedStale, disk);
  }

  lemma CheckpointIsThere(s: FS)
    requires WellFormed(s)
    ensures |s.disk| > 0 && s.disk[0].Checkpoint?
  {
  }

  /** So every path leads, after a crash, where it led at the last sync. */
  lemma RecoveredPaths(run: Run, disk: seq<Block>, path: string)
    requires RunOk(run) && run.now.disk <= disk
    ensures WellFormed(run.synced) && |disk| > 0 && disk[0].Checkpoint? && CrOk(disk, disk[0].addrs)
    ensures MapOk(disk, RecoveredFrom(disk))
    ensures Target(Resolve(disk, RecoveredFrom(disk)), path) == Target(TableOf(run.synced), path)
  {
    hide RunOk, MapOk, Resolve, TableOf, RecoveredFrom, CrOk;
    RunIsWellFormed(run);
    CrashRecovery(run, disk);
    var t, t0 := Resolve(disk, RecoveredFrom(disk)), TableOf(run.synced);
    var p := Split(path);
    SameWalk(t, t0, 0, if |p| == 1 then p else p[1..]);
  }

  lemma {:induction false} SameWalk(t: Table, t0: Table, d: int, path: seq<string>)
    requires t.Keys == t0.Keys && forall i :: i in t ==> SameButRefs(t[i], t0[i])
    requires |path| > 0
    ensures WalkFrom(t, d, path) == WalkFrom(t0, d, path)
    decreases |path|
  {
    if d in t {
      assert SameButRefs(t[d], t0[d]);
      if t[d].Dir? && |path| > 1 && Lookup(t, d, path[0]) != -1 {
        SameWalk(t, t0, Lookup(t, d, path[0]), path[1..]);
      }
    }
  }

  /** With forced checkpoints the last sync is always the present state. */
  lemma {:induction false} ForcedIsSynced(run: Run, ops: seq<Op>)
    requires AllAllowed(run, ops, true) && run.now == run.synced && run.stale == run.syncedStale
    ensures var r := RunAll(run, ops, true); r.now == r.synced && r.stale == r.syncedStale
    decreases |ops|
  {
    hide Allowed, WellFormed, Succeeds, Step, StaleAfter;
    if ops != [] { ForcedIsSynced(RunStep(run, ops[0], true), ops[1..]); }
  }

  // ----- when link counts survive, too

  /** No link of the run crosses chunks: its source's inode number lies in the
      chunk of the directory it is linked into. */
  ghost predicate LinksInChunk(run: Run, ops: seq<Op>, force: bool)
    requires AllAllowed(run, ops, force)
    decreases |ops|
  {
    ops == [] || (
      && (ops[0].Link? && Succeeds(run.now, ops[0]) ==>
            var t := TableOf(run.now);
            ChunkOf(Target(t, ops[0].src).inum) == ChunkOf(Target(t, ops[0].dst).parent))
      && LinksInChunk(RunStep(run, ops[0], force), ops[1..], force))
  }

  lemma {:induction false} NothingStale(run: Run, ops: seq<Op>, force: bool)
    requires AllAllowed(run, ops, force) && LinksInChunk(run, ops, force)
    requires run.stale == {} && run.syncedStale == {}
    ensures RunAll(run, ops, force).stale == {} && RunAll(run, ops, force).syncedStale == {}
    decreases |ops|
  {
    hide Allowed, WellFormed, Logged, Target, Full;
    if ops != [] {
      var op := ops[0];
      if Succeeds(run.now, op) && !op.Sync? { NotStale(run.now, op); }
      NothingStale(RunStep(run, op, force), ops[1..], force);
    }
  }

  /** The caller's test, exactly: an operation leaves a file stale if and only if
      it is a link whose source lies in another chunk than the target directory. */
  lemma NotStale(s: FS, op: Op)
    requires WellFormed(s) && Succeeds(s, op)
    ensures StaleAfter(s, op, {}) == {} <==>
      (op.Link? ==> ChunkOf(Target(TableOf(s), op.src).inum) == ChunkOf(Target(TableOf(s), op.dst).parent))
  {
    hide Target, Full, InodeAt, NodeOf, CrOk;
    if op.Link? {
      var n, p := Target(TableOf(s), op.src).inum, Target(TableOf(s), op.dst).parent;
      assert LoggedFor(s, op) == [p];
      TableLive(s, n);
      assert TouchesChunk([p], ChunkOf(n)) <==> ChunkOf(n) == ChunkOf(p) by { TouchesFirst([p]); }
      assert n in StaleAfter(s, op, {}) <==> ChunkOf(n) != ChunkOf(p);
    }
  }

  /** Runs whose links stay within one chunk recover exactly the last synced state,
      link counts included. */
  lemma ExactRecovery(ops: seq<Op>, force: bool)
    requires AllAllowed(InitialRun(), ops, force) && LinksInChunk(InitialRun(), ops, force)
    ensures var run := RunAll(InitialRun(), ops, force);
      && RunOk(run) && WellFormed(run.now) && WellFormed(run.synced)
      && MapOk(run.now.disk, RecoveredMap(run.now))
      && Resolve(run.now.disk, RecoveredMap(run.now)) == TableOf(run.synced)
  {
    hide RunOk, RunAll, AllAllowed, LinksInChunk, InitialFS, CrOk, MapOk, Resolve, TableOf;
    EveryReachableState(ops, force);
    NothingStale(InitialRun(), ops, force);
    var run := RunAll(InitialRun(), ops, force);
    RunIsWellFormed(run);
    CrashRecovery(run, run.now.disk);
  }

  // ----- garbage

  /** What the liveness scan is after: address 0, the current imap chunks, the
      inodes in the map and the blocks they point to. */
  ghost predicate InUse(s: FS, a: int)
    requires MapOk(s.disk, s.inodeMap)
  {
    || a == 0
    || (a != -1 && a in s.cr)
    || (exists i :: Live(s.inodeMap, i) && a == s.inodeMap[i])
    || (a != -1 && exists q :: IsPtr(s, q) && PtrAt(s, q) == a)
  }

  /** Whatever is written over a block that is not in use, every inode and every
      block it points to stays as it was. */
  lemma GarbageIsSafe(s: FS, a: int, b: Block)
    requires MapOk(s.disk, s.inodeMap) && 0 <= a < |s.disk| && !InUse(s, a)
    ensures MapOk(s.disk[a := b], s.inodeMap)
    ensures Resolve(s.disk[a := b], s.inodeMap) == Resolve(s.disk, s.inodeMap)
  {
    var disk' := s.disk[a := b];
    forall i | Live(s.inodeMap, i)
      ensures InodeAt(disk', s.inodeMap[i]) && NodeOf(disk', s.inodeMap[i]) == NodeOf(s.disk, s.inodeMap[i])
    {
      hide MapOk, InUse;
      NodeAvoids(s.disk, a, b, s.inodeMap[i], s, i);
    }
  }

  lemma NodeAvoids(disk: seq<Block>, a: int, b: Block, at: int, s: FS, i: int)
    requires MapOk(s.disk, s.inodeMap) && Live(s.inodeMap, i) && disk == s.disk && at == s.inodeMap[i]
    requires 0 <= a < |disk| && !InUse(s, a)
    ensures InodeAt(disk, at) && InodeAt(disk[a := b], at) && NodeOf(disk[a := b], at) == NodeOf(disk, at)
  {
    var disk' := disk[a := b];
    var ino := disk[at].inode;
    forall k | 0 <= k < 8 ensures ino.pointers[k] != a {
      assert IsPtr(s, Pos(i, k)) && PtrAt(s, Pos(i, k)) == ino.pointers[k];
    }
    match ino.itype
    case Directory =>
      forall k | 0 <= k < ino.size ensures IsDirBlock(disk', ino.pointers[k])
        && disk'[ino.pointers[k]] == disk[ino.pointers[k]] {
        assert IsDirBlock(disk, ino.pointers[k]);
      }
      SameDirSlots(disk, disk', ino.pointers, ino.size);
    case Regular =>
      assert FileBlocks(disk', ino.pointers) == FileBlocks(disk, ino.pointers);
  }

  lemma SameDirSlots(disk: seq<Block>, disk': seq<Block>, ptrs: seq<int>, size: int)
    requires DirPtrsOk(disk, ptrs, size) && DirPtrsOk(disk', ptrs, size)
    requires forall k :: 0 <= k < size ==> disk'[ptrs[k]] == disk[ptrs[k]]
    ensures DirSlots(disk', ptrs, size) == DirSlots(disk, ptrs, size)
  {
    forall x | 0 <= x < 8 * size ensures DirSlots(disk', ptrs, size)[x] == DirSlots(disk, ptrs, size)[x] {
      DirSlotRead(disk, ptrs, size, x);
      DirSlotRead(disk', ptrs, size, x);
    }
  }
}
