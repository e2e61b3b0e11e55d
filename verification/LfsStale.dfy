/** The gap in crash recovery, at an input: a link whose source and whose destination
    directory lie in different chunks of the inode map. */
module LfsStale {
  import opened LfsTable
  import opened LfsTableInv
  import opened LfsDisk
  import opened LfsRefine
  import opened LfsRun
  import opened LfsRecovery
  import opened LfsReachable

  /** Create a file on the first inode of the second chunk, and link it. */
  function LinkAcross(): seq<Op> {
    [Create("/a", true, 16), Link("/a", "/b")]
  }

  /** After this run, every update synced, what a crash recovers is not what was synced: the
      file's link count is too small. */
  lemma LinkCountLost()
    ensures var run, ops := InitialRun(), LinkAcross();
      && AllAllowed(run, ops, true)
      && var end := RunAll(run, ops, true);
      && end.now == end.synced && end.syncedStale == {16} && WellFormed(end.synced)
      && |end.now.disk| > 0 && end.now.disk[0].Checkpoint? && CrOk(end.now.disk, end.now.disk[0].addrs)
      && MapOk(end.now.disk, RecoveredFrom(end.now.disk))
      && Resolve(end.now.disk, RecoveredFrom(end.now.disk)) != TableOf(end.synced)
  {
    hide RunOk, RunStep, RunAll, AllAllowed, WellFormed, Allowed, TableOf, Resolve, MapOk, CrOk, InitialRun;
    var run, ops := InitialRun(), LinkAcross();
    InitialOk();
    FirstStep();
    StepOk(run, ops[0], true);
    var run1 := RunStep(run, ops[0], true);
    SecondStep();
    StepOk(run1, ops[1], true);
    var run2 := RunStep(run1, ops[1], true);
    assert ops[1..][1..] == [] && ops[1..][0] == ops[1];
    Unroll(run2, []);
    Unroll(run1, ops[1..]);
    Unroll(run, ops);
    RunIsWellFormed(run2);
    CrashRecovery(run2, run2.now.disk);
  }

  lemma Unroll(run: Run, ops: seq<Op>)
    ensures ops == [] ==> AllAllowed(run, ops, true) && RunAll(run, ops, true) == run
    ensures (ops != [] && WellFormed(run.now) && Allowed(run.now, ops[0])
             && AllAllowed(RunStep(run, ops[0], true), ops[1..], true)) ==>
      && AllAllowed(run, ops, true)
      && RunAll(run, ops, true) == RunAll(RunStep(run, ops[0], true), ops[1..], true)
  {
    hide WellFormed, Allowed, RunStep;
  }

  lemma SplitOne(s: string)
    requires |s| == 2 && s[0] == '/' && s[1] != '/'
    ensures Split(s) == ["", [s[1]]]
  {
    var rest := s[1..];
    assert rest[1..] == "" && rest[0] == s[1];
    assert Split("") == [""];
    assert [rest[0]] + "" == [s[1]] && [""][1..] == [];
    assert Split(rest) == [[s[1]]] + [];
    assert Split(s) == [""] + Split(rest);
  }

  lemma RootTarget(t: Table, path: string)
    requires |path| == 2 && path[0] == '/' && path[1] != '/' && 0 in t && t[0].Dir?
    ensures Target(t, path) == At(0, [path[1]], Lookup(t, 0, [path[1]]))
  {
    hide Lookup;
    SplitOne(path);
    assert ["", [path[1]]][1..] == [[path[1]]];
  }

  /** Where names are in the root directory with one file. */
  lemma RootSlots()
    ensures var slots := NewDirSlots(0, 0);
      && FreeSlot(slots) == 2 && !Full(slots) && LookupSlots(slots, "a") == -1
      && var more := AddSlot(slots, Entry("a", 16));
      && more[2] == Entry("a", 16) && LookupSlots(more, "a") == 16 && LookupSlots(more, "b") == -1 && !Full(more)
  {
    hide FindName;
    var slots := NewDirSlots(0, 0);
    assert slots[0].name == "." && slots[1].name == ".." && slots[2] == FREE && FREE.name == "-" && |slots| == 8;
    assert |".."| == 2 && "."[0] == '.' && "-"[0] == '-' && "a"[0] == 'a' && "b"[0] == 'b';
    FoundAt(slots, "-", 2);
    FoundAt(slots, "a", 8);
    var more := slots[2 := Entry("a", 16)];
    FoundAt(more, "a", 2);
    FoundAt(more, "b", 8);
  }

  lemma FoundAt(s: seq<Entry>, name: string, x: nat)
    requires x <= |s| && (x < |s| ==> s[x].name == name)
    requires forall y :: 0 <= y < x ==> s[y].name != name
    ensures FindName(s, name) == x
  {
  }

  /** The tables before and after the file is created. */
  lemma FirstStep()
    ensures var run, op := InitialRun(), LinkAcross()[0];
      && WellFormed(run.now) && Allowed(run.now, op)
      && var run1 := RunStep(run, op, true);
      && run1.now == run1.synced && run1.stale == run1.syncedStale == {} && WellFormed(run1.now)
      && TableOf(run1.now)
         == CreateNode(Initial(), 0, "a", 16, true)
  {
    hide FindName, AddSlot, NewDirSlots, Full, RunOk, Logged, InodeAt, NodeOf, Target, Inv;
    var run, op := InitialRun(), LinkAcross()[0];
    var s := run.now;
    InitialOk();
    RunIsWellFormed(run);
    InitialTable();
    var t := TableOf(s);
    RootTarget(t, "/a");
    assert ['a'] == "a" && "a"[0] != "-"[0];
    RootSlots();
    assert FreshTarget(t, "/a") && s.inodeMap[16] == -1;
    StepRefines(s, op, true);
    NotStale(s, op);
  }

  lemma InitialTable()
    ensures WellFormed(InitialFS()) && TableOf(InitialFS()) == Initial()
  {
    hide Inv;
    var s := InitialFS();
    assert IsDirBlock(s.disk, 1) && s.disk[2].inode.pointers[0] == 1;
    assert InodeAt(s.disk, 2);
    assert DirSlots(s.disk, s.disk[2].inode.pointers, 1) == NewDirSlots(0, 0);
    assert ChunkAt(s.disk, 3);
  }

  lemma SecondStep()
    ensures var run, ops := InitialRun(), LinkAcross();
      && WellFormed(run.now) && Allowed(run.now, ops[0])
      && var run1 := RunStep(run, ops[0], true);
      && WellFormed(run1.now) && Allowed(run1.now, ops[1])
      && var run2 := RunStep(run1, ops[1], true);
      && run2.now == run2.synced && run2.syncedStale == {16}
  {
    hide FindName, AddSlot, NewDirSlots, Full, RunOk, Logged, InodeAt, NodeOf, Target, Inv, RunStep, Step, TableOf;
    var run, ops := InitialRun(), LinkAcross();
    FirstStep();
    var run1 := RunStep(run, ops[0], true);
    var s := run1.now;
    var t := TableOf(s);
    RootSlots();
    RootTarget(t, "/a");
    RootTarget(t, "/b");
    assert ['a'] == "a" && ['b'] == "b" && "b"[0] != "-"[0];
    assert FileTarget(t, "/a") && FreshTarget(t, "/b");
    LinkStep(run1, ops[1]);
    StaleIs(s, ops[1]);
  }

  lemma LinkStep(run: Run, op: Op)
    requires WellFormed(run.now) && Allowed(run.now, op) && Succeeds(run.now, op) && op.Link?
    ensures var r := RunStep(run, op, true);
      r.now == r.synced && r.syncedStale == StaleAfter(run.now, op, run.stale)
  {
    hide WellFormed, Allowed, Succeeds, Step, StaleAfter;
  }

  lemma StaleIs(s: FS, op: Op)
    requires WellFormed(s) && Succeeds(s, op) && op.Link?
    requires Target(TableOf(s), op.src).inum == 16 && Target(TableOf(s), op.dst).parent == 0
    ensures StaleAfter(s, op, {}) == {16}
  {
    hide Target, Full, InodeAt, NodeOf, CrOk, TableOf;
    assert LoggedFor(s, op) == [0];
    TouchesFirst([0]);
    assert !TouchesChunk([0], ChunkOf(16)) by { assert ChunkOf(16) == 1 && ChunkOf(0) == 0; }
  }
}
