/** Runs of creations and deletions of the FFS simulator. */
module FfsRuns {
  import opened Arithmetic
  import opened DirEntries
  import opened FfsBitmap
  import opened FfsSearch
  import opened FfsState
  import opened FfsDelete
  import opened Ffs

  /** One operation that succeeds; those that fail change nothing. */
  datatype Step =
    | Create(path: Path, kind: Kind, t: Slot, taken: seq<Slot>, data: Bitmap)
    | Delete(path: Path, i: int)

  ghost predicate Enabled(c: Config, s: State, step: Step) {
    match step
    case Create(path, kind, t, taken, data) => CanCreate(c, s, path, kind, t, taken, data)
    case Delete(path, i) => CanDelete(c, s, path, i)
  }

  ghost function Next(c: Config, s: State, step: Step): State
    requires Enabled(c, s, step)
  {
    match step
    case Create(path, kind, t, taken, data) => Created(c, s, path, kind, t, taken, data)
    case Delete(path, i) => Deleted(c, s, path, i)
  }

  ghost predicate CanRun(c: Config, s: State, steps: seq<Step>)
    decreases |steps|
  {
    steps == [] || (Enabled(c, s, steps[0]) && CanRun(c, Next(c, s, steps[0]), steps[1..]))
  }

  ghost function End(c: Config, s: State, steps: seq<Step>): State
    requires CanRun(c, s, steps)
    decreases |steps|
  {
    if steps == [] then s else End(c, Next(c, s, steps[0]), steps[1..])
  }

  /** The division of every deletion of the run is right. */
  ghost predicate AllRight(c: Config, s: State, steps: seq<Step>)
    requires CanRun(c, s, steps)
    decreases |steps|
  {
    steps == [] || (Right(c, s, steps[0]) && AllRight(c, Next(c, s, steps[0]), steps[1..]))
  }

  ghost predicate Right(c: Config, s: State, step: Step)
    requires Enabled(c, s, step)
  {
    step.Delete? ==> DividesRight(c, s, s.names[step.path])
  }

  /** Every state of the run is consistent. */
  ghost predicate AllConsistent(c: Config, s: State, steps: seq<Step>)
    requires CanRun(c, s, steps)
    decreases |steps|
  {
    Consistent(c, s) && (steps != [] ==> AllConsistent(c, Next(c, s, steps[0]), steps[1..]))
  }

  lemma StepConsistent(c: Config, s: State, step: Step)
    requires Consistent(c, s) && Enabled(c, s, step)
    ensures Consistent(c, Next(c, s, step)) <==> Right(c, s, step)
  {
    hide Consistent, Created, Deleted, CanDelete, DividesRight, Took, FreeIn, HasName, Number;
    match step
    case Create(path, kind, t, taken, data) => CreateConsistent(c, s, path, kind, t, taken, data);
    case Delete(path, i) => DeleteConsistent(c, s, path, i);
  }

  lemma {:induction false} RunConsistent(c: Config, s: State, steps: seq<Step>)
    requires Consistent(c, s) && CanRun(c, s, steps)
    ensures AllConsistent(c, s, steps) <==> AllRight(c, s, steps)
    ensures AllRight(c, s, steps) ==> Consistent(c, End(c, s, steps))
    decreases |steps|
  {
    hide Consistent, Enabled, Next, Right;
    if steps != [] {
      StepConsistent(c, s, steps[0]);
      var s' := Next(c, s, steps[0]);
      if Right(c, s, steps[0]) {
        RunConsistent(c, s', steps[1..]);
      } else {
        ConsistentFirst(c, s', steps[1..]);
      }
    }
  }

  lemma ConsistentFirst(c: Config, s: State, steps: seq<Step>)
    requires CanRun(c, s, steps)
    ensures AllConsistent(c, s, steps) ==> Consistent(c, s)
  {
    hide Consistent, Enabled, Next;
  }

  /** A run from the empty file system stays consistent, and so passes the simulator's own
      verification, if and only if the division of each of its deletions is right. */
  lemma EveryReachableState(c: Config, steps: seq<Step>)
    requires ConfigOk(c) && CanRun(c, InitialState(c), steps)
    ensures AllConsistent(c, InitialState(c), steps) <==> AllRight(c, InitialState(c), steps)
    ensures AllRight(c, InitialState(c), steps) ==>
      Consistent(c, End(c, InitialState(c), steps)) && Verifies(c, End(c, InitialState(c), steps))
  {
    hide Consistent, InitialState, Verifies, CanRun, AllRight, AllConsistent;
    InitialConsistent(c);
    RunConsistent(c, InitialState(c), steps);
    var s := End(c, InitialState(c), steps);
    if Consistent(c, s) { ConsistentVerifies(c, s); }
  }

  /** With as many blocks and inodes to a group as groups, every run is such a run. */
  lemma {:induction false} SquareRuns(c: Config, s: State, steps: seq<Step>)
    requires c.groups == c.blocks == c.inodes && CanRun(c, s, steps)
    ensures AllRight(c, s, steps)
    decreases |steps|
  {
    if steps != [] { SquareRuns(c, Next(c, s, steps[0]), steps[1..]); }
  }

  // ----- a run that goes wrong

  /** The geometry that the simulator has unless told otherwise. */
  const DEFAULT := Config(10, 30, 10)

  ghost function FirstData(): Bitmap {
    Put(InitialState(DEFAULT).dataBitmap, Slot(1, 0), 10)
  }

  ghost function SecondData(): Bitmap {
    Put(Put(FirstData(), Slot(1, 1), 11), Slot(1, 2), 11)
  }

  /** Make a directory, create a file of two blocks in it and delete the file. */
  ghost function DefaultRun(): seq<Step> {
    [Create(["a"], Directory, Slot(1, 0), [Slot(1, 0)], FirstData()),
     Create(["a", "c"], Regular, Slot(1, 1), [Slot(1, 1), Slot(1, 2)], SecondData()),
     Delete(["a", "c"], 2)]
  }

  /** In the default geometry this run, whose inodes and blocks are where the policies put
      them, ends in tables that the simulator's own verification does not pass. */
  lemma DefaultRunFails()
    ensures var s0, steps := InitialState(DEFAULT), DefaultRun();
      && CanRun(DEFAULT, s0, steps) && !Verifies(DEFAULT, End(DEFAULT, s0, steps))
      && PickOk(DEFAULT, s0.inodeBitmap, 0, Directory, false, 1)
      && BlocksNear(s0.dataBitmap, [Slot(1, 0)], [[Slot(1, 0)]], 1, false, 30, 1)
      && var s1 := Next(DEFAULT, s0, steps[0]);
      && PickOk(DEFAULT, s1.inodeBitmap, 10, Regular, false, 1)
      && BlocksNear(s1.dataBitmap, [Slot(1, 1), Slot(1, 2)], [[Slot(1, 1), Slot(1, 2)]], 1, false, 30, 1)
  {
    hide Verifies, InitialState, FirstData, SecondData, PickOk, BlocksNear, Consistent, Enabled, Next, CanRun, End;
    var s0, steps := InitialState(DEFAULT), DefaultRun();
    InitialConsistent(DEFAULT);
    FirstCreate();
    var s1 := Next(DEFAULT, s0, steps[0]);
    StepConsistent(DEFAULT, s0, steps[0]);
    SecondCreate();
    var s2 := Next(DEFAULT, s1, steps[1]);
    StepConsistent(DEFAULT, s1, steps[1]);
    ThenDelete();
    var s3 := Next(DEFAULT, s2, steps[2]);
    assert steps[1..][1..][1..] == [] && steps[1..][0] == steps[1] && steps[1..][1..][0] == steps[2];
    Unroll(s3, []);
    Unroll(s2, steps[1..][1..]);
    Unroll(s1, steps[1..]);
    Unroll(s0, steps);
  }

  lemma Unroll(s: State, steps: seq<Step>)
    ensures steps == [] ==> CanRun(DEFAULT, s, steps) && End(DEFAULT, s, steps) == s
    ensures steps != [] && Enabled(DEFAULT, s, steps[0]) && CanRun(DEFAULT, Next(DEFAULT, s, steps[0]), steps[1..]) ==>
      CanRun(DEFAULT, s, steps) && End(DEFAULT, s, steps) == End(DEFAULT, Next(DEFAULT, s, steps[0]), steps[1..])
  {
    hide Enabled, Next;
  }

  /** What the initial tables hold. */
  lemma InitialFacts()
    ensures var s := InitialState(DEFAULT);
      && |s.dataBitmap| == 10 && |s.inodeBitmap| == 10
      && (forall g :: 0 <= g < 10 ==> |s.dataBitmap[g]| == 30 && |s.inodeBitmap[g]| == 10)
      && (forall u :: InBitmap(s.dataBitmap, u) && u != Slot(0, 0) ==> At(s.dataBitmap, u) == FREE)
      && (forall u :: InBitmap(s.inodeBitmap, u) && u != Slot(0, 0) ==> At(s.inodeBitmap, u) == FREE)
      && FreeInRow(s.inodeBitmap[0]) == 9 && (forall g :: 1 <= g < 10 ==> FreeInRow(s.inodeBitmap[g]) == 10)
      && s.names == map[[] := 0] && s.kinds == map[0 := Directory] && s.dirs == map[0 := NewDir()]
  {
    var row := seq(10, i => FREE);
    AllFreeRow(10);
    var m := AllFree(10, 10);
    assert forall g :: 0 <= g < 10 ==> m[g] == row;
    RowPut(m[0], 0, 0);
  }

  lemma TakesOne(m: Bitmap, t: Slot, owner: int)
    requires InBitmap(m, t) && At(m, t) == FREE && owner != FREE
    ensures Took(m, Put(m, t, owner), [t], owner) && FreeIn(Put(m, t, owner)) == FreeIn(m) - 1
  {
    hide FreeIn;
    NothingTaken(m, owner);
    TookOneMore(m, m, [], owner, t);
    assert [] + [t] == [t];
  }

  lemma NoSuchName(es: seq<Entry>, name: string)
    requires es == NewDir() && |name| == 1 && name[0] != '.'
    ensures !HasName(es, name)
  {
  }

  lemma FirstCreate()
    ensures var s0, steps := InitialState(DEFAULT), DefaultRun();
      && Enabled(DEFAULT, s0, steps[0]) && PickOk(DEFAULT, s0.inodeBitmap, 0, Directory, false, 1)
      && BlocksNear(s0.dataBitmap, [Slot(1, 0)], [[Slot(1, 0)]], 1, false, 30, 1)
  {
    hide InitialState, Took, FreeIn, FreeInRow, Flat, VisitsOk, HasName, SecondData, NewDir, Searched;
    var s0 := InitialState(DEFAULT);
    InitialFacts();
    TakesOne(s0.dataBitmap, Slot(1, 0), 10);
    NoSuchName(NewDir(), "a");
    assert ["a"][..0] == [];
    OneVisit([Slot(1, 0)], 1);
    FirstFound(s0.dataBitmap, [Slot(1, 0)], 0);
    BlocksNearBy(s0.dataBitmap, [Slot(1, 0)], [[Slot(1, 0)]], 1, false, 30, 1, 1);
  }

  lemma OneVisit(taken: seq<Slot>, group: int)
    requires 0 <= group < 10 && |taken| <= 30 && forall k :: 0 <= k < |taken| ==> taken[k].group == group
    ensures Flat([taken]) == taken && VisitsOk([taken], group, 10, 30)
  {
    assert [taken][..0] == [] && [] + taken == taken;
    Quotient(group, 10, 0, group);
  }

  /** The first free blocks of group 1, one after the other, are found in one visit. */
  lemma FirstFound(m: Bitmap, taken: seq<Slot>, from: int)
    requires |m| == 10 && |m[1]| == 30 && 0 <= from && 0 < |taken| && from + |taken| <= 30
    requires forall i :: 0 <= i < from ==> m[1][i] != FREE
    requires forall j :: 0 <= j < |taken| ==> taken[j] == Slot(1, from + j) && m[1][from + j] == FREE
    ensures Searched(Search(m, 1, 30, 1, |taken|), [taken])
  {
    hide VisitSoFar;
    var x, end := Search(m, 1, 30, 1, |taken|), from + |taken|;
    Quotient(1, 10, 0, 1);
    FirstFoundSoFar(x, taken, from, end);
    assert VisitDone(x, [], 0, taken, true);
    assert [taken][..0] == [];
    assert VisitAt(x, [taken], 0, true);
  }

  lemma FirstFoundSoFar(x: Search, taken: seq<Slot>, from: int, end: int)
    requires |x.m| == 10 && |x.m[1]| == 30 && 0 <= from && 0 < |taken| && end == from + |taken| <= 30
    requires x.contig == 1 && x.size == |taken| && VisitGroup(x.target, 0, 10) == 1
    requires forall i :: 0 <= i < from ==> x.m[1][i] != FREE
    requires forall j :: 0 <= j < |taken| ==> taken[j] == Slot(1, from + j) && x.m[1][from + j] == FREE
    ensures VisitSoFar(x, [], 0, taken, end)
  {
    hide VisitGroup;
    forall j | 0 <= j < |taken| ensures TakenAt(x, [], 0, taken, end, j) {
      assert j > 0 ==> taken[j - 1] == Slot(1, from + j - 1);
    }
    assert forall j :: 0 < j <= |taken| ==> GapFrom(taken, j) == from + j;
    forall j, i | 0 <= j <= |taken| && GapFrom(taken, j) <= i < GapTo(taken, j, end) ensures PassedAt(x, [], 0, j, i) {
      assert x.m[1][i] != FREE;
    }
  }

  lemma FirstState()
    ensures var s0, steps := InitialState(DEFAULT), DefaultRun();
      && Enabled(DEFAULT, s0, steps[0])
      && var s1 := Next(DEFAULT, s0, steps[0]);
      && s1.dataBitmap == FirstData() && s1.inodeBitmap == Put(s0.inodeBitmap, Slot(1, 0), 10)
      && ["a"] in s1.names && s1.names[["a"]] == 10 && 10 in s1.kinds && s1.kinds[10] == Directory
      && 10 in s1.dirs && s1.dirs[10] == NewDir() && s1.names.Keys == {[], ["a"]}
  {
    hide InitialState, Took, FreeIn, FreeInRow, HasName, SecondData, FirstData, NewDir, CanCreate, PickOk, BlocksNear;
    InitialFacts();
    FirstCreate();
    CreatedIs(DEFAULT, InitialState(DEFAULT), ["a"], Directory, Slot(1, 0), [Slot(1, 0)], FirstData());
  }

  lemma SecondCreate()
    ensures var s0, steps := InitialState(DEFAULT), DefaultRun();
      && Enabled(DEFAULT, s0, steps[0])
      && var s1 := Next(DEFAULT, s0, steps[0]);
      && Enabled(DEFAULT, s1, steps[1]) && PickOk(DEFAULT, s1.inodeBitmap, 10, Regular, false, 1)
      && BlocksNear(s1.dataBitmap, [Slot(1, 1), Slot(1, 2)], [[Slot(1, 1), Slot(1, 2)]], 1, false, 30, 1)
  {
    hide InitialState, Took, FreeIn, FreeInRow, HasName, NewDir, Next, NearGroup, NoneNear, Flat, VisitsOk, Searched;
    var s0, steps := InitialState(DEFAULT), DefaultRun();
    FirstState();
    InitialFacts();
    var s1 := Next(DEFAULT, s0, steps[0]);
    RowPut(s0.inodeBitmap[1], 0, 10);
    TakesTwo(s1.dataBitmap, Slot(1, 1), Slot(1, 2), 11);
    NoSuchName(NewDir(), "c");
    assert ["a", "c"][..1] == ["a"];
    assert ["a", "c"] !in s1.names by { assert |["a", "c"]| == 2; }
    var taken := [Slot(1, 1), Slot(1, 2)];
    OneVisit(taken, 1);
    FirstFound(s1.dataBitmap, taken, 1);
    BlocksNearBy(s1.dataBitmap, taken, [taken], 1, false, 30, 1, 1);
  }

  lemma TakesTwo(m: Bitmap, t: Slot, u: Slot, owner: int)
    requires InBitmap(m, t) && InBitmap(m, u) && At(m, t) == At(m, u) == FREE && t != u && owner != FREE
    ensures Took(m, Put(Put(m, t, owner), u, owner), [t, u], owner)
    ensures FreeIn(Put(Put(m, t, owner), u, owner)) == FreeIn(m) - 2
  {
    hide FreeIn, Took;
    TakesOne(m, t, owner);
    TookOneMore(m, Put(m, t, owner), [t], owner, u);
    assert [t] + [u] == [t, u];
  }

  lemma DataShape()
    ensures |SecondData()| == 10 && forall g :: 0 <= g < 10 ==> |SecondData()[g]| == 30
  {
    hide InitialState;
    InitialFacts();
  }

  lemma SecondState()
    ensures var s0, steps := InitialState(DEFAULT), DefaultRun();
      && Enabled(DEFAULT, s0, steps[0])
      && var s1 := Next(DEFAULT, s0, steps[0]);
      && Enabled(DEFAULT, s1, steps[1])
      && var s2 := Next(DEFAULT, s1, steps[1]);
      && |s2.dataBitmap| == 10 && |s2.inodeBitmap| == 10
      && (forall g :: 0 <= g < 10 ==> |s2.dataBitmap[g]| == 30 && |s2.inodeBitmap[g]| == 10)
      && ["a"] in s2.names && s2.names[["a"]] == 10 && ["a", "c"] in s2.names && s2.names[["a", "c"]] == 11
      && 10 in s2.kinds && s2.kinds[10] == Directory && 11 in s2.kinds && s2.kinds[11] == Regular
      && 10 in s2.dirs && s2.dirs[10] == NewDir() + [Entry("c", 11)]
      && 11 in s2.fileBlocks && s2.fileBlocks[11] == [31, 32]
  {
    hide InitialState, Took, FreeIn, FreeInRow, HasName, NewDir, CanCreate, PickOk, BlocksNear, FirstData, SecondData;
    DataShape();
    var s0, steps := InitialState(DEFAULT), DefaultRun();
    InitialFacts();
    FirstState();
    SecondCreate();
    var s1 := Next(DEFAULT, s0, steps[0]);
    assert ["a", "c"][..1] == ["a"] && ["a", "c"] != ["a"] by { assert |["a", "c"]| == 2; }
    CreatedIs(DEFAULT, s1, ["a", "c"], Regular, Slot(1, 1), [Slot(1, 1), Slot(1, 2)], SecondData());
    assert Numbers([Slot(1, 1), Slot(1, 2)], 30) == [31, 32];
  }

  lemma ThenDelete()
    ensures var s0, steps := InitialState(DEFAULT), DefaultRun();
      && Enabled(DEFAULT, s0, steps[0])
      && var s1 := Next(DEFAULT, s0, steps[0]);
      && Enabled(DEFAULT, s1, steps[1])
      && var s2 := Next(DEFAULT, s1, steps[1]);
      && Enabled(DEFAULT, s2, steps[2])
      && (Consistent(DEFAULT, s2) ==> !Verifies(DEFAULT, Next(DEFAULT, s2, steps[2])))
  {
    hide InitialState, Took, FreeIn, FreeInRow, HasName, CanCreate, Created, Verifies, Consistent, FirstData,
      SecondData;
    var s0, steps := InitialState(DEFAULT), DefaultRun();
    SecondState();
    var s1 := Next(DEFAULT, s0, steps[0]);
    var s2 := Next(DEFAULT, s1, steps[1]);
    assert ["a", "c"][..1] == ["a"];
    assert Slots([31, 32], 10) == [Slot(3, 1), Slot(3, 2)];
    assert SlotOf(11, 10) == Slot(1, 1);
    if Consistent(DEFAULT, s2) {
      DeleteVerifies(DEFAULT, s2, ["a", "c"], 2);
      assert 31 in s2.fileBlocks[11] by { assert s2.fileBlocks[11][0] == 31; }
      assert 31 >= DEFAULT.groups && DEFAULT.groups != DEFAULT.blocks;
      assert !BlocksRight(DEFAULT, s2, 11);
    }
  }
}
