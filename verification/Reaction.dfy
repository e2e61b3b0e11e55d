/** The water-making monitor: any number of hydrogen and oxygen threads, any interleaving. */
module Reaction {
  import opened Mesa

  /** The monitor's fields, the threads yet to call, those that returned, and the
      molecules made. */
  datatype State = State(
    numH: int, numO: int, hSleep: Condition, oSleep: Condition,
    hNew: nat, oNew: nat, hDone: nat, oDone: nat, molecules: nat)

  /** One lock-held section each; the last two are wakeups nobody asked for. */
  datatype Step = HArrives | HReturns | OArrives | OResumes | OSpurious | HSpurious

  function Initial(hydrogen: nat, oxygen: nat): State {
    State(0, 0, NOBODY, NOBODY, hydrogen, oxygen, 0, 0, 0)
  }

  predicate Enabled(s: State, step: Step) {
    match step
    case HArrives => s.hNew > 0
    case HReturns => s.hSleep.woken > 0
    case OArrives => s.oNew > 0
    case OResumes => s.oSleep.woken > 0
    case OSpurious => s.oSleep.waiting > 0
    case HSpurious => s.hSleep.waiting > 0
  }

  /** The loop test of an oxygen thread that holds the lock, and what follows it. */
  function OxygenTest(s: State): State {
    if s.numH < 2 then s.(oSleep := s.oSleep.Wait())
    else s.(molecules := s.molecules + 1, numH := s.numH - 2, numO := s.numO - 1,
            hSleep := s.hSleep.Signal().Signal(), oDone := s.oDone + 1)
  }

  function Next(s: State, step: Step): State
    requires Enabled(s, step)
  {
    match step
    case HArrives => s.(hNew := s.hNew - 1, numH := s.numH + 1, oSleep := s.oSleep.Signal(), hSleep := s.hSleep.Wait())
    case HReturns => s.(hSleep := s.hSleep.Resume(), hDone := s.hDone + 1)
    case OArrives => OxygenTest(s.(oNew := s.oNew - 1, numO := s.numO + 1))
    case OResumes => OxygenTest(s.(oSleep := s.oSleep.Resume()))
    case OSpurious => s.(oSleep := s.oSleep.Signal())
    case HSpurious => s.(hSleep := s.hSleep.Signal())
  }

  ghost predicate CanRun(s: State, steps: seq<Step>)
    decreases |steps|
  {
    steps == [] || (Enabled(s, steps[0]) && CanRun(Next(s, steps[0]), steps[1..]))
  }

  ghost function End(s: State, steps: seq<Step>): State
    requires CanRun(s, steps)
    decreases |steps|
  {
    if steps == [] then s else End(Next(s, steps[0]), steps[1..])
  }

  /** What holds between any two sections, with `hydrogen` and `oxygen` threads in all. */
  ghost predicate Inv(s: State, hydrogen: nat, oxygen: nat) {
    && s.hSleep.waiting == s.numH
    && s.oSleep.waiting + s.oSleep.woken == s.numO
    && s.oDone == s.molecules
    && s.hDone + s.hSleep.woken == 2 * s.molecules
    && s.hNew + s.numH + 2 * s.molecules == hydrogen
    && s.oNew + s.numO + s.molecules == oxygen
    && (s.oSleep.waiting > 0 ==> s.numH <= s.oSleep.woken + 1)
  }

  /** Nothing can happen any more, unless a sleeper wakes by itself. */
  ghost predicate Quiet(s: State) {
    !Enabled(s, HArrives) && !Enabled(s, HReturns) && !Enabled(s, OArrives) && !Enabled(s, OResumes)
  }

  /** The molecules, and the calls returned, that the threads should lead to. */
  ghost predicate Exact(s: State, hydrogen: nat, oxygen: nat) {
    && s.molecules == (if hydrogen / 2 < oxygen then hydrogen / 2 else oxygen)
    && s.hDone == 2 * s.molecules && s.oDone == s.molecules
  }

  /** No section leaves the invariant, a spurious wakeup of an oxygen thread included. */
  lemma StepKeepsInv(s: State, step: Step, hydrogen: nat, oxygen: nat)
    requires Inv(s, hydrogen, oxygen) && Enabled(s, step) && step != HSpurious
    ensures Inv(Next(s, step), hydrogen, oxygen)
  {
  }

  lemma {:induction false} RunKeepsInv(s: State, steps: seq<Step>, hydrogen: nat, oxygen: nat)
    requires Inv(s, hydrogen, oxygen) && CanRun(s, steps) && HSpurious !in steps
    ensures Inv(End(s, steps), hydrogen, oxygen)
    decreases |steps|
  {
    if steps != [] {
      StepKeepsInv(s, steps[0], hydrogen, oxygen);
      RunKeepsInv(Next(s, steps[0]), steps[1..], hydrogen, oxygen);
    }
  }

  /** Whatever the interleaving, the threads make the right number of molecules, and as
      many calls as there are atoms in them return. */
  lemma WaterIsExact(hydrogen: nat, oxygen: nat, steps: seq<Step>)
    requires CanRun(Initial(hydrogen, oxygen), steps) && HSpurious !in steps
    requires Quiet(End(Initial(hydrogen, oxygen), steps))
    ensures Exact(End(Initial(hydrogen, oxygen), steps), hydrogen, oxygen)
  {
    RunKeepsInv(Initial(hydrogen, oxygen), steps, hydrogen, oxygen);
  }

  /** At no moment of a run are there too many molecules or returned calls, and no
      hydrogen call returns before its molecule is made. */
  lemma NeverTooMuch(hydrogen: nat, oxygen: nat, steps: seq<Step>)
    requires CanRun(Initial(hydrogen, oxygen), steps) && HSpurious !in steps
    ensures var s := End(Initial(hydrogen, oxygen), steps);
      s.hDone <= 2 * s.molecules && 2 * s.molecules <= hydrogen && s.oDone == s.molecules <= oxygen
  {
    RunKeepsInv(Initial(hydrogen, oxygen), steps, hydrogen, oxygen);
  }

  // ----- every run comes to an end

  ghost function Potential(s: State): nat {
    4 * s.hNew + 3 * s.oNew + 3 * s.oSleep.woken + s.hSleep.woken
  }

  ghost function SpuriousIn(steps: seq<Step>): nat {
    if steps == [] then 0 else (if steps[0] == OSpurious then 1 else 0) + SpuriousIn(steps[1..])
  }

  lemma {:induction false} RunIsBounded(s: State, steps: seq<Step>)
    requires CanRun(s, steps) && HSpurious !in steps
    ensures |steps| + Potential(End(s, steps)) <= Potential(s) + 4 * SpuriousIn(steps)
    decreases |steps|
  {
    if steps != [] { RunIsBounded(Next(s, steps[0]), steps[1..]); }
  }

  /** With finitely many spurious wakeups every run ends, and so ends with the exact
      numbers; a run that has not got there can go on. */
  lemma EveryRunGetsThere(hydrogen: nat, oxygen: nat, steps: seq<Step>)
    requires CanRun(Initial(hydrogen, oxygen), steps) && HSpurious !in steps
    ensures |steps| <= 4 * hydrogen + 3 * oxygen + 4 * SpuriousIn(steps)
    ensures var s := End(Initial(hydrogen, oxygen), steps);
      || Exact(s, hydrogen, oxygen)
      || exists step :: step != OSpurious && step != HSpurious && Enabled(s, step)
  {
    RunIsBounded(Initial(hydrogen, oxygen), steps);
    var s := End(Initial(hydrogen, oxygen), steps);
    if Quiet(s) {
      WaterIsExact(hydrogen, oxygen, steps);
    } else {
      var step := if s.hNew > 0 then HArrives else if s.hSleep.woken > 0 then HReturns
                  else if s.oNew > 0 then OArrives else OResumes;
      assert Enabled(s, step);
    }
  }

  // ----- with wakeups of hydrogen threads that nobody asked for

  /** What is left of the invariant: sleeping threads no longer match the count. */
  ghost predicate WeakInv(s: State, hydrogen: nat, oxygen: nat) {
    && s.hSleep.waiting <= s.numH
    && s.oSleep.waiting + s.oSleep.woken == s.numO
    && s.oDone == s.molecules
    && s.hDone + s.hSleep.woken + s.hSleep.waiting + s.hNew == hydrogen
    && s.hNew + s.numH + 2 * s.molecules == hydrogen
    && s.oNew + s.numO + s.molecules == oxygen
    && (s.oSleep.waiting > 0 ==> s.numH <= s.oSleep.woken + 1)
  }

  lemma StepKeepsWeakInv(s: State, step: Step, hydrogen: nat, oxygen: nat)
    requires WeakInv(s, hydrogen, oxygen) && Enabled(s, step)
    ensures WeakInv(Next(s, step), hydrogen, oxygen)
  {
  }

  lemma {:induction false} RunKeepsWeakInv(s: State, steps: seq<Step>, hydrogen: nat, oxygen: nat)
    requires WeakInv(s, hydrogen, oxygen) && CanRun(s, steps)
    ensures WeakInv(End(s, steps), hydrogen, oxygen)
    decreases |steps|
  {
    if steps != [] {
      StepKeepsWeakInv(s, steps[0], hydrogen, oxygen);
      RunKeepsWeakInv(Next(s, steps[0]), steps[1..], hydrogen, oxygen);
    }
  }

  /** Every run, with any wakeups, ends with the exact numbers. */
  ghost predicate AlwaysExact(hydrogen: nat, oxygen: nat) {
    forall steps ::
      CanRun(Initial(hydrogen, oxygen), steps) && Quiet(End(Initial(hydrogen, oxygen), steps)) ==>
        Exact(End(Initial(hydrogen, oxygen), steps), hydrogen, oxygen)
  }

  ghost predicate AllBond(hydrogen: nat, oxygen: nat) {
    hydrogen % 2 == 0 && hydrogen / 2 <= oxygen
  }

  /** A hydrogen thread does not test anything when it wakes, so one woken for nothing
      returns without a molecule: from any state, unless every hydrogen atom will bond, a run
      goes on to where one sleeps for ever, and wakes it. */
  lemma {:induction false} GoesWrong(s: State, hydrogen: nat, oxygen: nat) returns (steps: seq<Step>)
    requires Inv(s, hydrogen, oxygen) && !AllBond(hydrogen, oxygen)
    ensures CanRun(s, steps) && Quiet(End(s, steps)) && !Exact(End(s, steps), hydrogen, oxygen)
    decreases Potential(s)
  {
    if Quiet(s) {
      var s1 := Next(s, HSpurious);
      var s2 := Next(s1, HReturns);
      Prefix(s1, HReturns, []);
      Prefix(s, HSpurious, [HReturns]);
      steps := [HSpurious] + [HReturns];
    } else {
      var step := if s.hNew > 0 then HArrives else if s.hSleep.woken > 0 then HReturns
                  else if s.oNew > 0 then OArrives else OResumes;
      StepKeepsInv(s, step, hydrogen, oxygen);
      var rest := GoesWrong(Next(s, step), hydrogen, oxygen);
      Prefix(s, step, rest);
      steps := [step] + rest;
    }
  }

  lemma Prefix(s: State, step: Step, rest: seq<Step>)
    requires Enabled(s, step) && CanRun(Next(s, step), rest)
    ensures CanRun(s, [step] + rest) && End(s, [step] + rest) == End(Next(s, step), rest)
    ensures [step] + [] == [step]
  {
    assert ([step] + rest)[1..] == rest;
  }

  /** The numbers are exact whatever wakes whom if and only if every hydrogen atom finds its
      molecule: they are even in number, and there is oxygen for each pair. */
  lemma ExactWhateverWakes(hydrogen: nat, oxygen: nat)
    ensures AlwaysExact(hydrogen, oxygen) <==> AllBond(hydrogen, oxygen)
  {
    var s0 := Initial(hydrogen, oxygen);
    if AllBond(hydrogen, oxygen) {
      forall steps | CanRun(s0, steps) && Quiet(End(s0, steps)) ensures Exact(End(s0, steps), hydrogen, oxygen) {
        RunKeepsWeakInv(s0, steps, hydrogen, oxygen);
      }
    } else {
      var steps := GoesWrong(s0, hydrogen, oxygen);
    }
  }

  /** The shortest such run: one hydrogen atom alone. */
  lemma SpuriousHydrogen()
    ensures var steps := [HArrives, HSpurious, HReturns];
      && CanRun(Initial(1, 0), steps)
      && Quiet(End(Initial(1, 0), steps)) && !Exact(End(Initial(1, 0), steps), 1, 0)
  {
    var s0 := Initial(1, 0);
    var s1 := Next(s0, HArrives);
    var s2 := Next(s1, HSpurious);
    Prefix(s2, HReturns, []);
    Prefix(s1, HSpurious, [HReturns]);
    Prefix(s0, HArrives, [HSpurious, HReturns]);
    assert [HSpurious] + [HReturns] == [HSpurious, HReturns];
    assert [HArrives] + [HSpurious, HReturns] == [HArrives, HSpurious, HReturns];
  }

  /** The monitor itself: each method is one section between taking the lock and giving
      it back or going to sleep. */
  class Monitor {
    var numH: int
    var numO: int
    var hSleep: Condition
    var oSleep: Condition
    ghost var hNew: nat
    ghost var oNew: nat
    ghost var hDone: nat
    ghost var oDone: nat
    ghost var molecules: nat

    ghost function S(): State
      reads this
    {
      State(numH, numO, hSleep, oSleep, hNew, oNew, hDone, oDone, molecules)
    }

    constructor (ghost hydrogen: nat, ghost oxygen: nat)
      ensures S() == Initial(hydrogen, oxygen) && Inv(S(), hydrogen, oxygen)
    {
      numH, numO, hSleep, oSleep := 0, 0, NOBODY, NOBODY;
      hNew, oNew, hDone, oDone, molecules := hydrogen, oxygen, 0, 0, 0;
    }

    /** `reaction_h` up to its sleep. */
    method HydrogenArrives(ghost hydrogen: nat, ghost oxygen: nat)
      requires Inv(S(), hydrogen, oxygen) && Enabled(S(), HArrives)
      modifies this
      ensures S() == Next(old(S()), HArrives) && Inv(S(), hydrogen, oxygen)
    {
      hNew := hNew - 1;
      numH := numH + 1;
      oSleep := oSleep.Signal();
      hSleep := hSleep.Wait();
    }

    /** `reaction_h` from its wakeup to its return. */
    method HydrogenReturns(ghost hydrogen: nat, ghost oxygen: nat)
      requires Inv(S(), hydrogen, oxygen) && Enabled(S(), HReturns)
      modifies this
      ensures S() == Next(old(S()), HReturns) && Inv(S(), hydrogen, oxygen)
    {
      hSleep := hSleep.Resume();
      hDone := hDone + 1;
    }

    /** `reaction_o` up to its first sleep or its return. */
    method OxygenArrives(ghost hydrogen: nat, ghost oxygen: nat)
      requires Inv(S(), hydrogen, oxygen) && Enabled(S(), OArrives)
      modifies this
      ensures S() == Next(old(S()), OArrives) && Inv(S(), hydrogen, oxygen)
    {
      oNew := oNew - 1;
      numO := numO + 1;
      TestAndMake();
    }

    /** `reaction_o` from a wakeup to the next sleep or its return. */
    method OxygenResumes(ghost hydrogen: nat, ghost oxygen: nat)
      requires Inv(S(), hydrogen, oxygen) && Enabled(S(), OResumes)
      modifies this
      ensures S() == Next(old(S()), OResumes) && Inv(S(), hydrogen, oxygen)
    {
      oSleep := oSleep.Resume();
      TestAndMake();
    }

    method TestAndMake()
      modifies this
      ensures S() == OxygenTest(old(S()))
    {
      if numH < 2 {
        oSleep := oSleep.Wait();
      } else {
        molecules := molecules + 1;
        numH := numH - 2;
        numO := numO - 1;
        hSleep := hSleep.Signal();
        hSleep := hSleep.Signal();
        oDone := oDone + 1;
      }
    }
  }
}
