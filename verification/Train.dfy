/**
 The train-station monitor: one train loading at a time, any number of passengers, each
 of whom sits down once after boarding.
 */
module Train {
  import opened Mesa

  /** Where the thread that loads a train is. */
  datatype Loader = Away | WaitingToSeat | WaitingForPass

  /** The station's fields, the loading thread's own count, and the threads yet to call.
      `size` and `boarded` describe the train last loaded, `left` what its loop exited on. */
  datatype State = State(
    waitingPassenger: int, standing: int, numSeats: int,
    waitForTrain: Condition, waitForPass: Condition, waitToSeat: Condition,
    loader: Loader, count: int,
    arriving: nat, aboard: nat, seated: nat, trains: nat,
    size: int, boarded: nat, left: bool)

  datatype Step = LoadTrain(count: int) | LoaderSeated | LoaderPassed | Arrive | Board | Sit

  function Initial(passengers: nat, trains: nat): State {
    State(0, 0, 0, NOBODY, NOBODY, NOBODY, Away, 0, passengers, 0, 0, trains, 0, 0, true)
  }

  predicate Enabled(s: State, step: Step) {
    match step
    case LoadTrain(_) => s.loader == Away && s.trains > 0
    case LoaderSeated => s.loader == WaitingToSeat && s.waitToSeat.woken > 0
    case LoaderPassed => s.loader == WaitingForPass && s.waitForPass.woken > 0
    case Arrive => s.arriving > 0
    case Board => s.waitForTrain.woken > 0
    case Sit => s.aboard > 0
  }

  /** The loading loop's test and one turn, up to the next sleep or the return. */
  function LoadLoop(s: State): State {
    if s.waitingPassenger > 0 && s.count > 0 then
      s.(waitForTrain := s.waitForTrain.Signal(), count := s.count - 1, waitToSeat := s.waitToSeat.Wait(),
         loader := WaitingToSeat)
    else if s.standing > 0 then
      s.(waitForPass := s.waitForPass.Wait(), loader := WaitingForPass, left := s.waitingPassenger == 0)
    else s.(loader := Away, left := s.waitingPassenger == 0)
  }

  function Next(s: State, step: Step): State
    requires Enabled(s, step)
  {
    match step
    case LoadTrain(count) =>
      LoadLoop(s.(numSeats := count, count := count, trains := s.trains - 1, size := count, boarded := 0))
    case LoaderSeated => LoadLoop(s.(waitToSeat := s.waitToSeat.Resume()))
    case LoaderPassed => s.(waitForPass := s.waitForPass.Resume(), loader := Away)
    case Arrive => s.(arriving := s.arriving - 1, waitingPassenger := s.waitingPassenger + 1,
      waitForTrain := s.waitForTrain.Wait())
    case Board =>
      s.(waitForTrain := s.waitForTrain.Resume(), standing := s.standing + 1,
        waitingPassenger := s.waitingPassenger - 1,
         numSeats := s.numSeats - 1, waitToSeat := s.waitToSeat.Signal(), aboard := s.aboard + 1,
           boarded := s.boarded + 1)
    case Sit =>
      s.(standing := s.standing - 1, aboard := s.aboard - 1, seated := s.seated + 1,
         waitForPass := if s.standing == 1 then s.waitForPass.Broadcast() else s.waitForPass)
  }

  /** What holds between any two sections, of `passengers` in all. */
  ghost predicate Inv(s: State, passengers: nat) {
    && s.waitForTrain.waiting + s.waitForTrain.woken == s.waitingPassenger
    && s.standing == s.aboard
    && s.arriving + s.waitingPassenger + s.aboard + s.seated == passengers
    && SeatPartOk(s) && PassPartOk(s)
    && s.numSeats == s.size - s.boarded
    && s.count == s.numSeats - s.waitForTrain.woken
    && s.boarded + s.waitForTrain.woken <= Room(s)
  }

  /** The places of a train: none if its count is negative. */
  function Room(s: State): nat {
    if s.size > 0 then s.size else 0
  }

  /** A loader waiting for a passenger to come aboard has exactly one on the way, or its
      own wakeup; otherwise nobody has been let aboard. */
  ghost predicate SeatPartOk(s: State) {
    if s.loader == WaitingToSeat then
      && s.waitToSeat.waiting + s.waitToSeat.woken == 1
      && s.waitForTrain.woken + s.waitToSeat.woken == 1
    else s.waitToSeat == NOBODY && s.waitForTrain.woken == 0
  }

  /** A loader waiting for its passengers to sit still has some standing, or its wakeup. */
  ghost predicate PassPartOk(s: State) {
    if s.loader == WaitingForPass then
      && s.waitForPass.waiting + s.waitForPass.woken == 1
      && (s.waitForPass.waiting == 1 <==> s.standing > 0)
      && FilledOrLeft(s)
    else s.waitForPass == NOBODY && (s.loader == Away ==> s.standing == 0 && FilledOrLeft(s))
  }

  /** The train is full, or nobody was waiting when its loop ended. */
  ghost predicate FilledOrLeft(s: State) {
    s.boarded == Room(s) || s.left
  }

  lemma StepKeepsInv(s: State, step: Step, passengers: nat)
    requires Inv(s, passengers) && Enabled(s, step)
    ensures Inv(Next(s, step), passengers)
  {
  }

  lemma PotentialPositive(s: State, passengers: nat)
    requires Inv(s, passengers)
    ensures Potential(s) >= 0
  {
  }

  /** Each signal of a loading train wakes a passenger, and each boarding passenger's
      signal wakes the loader: none is lost. */
  lemma SignalsAreReal(s: State, step: Step, passengers: nat)
    requires Inv(s, passengers) && Enabled(s, step)
    ensures var s' := Next(s, step);
      && (step == Board ==> s'.waitToSeat.woken == s.waitToSeat.woken + 1)
      && ((step.LoadTrain? || step == LoaderSeated) && s'.loader == WaitingToSeat ==>
            s'.waitForTrain.woken == s.waitForTrain.woken + 1)
  {
  }

  /** The loading loop goes on exactly as long as somebody is waiting and there is a place
      left, and notes on leaving whether nobody was; nothing else touches that note. */
  lemma LoopEnds(s: State, step: Step, passengers: nat)
    requires Inv(s, passengers) && Enabled(s, step)
    ensures var s' := Next(s, step);
      if step.LoadTrain? || step == LoaderSeated then
        && (s'.loader == WaitingToSeat <==> s'.waitingPassenger > 0 && s'.boarded < Room(s'))
        && (s'.loader == WaitingForPass <==> s'.loader != WaitingToSeat && s'.standing > 0)
        && (s'.loader != WaitingToSeat ==> (s'.left <==> s'.waitingPassenger == 0))
        && s'.waitingPassenger == s.waitingPassenger && s'.standing == s.standing
      else s'.left == s.left && (s'.loader == s.loader || (step == LoaderPassed && s'.loader == Away))
  {
  }

  /** What a train that has been loaded leaves the station with. */
  lemma TrainLoaded(s: State, step: Step, passengers: nat)
    requires Inv(s, passengers) && Enabled(s, step) && Next(s, step).loader == Away
    requires step.LoadTrain? || s.loader != Away
    ensures var s' := Next(s, step);
      && s'.standing == 0 && s'.boarded <= Room(s') && s'.numSeats == s'.size - s'.boarded
      && (s'.boarded == Room(s') || s'.left)
  {
    StepKeepsInv(s, step, passengers);
  }

  // ----- runs

  ghost predicate CanRun(s: State, steps: seq<Step>)
    decreases |steps|
  {
    steps == [] || (Enabled(s, steps[0]) && CanRun(Next(s, steps[0]), steps[1..]))
  }

  ghost function End(s: State, steps: seq<Step>): State
    requires CanRun(s, steps)
    decreases |steps|
  {
    if steps == [] then s else End(Next(s, steps[0]), steps[1..])
  }

  lemma {:induction false} RunKeepsInv(s: State, steps: seq<Step>, passengers: nat)
    requires Inv(s, passengers) && CanRun(s, steps)
    ensures Inv(End(s, steps), passengers)
    decreases |steps|
  {
    if steps != [] {
      StepKeepsInv(s, steps[0], passengers);
      RunKeepsInv(Next(s, steps[0]), steps[1..], passengers);
    }
  }

  ghost function Potential(s: State): int {
    4 * s.arriving + 3 * s.waitingPassenger + s.aboard + s.waitToSeat.woken + 2 * s.trains
    + if s.loader == Away then 0 else 1
  }

  lemma StepUsesPotential(s: State, step: Step, passengers: nat)
    requires Inv(s, passengers) && Enabled(s, step)
    ensures Potential(Next(s, step)) < Potential(s)
  {
  }

  lemma {:induction false} RunIsBounded(s: State, steps: seq<Step>, passengers: nat)
    requires Inv(s, passengers) && CanRun(s, steps)
    ensures |steps| + Potential(End(s, steps)) <= Potential(s)
    decreases |steps|
  {
    if steps != [] {
      hide Inv, Next, Enabled, Potential;
      StepKeepsInv(s, steps[0], passengers);
      StepUsesPotential(s, steps[0], passengers);
      RunIsBounded(Next(s, steps[0]), steps[1..], passengers);
    }
  }

  /** Every run ends after at most four steps a passenger and two a train; when nothing
      can happen any more no train is being loaded, everyone let aboard has sat down, all
      others wait for another train, and all trains have come and gone. */
  lemma EveryTrainGetsLoaded(passengers: nat, trains: nat, steps: seq<Step>)
    requires CanRun(Initial(passengers, trains), steps)
    ensures |steps| <= 4 * passengers + 2 * trains
    ensures var s := End(Initial(passengers, trains), steps);
      || (exists step :: Enabled(s, step))
      || (s.loader == Away && s.trains == 0 && s.standing == 0 && s.seated + s.waitingPassenger == passengers
          && s.waitForTrain.waiting == s.waitingPassenger && (s.boarded == Room(s) || s.left))
  {
    var s0 := Initial(passengers, trains);
    RunKeepsInv(s0, steps, passengers);
    RunIsBounded(s0, steps, passengers);
    PotentialPositive(End(s0, steps), passengers);
    SomeStep(End(s0, steps), passengers);
  }

  lemma SomeStep(s: State, passengers: nat)
    requires Inv(s, passengers)
    ensures (s.arriving > 0 || s.aboard > 0 || s.waitForTrain.woken > 0 || s.loader != Away || s.trains > 0) ==>
      exists step :: Enabled(s, step)
  {
    if s.arriving > 0 { assert Enabled(s, Arrive); }
    if s.aboard > 0 { assert Enabled(s, Sit); }
    if s.waitForTrain.woken > 0 { assert Enabled(s, Board); }
    if s.loader == Away && s.trains > 0 { assert Enabled(s, LoadTrain(0)); }
    if s.loader == WaitingToSeat { assert Enabled(s, Board) || Enabled(s, LoaderSeated); }
    if s.loader == WaitingForPass { assert Enabled(s, Sit) || Enabled(s, LoaderPassed); }
  }

  /** The monitor: each method is one section between taking the lock and giving it back
      or going to sleep. */
  class Station {
    var waitingPassenger: int
    var standing: int
    var numSeats: int
    var waitForTrain: Condition
    var waitForPass: Condition
    var waitToSeat: Condition
    var count: int
    ghost var loader: Loader
    ghost var arriving: nat
    ghost var aboard: nat
    ghost var seated: nat
    ghost var trains: nat
    ghost var size: int
    ghost var boarded: nat
    ghost var left: bool

    ghost function S(): State
      reads this
    {
      State(waitingPassenger, standing, numSeats, waitForTrain, waitForPass, waitToSeat, loader, count,
            arriving, aboard, seated, trains, size, boarded, left)
    }

    constructor (ghost passengers: nat, ghost trains: nat)
      ensures S() == Initial(passengers, trains) && Inv(S(), passengers)
    {
      waitingPassenger, standing, numSeats, count := 0, 0, 0, 0;
      waitForTrain, waitForPass, waitToSeat := NOBODY, NOBODY, NOBODY;
      loader, arriving, aboard, seated, this.trains := Away, passengers, 0, 0, trains;
      size, boarded, left := 0, 0, true;
    }

    /** `station_load_train` from its start. */
    method StartLoading(places: int, ghost passengers: nat)
      requires Inv(S(), passengers) && Enabled(S(), LoadTrain(places))
      modifies this
      ensures S() == Next(old(S()), LoadTrain(places)) && Inv(S(), passengers)
    {
      hide Inv;
      StepKeepsInv(S(), LoadTrain(places), passengers);
      numSeats := places;
      count := places;
      trains, size, boarded := trains - 1, places, 0;
      Load();
    }

    /** `station_load_train` from its wakeup in the loop. */
    method ContinueLoading(ghost passengers: nat)
      requires Inv(S(), passengers) && Enabled(S(), LoaderSeated)
      modifies this
      ensures S() == Next(old(S()), LoaderSeated) && Inv(S(), passengers)
    {
      hide Inv;
      StepKeepsInv(S(), LoaderSeated, passengers);
      waitToSeat := waitToSeat.Resume();
      Load();
    }

    method Load()
      modifies this
      ensures S() == LoadLoop(old(S()))
    {
      if waitingPassenger > 0 && count > 0 {
        waitForTrain := waitForTrain.Signal();
        count := count - 1;
        waitToSeat := waitToSeat.Wait();
        loader := WaitingToSeat;
        return;
      }
      left := waitingPassenger == 0;
      if standing > 0 {
        waitForPass := waitForPass.Wait();
        loader := WaitingForPass;
      } else {
        loader := Away;
      }
    }

    /** `station_load_train` from its last wakeup to its return. */
    method FinishLoading(ghost passengers: nat)
      requires Inv(S(), passengers) && Enabled(S(), LoaderPassed)
      modifies this
      ensures S() == Next(old(S()), LoaderPassed) && Inv(S(), passengers)
    {
      hide Inv;
      StepKeepsInv(S(), LoaderPassed, passengers);
      waitForPass := waitForPass.Resume();
      loader := Away;
    }

    /** `station_wait_for_train` up to its sleep. */
    method WaitForTrain(ghost passengers: nat)
      requires Inv(S(), passengers) && Enabled(S(), Arrive)
      modifies this
      ensures S() == Next(old(S()), Arrive) && Inv(S(), passengers)
    {
      hide Inv;
      StepKeepsInv(S(), Arrive, passengers);
      arriving := arriving - 1;
      waitingPassenger := waitingPassenger + 1;
      waitForTrain := waitForTrain.Wait();
    }

    /** `station_wait_for_train` from its wakeup to its return. */
    method BoardTrain(ghost passengers: nat)
      requires Inv(S(), passengers) && Enabled(S(), Board)
      modifies this
      ensures S() == Next(old(S()), Board) && Inv(S(), passengers)
    {
      hide Inv;
      StepKeepsInv(S(), Board, passengers);
      waitForTrain := waitForTrain.Resume();
      standing := standing + 1;
      waitingPassenger := waitingPassenger - 1;
      numSeats := numSeats - 1;
      waitToSeat := waitToSeat.Signal();
      aboard, boarded := aboard + 1, boarded + 1;
    }

    /** `station_on_board`. */
    method OnBoard(ghost passengers: nat)
      requires Inv(S(), passengers) && Enabled(S(), Sit)
      modifies this
      ensures S() == Next(old(S()), Sit) && Inv(S(), passengers)
    {
      hide Inv;
      StepKeepsInv(S(), Sit, passengers);
      standing := standing - 1;
      if standing == 0 {
        waitForPass := waitForPass.Broadcast();
      }
      aboard, seated := aboard - 1, seated + 1;
    }
  }
}
