/**
 The web server's bounded buffer: one producer that accepts connections, any number of
 workers, and a queue in either scheduling order. Each step is one lock-held section; the
 worker's unlock after the pop is taken to be its only one.
 */
module Server {
  import opened Mesa
  import opened ServerQueue

  datatype Scheduler = FIFO | SFF

  datatype Producer = Accepting | Holding(connection: Connection)

  /** The queue, the producer, the two condition variables, the workers outside the lock
      that look for work next, and those that handle a request. The rest is history. */
  datatype State = State(
    scheduler: Scheduler, limit: int, queue: seq<Connection>, producer: Producer,
    sleep: Condition, full: Condition, idle: nat, handling: multiset<Connection>,
    arrivals: nat, accepted: multiset<Connection>, inserted: seq<Connection>,
    popped: seq<Connection>, served: multiset<Connection>)

  datatype Step =
    | Accept(c: Connection) | ProducerResumes | WorkerEnters | WorkerResumes
    | WorkerDone(c: Connection) | WorkerSpurious | ProducerSpurious

  /** The queue's limit for the buffer size given on the command line. */
  function Limit(buffers: int): int {
    if buffers <= 0 then 65535 else buffers
  }

  function Initial(scheduler: Scheduler, buffers: int, workers: nat, arrivals: nat): State {
    State(scheduler, Limit(buffers), [], Accepting, NOBODY, NOBODY, workers, multiset{},
          arrivals, multiset{}, [], [], multiset{})
  }

  predicate Enabled(s: State, step: Step) {
    match step
    case Accept(c) => s.producer == Accepting && s.arrivals > 0 && c.valid == 1
    case ProducerResumes => s.full.woken > 0 && s.producer.Holding?
    case WorkerEnters => s.idle > 0
    case WorkerResumes => s.sleep.woken > 0
    case WorkerDone(c) => c in s.handling
    case WorkerSpurious => s.sleep.waiting > 0
    case ProducerSpurious => s.full.waiting > 0
  }

  function Insert(scheduler: Scheduler, q: seq<Connection>, c: Connection, limit: int): seq<Connection> {
    if scheduler == FIFO then FifoInsert(q, c, limit) else SffInsert(q, c, limit)
  }

  /** The producer's loop test, with the lock, and what follows it. */
  function ProducerTest(s: State, c: Connection): State {
    if |s.queue| == s.limit then s.(producer := Holding(c), full := s.full.Wait())
    else s.(producer := Accepting, queue := Insert(s.scheduler, s.queue, c, s.limit), inserted := s.inserted + [c],
            sleep := s.sleep.Signal())
  }

  /** A worker's loop test, with the lock, and what follows it. */
  function WorkerTest(s: State): State {
    if s.queue == [] then s.(sleep := s.sleep.Wait())
    else s.(full := if |s.queue| != s.limit then s.full.Signal() else s.full, queue := s.queue[1..],
            handling := s.handling + multiset{s.queue[0]}, popped := s.popped + [s.queue[0]])
  }

  function Next(s: State, step: Step): State
    requires Enabled(s, step)
  {
    match step
    case Accept(c) => ProducerTest(s.(arrivals := s.arrivals - 1, accepted := s.accepted + multiset{c}), c)
    case ProducerResumes => ProducerTest(s.(full := s.full.Resume()), s.producer.connection)
    case WorkerEnters => WorkerTest(s.(idle := s.idle - 1))
    case WorkerResumes => WorkerTest(s.(sleep := s.sleep.Resume()))
    case WorkerDone(c) =>
      s.(handling := s.handling - multiset{c}, served := s.served + multiset{c}, idle := s.idle + 1)
    case WorkerSpurious => s.(sleep := s.sleep.Signal())
    case ProducerSpurious => s.(full := s.full.Signal())
  }

  // ----- what holds between any two sections

  ghost function HeldBack(p: Producer): multiset<Connection> {
    if p.Holding? then multiset{p.connection} else multiset{}
  }

  ghost predicate QueueOk(s: State) {
    && s.limit >= 1 && |s.queue| <= s.limit
    && (forall c :: c in s.queue ==> c.valid == 1)
    && (s.producer.Holding? ==> s.producer.connection.valid == 1)
    && (s.scheduler == FIFO ==> s.popped + s.queue == s.inserted)
    && (s.scheduler == SFF ==> Ascending(s.queue))
  }

  /** Every request accepted is in exactly one place. */
  ghost predicate NothingLost(s: State) {
    && multiset(s.queue) + multiset(s.popped) == multiset(s.inserted)
    && multiset(s.inserted) + HeldBack(s.producer) == s.accepted
    && s.handling + s.served == multiset(s.popped)
  }

  /** A sleeping worker that nobody has woken means that there are no more requests than
      woken workers; a producer in that place, that at most one request has been taken. */
  ghost predicate WakeupsOk(s: State, workers: nat) {
    && s.idle + s.sleep.waiting + s.sleep.woken + |s.handling| == workers
    && s.full.waiting + s.full.woken == (if s.producer.Holding? then 1 else 0)
    && (s.sleep.waiting > 0 ==> |s.queue| <= s.sleep.woken)
    && (s.full.waiting > 0 ==> |s.queue| >= s.limit - 1)
  }

  ghost predicate Inv(s: State, workers: nat) {
    QueueOk(s) && NothingLost(s) && WakeupsOk(s, workers)
  }

  lemma AllMarked(q: seq<Connection>)
    requires forall c :: c in q ==> c.valid == 1
    ensures Marked(q) == q
  {
    assert forall k :: 0 <= k < |q| ==> q[k] in q;
  }

  /** Putting a request into a queue with room keeps the others. */
  lemma InsertKeeps(scheduler: Scheduler, q: seq<Connection>, c: Connection, limit: int)
    requires |q| < limit && c.valid == 1 && forall x :: x in q ==> x.valid == 1
    ensures var r := Insert(scheduler, q, c, limit);
      && |r| == |q| + 1 && multiset(r) == multiset(q) + multiset{c}
      && (forall x :: x in r ==> x.valid == 1)
      && (scheduler == SFF ==> Ascending(r)) && (scheduler == FIFO ==> r == q + [c])
  {
    hide SortedQueue, Marked;
    var all := q + [c];
    AllMarked(all);
    SffInsertSorts(q, c, limit);
    if scheduler == SFF {
      SortedQueueSorts(all);
      var r := Insert(scheduler, q, c, limit);
      assert multiset(r) == multiset(all);
      forall x | x in r ensures x in all { assert x in multiset(r); }
    }
  }

  lemma ProducerTestKeeps(s: State, c: Connection, workers: nat)
    requires s.limit >= 1 && |s.queue| <= s.limit && c.valid == 1 && s.producer == Accepting && s.full == NOBODY
    requires QueueOk(s) && multiset(s.queue) + multiset(s.popped) == multiset(s.inserted)
    requires multiset(s.inserted) + multiset{c} == s.accepted && s.handling + s.served == multiset(s.popped)
    requires WakeupsOk(s, workers)
    ensures Inv(ProducerTest(s, c), workers)
  {
    hide Insert, Ascending;
    if |s.queue| < s.limit { InsertKeeps(s.scheduler, s.queue, c, s.limit); }
  }

  /** What a worker that has the lock, and is counted nowhere else, starts from. */
  ghost predicate WorkerReady(s: State, workers: nat) {
    && s.idle + s.sleep.waiting + s.sleep.woken + |s.handling| + 1 == workers
    && s.full.waiting + s.full.woken == (if s.producer.Holding? then 1 else 0)
    && (s.sleep.waiting > 0 ==> |s.queue| <= s.sleep.woken + 1)
    && (s.full.waiting > 0 ==> |s.queue| >= s.limit - 1)
  }

  lemma WorkerTestKeeps(s: State, workers: nat)
    requires QueueOk(s) && NothingLost(s) && WorkerReady(s, workers)
    ensures Inv(WorkerTest(s), workers)
  {
    hide Ascending, NothingLost, WorkerReady, WakeupsOk;
    WorkerTestWakes(s, workers);
    WorkerTestLosesNothing(s);
    if s.queue != [] { TakeFront(s.queue, s.popped); }
  }

  lemma WorkerTestWakes(s: State, workers: nat)
    requires s.limit >= 1 && |s.queue| <= s.limit && WorkerReady(s, workers)
    ensures WakeupsOk(WorkerTest(s), workers)
  {
  }

  lemma WorkerTestLosesNothing(s: State)
    requires NothingLost(s)
    ensures NothingLost(WorkerTest(s))
  {
    if s.queue != [] { TakeFront(s.queue, s.popped); }
  }

  lemma TakeFront(q: seq<Connection>, popped: seq<Connection>)
    requires q != []
    ensures multiset(q) == multiset{q[0]} + multiset(q[1..]) && popped + q == (popped + [q[0]]) + q[1..]
    ensures multiset(popped + [q[0]]) == multiset(popped) + multiset{q[0]}
    ensures (forall c :: c in q[1..] ==> c in q) && (Ascending(q) ==> Ascending(q[1..]))
  {
    assert q == [q[0]] + q[1..];
  }

  lemma StepKeepsInv(s: State, step: Step, workers: nat)
    requires Inv(s, workers) && Enabled(s, step)
    ensures Inv(Next(s, step), workers)
  {
    hide ProducerTest, WorkerTest, QueueOk, NothingLost, WakeupsOk;
    match step
    case Accept(c) => AcceptKeeps(s, c, workers);
    case ProducerResumes => ResumeKeeps(s, workers);
    case WorkerEnters => WorkerKeeps(s, workers);
    case WorkerResumes => WorkerKeeps(s, workers);
    case WorkerDone(c) => DoneKeeps(s, c, workers);
    case WorkerSpurious => SpuriousKeeps(s, workers);
    case ProducerSpurious => SpuriousKeeps(s, workers);
  }

  lemma AcceptKeeps(s: State, c: Connection, workers: nat)
    requires Inv(s, workers) && Enabled(s, Accept(c))
    ensures Inv(Next(s, Accept(c)), workers)
  {
    hide ProducerTest, Ascending, Inv;
    assert QueueOk(s) && NothingLost(s) && WakeupsOk(s, workers) by { Parts(s, workers); }
    ProducerTestKeeps(s.(arrivals := s.arrivals - 1, accepted := s.accepted + multiset{c}), c, workers);
  }

  lemma ResumeKeeps(s: State, workers: nat)
    requires Inv(s, workers) && Enabled(s, ProducerResumes)
    ensures Inv(Next(s, ProducerResumes), workers)
  {
    hide ProducerTest, Ascending, Inv;
    assert QueueOk(s) && NothingLost(s) && WakeupsOk(s, workers) by { Parts(s, workers); }
    var c := s.producer.connection;
    Resumed(s, c);
    ProducerTestKeeps(s.(full := s.full.Resume(), producer := Accepting), c, workers);
  }

  lemma Parts(s: State, workers: nat)
    requires Inv(s, workers)
    ensures QueueOk(s) && NothingLost(s) && WakeupsOk(s, workers)
  {
  }

  lemma WorkerKeeps(s: State, workers: nat)
    requires Inv(s, workers)
    ensures s.idle > 0 ==> Inv(WorkerTest(s.(idle := s.idle - 1)), workers)
    ensures s.sleep.woken > 0 ==> Inv(WorkerTest(s.(sleep := s.sleep.Resume())), workers)
  {
    hide WorkerTest, Ascending;
    if s.idle > 0 { WorkerTestKeeps(s.(idle := s.idle - 1), workers); }
    if s.sleep.woken > 0 { WorkerTestKeeps(s.(sleep := s.sleep.Resume()), workers); }
  }

  lemma DoneKeeps(s: State, c: Connection, workers: nat)
    requires Inv(s, workers) && Enabled(s, WorkerDone(c))
    ensures Inv(Next(s, WorkerDone(c)), workers)
  {
    hide Ascending;
  }

  lemma SpuriousKeeps(s: State, workers: nat)
    requires Inv(s, workers)
    ensures Inv(s.(sleep := s.sleep.Signal()), workers) && Inv(s.(full := s.full.Signal()), workers)
  {
    hide Ascending;
  }

  lemma Resumed(s: State, c: Connection)
    requires s.full.woken > 0
    ensures ProducerTest(s.(full := s.full.Resume()), c)
      == ProducerTest(s.(full := s.full.Resume(), producer := Accepting), c)
  {
  }

  /** In shortest-file-first order a worker gets a request no larger than any queued. */
  lemma SmallestFirst(s: State, step: Step, workers: nat)
    requires Inv(s, workers) && Enabled(s, step) && s.scheduler == SFF
    requires step == WorkerEnters || step == WorkerResumes
    ensures s.queue != [] ==>
      var s' := Next(s, step);
      && |s'.popped| == |s.popped| + 1
      && forall k :: 0 <= k < |s.queue| ==> s'.popped[|s.popped|].filesize <= s.queue[k].filesize
  {
  }

  // ----- runs

  ghost predicate CanRun(s: State, steps: seq<Step>)
    decreases |steps|
  {
    steps == [] || (Enabled(s, steps[0]) && CanRun(Next(s, steps[0]), steps[1..]))
  }

  ghost function End(s: State, steps: seq<Step>): State
    requires CanRun(s, steps)
    decreases |steps|
  {
    if steps == [] then s else End(Next(s, steps[0]), steps[1..])
  }

  lemma {:induction false} RunKeepsInv(s: State, steps: seq<Step>, workers: nat)
    requires Inv(s, workers) && CanRun(s, steps)
    ensures Inv(End(s, steps), workers)
    ensures End(s, steps).limit == s.limit && End(s, steps).scheduler == s.scheduler
    decreases |steps|
  {
    hide Inv, Enabled, Next;
    if steps != [] {
      StepKeepsInv(s, steps[0], workers);
      StepKeepsLimit(s, steps[0]);
      RunKeepsInv(Next(s, steps[0]), steps[1..], workers);
    }
  }

  lemma StepKeepsLimit(s: State, step: Step)
    requires Enabled(s, step)
    ensures Next(s, step).limit == s.limit && Next(s, step).scheduler == s.scheduler
  {
  }

  /** In every reachable state the queue is within its limit, and no request accepted is
      lost or taken twice; first in, first out, they are taken as they came. */
  lemma EveryRequestOnce(scheduler: Scheduler, buffers: int, workers: nat, arrivals: nat, steps: seq<Step>)
    requires CanRun(Initial(scheduler, buffers, workers, arrivals), steps)
    ensures var s := End(Initial(scheduler, buffers, workers, arrivals), steps);
      && |s.queue| <= Limit(buffers) && NothingLost(s)
      && s.accepted == multiset(s.queue) + s.handling + s.served + HeldBack(s.producer)
      && (scheduler == FIFO ==> s.popped + s.queue == s.inserted)
  {
    hide NothingLost;
    InitialInv(scheduler, buffers, workers, arrivals);
    RunKeepsInv(Initial(scheduler, buffers, workers, arrivals), steps, workers);
    WhereTheyAre(End(Initial(scheduler, buffers, workers, arrivals), steps));
  }

  lemma InitialInv(scheduler: Scheduler, buffers: int, workers: nat, arrivals: nat)
    ensures Inv(Initial(scheduler, buffers, workers, arrivals), workers)
  {
  }

  lemma WhereTheyAre(s: State)
    requires NothingLost(s)
    ensures s.accepted == multiset(s.queue) + s.handling + s.served + HeldBack(s.producer)
  {
  }

  /** No step is left but that a new connection comes, or a sleeper wakes by itself. */
  ghost predicate Quiet(s: State) {
    && !Enabled(s, ProducerResumes) && !Enabled(s, WorkerEnters) && !Enabled(s, WorkerResumes)
    && s.handling == multiset{}
  }

  ghost predicate AllServed(s: State) {
    s.queue == [] && s.producer == Accepting && s.served == s.accepted
  }

  /** No run with a worker stops before everything accepted has been served: the producer
      and all the workers are never all asleep with work to do. */
  ghost predicate NeverStuck(scheduler: Scheduler, buffers: int) {
    forall workers: nat, arrivals: nat, steps: seq<Step> ::
      workers >= 1 && CanRun(Initial(scheduler, buffers, workers, arrivals), steps) ==>
        var s := End(Initial(scheduler, buffers, workers, arrivals), steps);
        Quiet(s) ==> AllServed(s)
  }

  lemma QuietIsServed(s: State, workers: nat)
    requires Inv(s, workers) && workers >= 1 && s.limit != 1 && Quiet(s)
    ensures AllServed(s)
  {
    assert s.sleep.waiting == workers;
    assert s.queue == [];
    assert s.full.waiting == 0;
  }

  /** Only a buffer of one can get the server stuck. */
  lemma NeverStuckUnlessOne(scheduler: Scheduler, buffers: int)
    ensures NeverStuck(scheduler, buffers) <==> buffers != 1
  {
    hide Inv, Enabled, Next, CanRun, Quiet, AllServed;
    if buffers != 1 {
      forall workers: nat, arrivals: nat, steps: seq<Step> |
        workers >= 1 && CanRun(Initial(scheduler, buffers, workers, arrivals), steps)
        && Quiet(End(Initial(scheduler, buffers, workers, arrivals), steps))
        ensures AllServed(End(Initial(scheduler, buffers, workers, arrivals), steps))
      {
        var s0 := Initial(scheduler, buffers, workers, arrivals);
        InitialInv(scheduler, buffers, workers, arrivals);
        RunKeepsInv(s0, steps, workers);
        QuietIsServed(End(s0, steps), workers);
      }
    } else {
      StuckRun(scheduler, Connection(0, 0, 1, []));
    }
  }

  ghost function StuckSteps(c: Connection): seq<Step> {
    [Accept(c), WorkerEnters, Accept(c), Accept(c), WorkerDone(c), WorkerEnters, WorkerDone(c), WorkerEnters]
  }

  /** With room for one, the worker that takes the request the producer waits behind sees
      the queue full and does not wake it. */
  lemma StuckRun(scheduler: Scheduler, c: Connection)
    requires c.valid == 1
    ensures var s0 := Initial(scheduler, 1, 1, 3);
      && CanRun(s0, StuckSteps(c)) && Quiet(End(s0, StuckSteps(c))) && !AllServed(End(s0, StuckSteps(c)))
  {
    hide Insert, Quiet, AllServed, CanRun, End;
    var s0 := Initial(scheduler, 1, 1, 3);
    InsertIntoEmpty(scheduler, c);
    var s1 := Next(s0, Accept(c));
    var s2 := Next(s1, WorkerEnters);
    var s3 := Next(s2, Accept(c));
    var s4 := Next(s3, Accept(c));
    StuckEnd(s4, c);
    var rest := [WorkerDone(c), WorkerEnters, WorkerDone(c), WorkerEnters];
    Run(s3, Accept(c), rest);
    Run(s2, Accept(c), [Accept(c)] + rest);
    Run(s1, WorkerEnters, [Accept(c)] + ([Accept(c)] + rest));
    Run(s0, Accept(c), [WorkerEnters] + ([Accept(c)] + ([Accept(c)] + rest)));
    assert StuckSteps(c) == [Accept(c)] + ([WorkerEnters] + ([Accept(c)] + ([Accept(c)] + rest)));
  }

  /** The producer sleeps behind the last request, which the worker will find in a queue
      that is full. */
  lemma StuckEnd(s: State, c: Connection)
    requires s.limit == 1 && s.queue == [c] && s.producer == Holding(c) && s.full == Condition(1, 0)
    requires s.sleep == NOBODY && s.idle == 0 && s.handling == multiset{c}
    ensures var steps := [WorkerDone(c), WorkerEnters, WorkerDone(c), WorkerEnters];
      CanRun(s, steps) && Quiet(End(s, steps)) && !AllServed(End(s, steps))
  {
    hide CanRun, End, Next, Enabled;
    var s1 := s.(handling := multiset{}, served := s.served + multiset{c}, idle := 1);
    var s2 := s1.(idle := 0, queue := [], handling := multiset{c}, popped := s.popped + [c]);
    var s3 := s2.(handling := multiset{}, served := s2.served + multiset{c}, idle := 1);
    var s4 := s3.(idle := 0, sleep := Condition(1, 0));
    DoneStep(s, c);
    TakeStep(s1, c);
    DoneStep(s2, c);
    SleepStep(s3);
    assert Quiet(s4) by { QuietEnd(s4); }
    NoSteps(s4);
    Run(s3, WorkerEnters, []);
    assert [WorkerEnters] + [] == [WorkerEnters];
    Run(s2, WorkerDone(c), [WorkerEnters]);
    assert [WorkerDone(c)] + [WorkerEnters] == [WorkerDone(c), WorkerEnters];
    Run(s1, WorkerEnters, [WorkerDone(c), WorkerEnters]);
    assert [WorkerEnters] + [WorkerDone(c), WorkerEnters] == [WorkerEnters, WorkerDone(c), WorkerEnters];
    Run(s, WorkerDone(c), [WorkerEnters, WorkerDone(c), WorkerEnters]);
    assert [WorkerDone(c)] + [WorkerEnters, WorkerDone(c), WorkerEnters]
      == [WorkerDone(c), WorkerEnters, WorkerDone(c), WorkerEnters];
  }

  lemma DoneStep(s: State, c: Connection)
    requires s.handling == multiset{c} && s.idle == 0
    ensures Enabled(s, WorkerDone(c))
    ensures Next(s, WorkerDone(c)) == s.(handling := multiset{}, served := s.served + multiset{c}, idle := 1)
  {
    assert multiset{c} - multiset{c} == multiset{};
  }

  lemma TakeStep(s: State, c: Connection)
    requires s.queue == [c] && s.limit == 1 && s.idle == 1 && s.handling == multiset{}
    ensures Enabled(s, WorkerEnters)
    ensures Next(s, WorkerEnters) == s.(idle := 0, queue := [], handling := multiset{c}, popped := s.popped + [c])
  {
  }

  lemma SleepStep(s: State)
    requires s.queue == [] && s.idle == 1 && s.sleep == NOBODY
    ensures Enabled(s, WorkerEnters) && Next(s, WorkerEnters) == s.(idle := 0, sleep := Condition(1, 0))
  {
  }

  lemma QuietEnd(s: State)
    requires s.idle == 0 && s.handling == multiset{} && s.sleep == Condition(1, 0) && s.full == Condition(1, 0)
    ensures Quiet(s)
  {
  }

  lemma NoSteps(s: State)
    ensures CanRun(s, []) && End(s, []) == s
  {
  }

  lemma InsertIntoEmpty(scheduler: Scheduler, c: Connection)
    ensures Insert(scheduler, [], c, 1) == [c]
  {
  }

  lemma Run(s: State, step: Step, rest: seq<Step>)
    requires Enabled(s, step) && CanRun(Next(s, step), rest)
    ensures CanRun(s, [step] + rest) && End(s, [step] + rest) == End(Next(s, step), rest)
  {
    assert ([step] + rest)[1..] == rest;
  }

  // ----- every run comes to an end

  ghost function Potential(s: State): nat {
    6 * s.arrivals + (if s.producer.Holding? then 4 else 0) + s.full.woken + 3 * |s.queue| + 2 * |s.handling|
    + s.idle + s.sleep.woken
  }

  ghost predicate IsSpurious(step: Step) {
    step == WorkerSpurious || step == ProducerSpurious
  }

  ghost function SpuriousIn(steps: seq<Step>): nat {
    if steps == [] then 0 else (if IsSpurious(steps[0]) then 1 else 0) + SpuriousIn(steps[1..])
  }

  lemma ProducerTestUses(s: State, c: Connection)
    requires s.producer == Accepting && QueueOk(s) && c.valid == 1
    ensures Potential(ProducerTest(s, c)) <= Potential(s) + 4
  {
    hide Insert, Ascending;
    if |s.queue| < s.limit { InsertKeeps(s.scheduler, s.queue, c, s.limit); }
  }

  lemma WorkerTestUses(s: State)
    ensures Potential(WorkerTest(s)) <= Potential(s)
  {
  }

  lemma StepUsesPotential(s: State, step: Step, workers: nat)
    requires Inv(s, workers) && Enabled(s, step)
    ensures IsSpurious(step) ==> Potential(Next(s, step)) == Potential(s) + 1
    ensures !IsSpurious(step) ==> Potential(Next(s, step)) < Potential(s)
  {
    hide ProducerTest, WorkerTest, Ascending, NothingLost;
    match step
    case Accept(c) => ProducerTestUses(s.(arrivals := s.arrivals - 1, accepted := s.accepted + multiset{c}), c);
    case ProducerResumes =>
      Resumed(s, s.producer.connection);
      ProducerTestUses(s.(full := s.full.Resume(), producer := Accepting), s.producer.connection);
    case WorkerEnters => WorkerTestUses(s.(idle := s.idle - 1));
    case WorkerResumes => WorkerTestUses(s.(sleep := s.sleep.Resume()));
    case WorkerDone(c) =>
    case WorkerSpurious =>
    case ProducerSpurious =>
  }

  lemma {:induction false} RunIsBounded(s: State, steps: seq<Step>, workers: nat)
    requires Inv(s, workers) && CanRun(s, steps)
    ensures |steps| + Potential(End(s, steps)) <= Potential(s) + 2 * SpuriousIn(steps)
    decreases |steps|
  {
    hide Inv, Enabled, Next, Potential;
    if steps != [] {
      StepKeepsInv(s, steps[0], workers);
      StepUsesPotential(s, steps[0], workers);
      RunIsBounded(Next(s, steps[0]), steps[1..], workers);
    }
  }

  /** A finite number of connections takes a finite number of steps, but for spurious
      wakeups; so the steps run out, and then all have been served. */
  lemma ServingEnds(scheduler: Scheduler, buffers: int, workers: nat, arrivals: nat, steps: seq<Step>)
    requires CanRun(Initial(scheduler, buffers, workers, arrivals), steps)
    ensures |steps| <= 6 * arrivals + workers + 2 * SpuriousIn(steps)
  {
    InitialInv(scheduler, buffers, workers, arrivals);
    RunIsBounded(Initial(scheduler, buffers, workers, arrivals), steps, workers);
  }

  // ----- the server itself

  /** The buffer that the producer and the workers share: each method is one section
      between taking the lock and giving it back or going to sleep. */
  class Buffer {
    const queue: Queue
    const scheduler: Scheduler
    var sleep: Condition
    var full: Condition
    ghost var producer: Producer
    ghost var idle: nat
    ghost var handling: multiset<Connection>
    ghost var arrivals: nat
    ghost var accepted: multiset<Connection>
    ghost var inserted: seq<Connection>
    ghost var popped: seq<Connection>
    ghost var served: multiset<Connection>

    ghost function S(): State
      reads this, queue
    {
      State(scheduler, queue.limit, queue.Contents(), producer, sleep, full, idle, handling,
            arrivals, accepted, inserted, popped, served)
    }

    ghost predicate Valid(workers: nat)
      reads this, queue, queue.nodes
    {
      queue.Valid() && Inv(S(), workers)
    }

    constructor (scheduler: Scheduler, buffers: int, ghost workers: nat, ghost arrivals: nat)
      ensures Valid(workers) && S() == Initial(scheduler, buffers, workers, arrivals) && fresh(queue)
      ensures fresh(queue.repr)
    {
      queue := new Queue(buffers);
      this.scheduler := scheduler;
      sleep, full := NOBODY, NOBODY;
      producer, idle, handling, this.arrivals := Accepting, workers, multiset{}, arrivals;
      accepted, inserted, popped, served := multiset{}, [], [], multiset{};
      new;
      InitialInv(scheduler, buffers, workers, arrivals);
    }

    /** The producer comes with a new connection. */
    method Deliver(c: Connection, ghost workers: nat)
      requires Valid(workers) && Enabled(S(), Accept(c))
      modifies this, queue, queue.repr
      ensures Valid(workers) && S() == Next(old(S()), Accept(c)) && fresh(queue.repr - old(queue.repr))
    {
      hide Inv, FifoInsert, SffInsert;
      StepKeepsInv(S(), Accept(c), workers);
      arrivals, accepted := arrivals - 1, accepted + multiset{c};
      TryInsert(c);
    }

    /** The producer wakes in its loop, with the connection it still holds. */
    method DeliverAgain(c: Connection, ghost workers: nat)
      requires Valid(workers) && Enabled(S(), ProducerResumes) && producer == Holding(c)
      modifies this, queue, queue.repr
      ensures Valid(workers) && S() == Next(old(S()), ProducerResumes) && fresh(queue.repr - old(queue.repr))
    {
      hide Inv, FifoInsert, SffInsert;
      StepKeepsInv(S(), ProducerResumes, workers);
      full := full.Resume();
      TryInsert(c);
    }

    method TryInsert(c: Connection)
      requires queue.Valid()
      modifies this, queue, queue.repr
      ensures queue.Valid() && fresh(queue.repr - old(queue.repr)) && S() == ProducerTest(old(S()), c)
    {
      hide FifoInsert, SffInsert;
      var isFull := queue.IsFull();
      if isFull {
        full := full.Wait();
        producer := Holding(c);
      } else {
        if scheduler == FIFO { queue.Fifo(c); } else { queue.Sff(c); }
        sleep := sleep.Signal();
        producer, inserted := Accepting, inserted + [c];
      }
    }

    /** A worker comes for work. */
    method TakeWork(ghost workers: nat) returns (request: Node?)
      requires Valid(workers) && Enabled(S(), WorkerEnters)
      modifies this, queue
      ensures Valid(workers) && S() == Next(old(S()), WorkerEnters) && queue.repr == old(queue.repr)
      ensures old(S().queue) == [] ==> request == null
      ensures old(S().queue) != [] ==> request != null && request.info == old(S().queue)[0]
    {
      hide Inv;
      StepKeepsInv(S(), WorkerEnters, workers);
      idle := idle - 1;
      request := TryPop();
    }

    /** A worker wakes in its loop. */
    method TakeWorkAgain(ghost workers: nat) returns (request: Node?)
      requires Valid(workers) && Enabled(S(), WorkerResumes)
      modifies this, queue
      ensures Valid(workers) && S() == Next(old(S()), WorkerResumes) && queue.repr == old(queue.repr)
      ensures old(S().queue) == [] ==> request == null
      ensures old(S().queue) != [] ==> request != null && request.info == old(S().queue)[0]
    {
      hide Inv;
      StepKeepsInv(S(), WorkerResumes, workers);
      sleep := sleep.Resume();
      request := TryPop();
    }

    method TryPop() returns (request: Node?)
      requires queue.Valid()
      modifies this, queue
      ensures queue.Valid() && queue.repr == old(queue.repr) && S() == WorkerTest(old(S()))
      ensures old(S().queue) == [] ==> request == null
      ensures old(S().queue) != [] ==> request != null && request.info == old(S().queue)[0]
    {
      hide Linked, InRepr, Infos;
      queue.ValidSize();
      var isEmpty := queue.IsEmpty();
      if isEmpty {
        sleep := sleep.Wait();
        return null;
      }
      var isFull := queue.IsFull();
      if !isFull {
        full := full.Signal();
      }
      ghost var was := queue.Contents();
      request := queue.Pop();
      handling, popped := handling + multiset{was[0]}, popped + [was[0]];
    }
  }
}
