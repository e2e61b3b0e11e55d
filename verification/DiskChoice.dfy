/** Which request the scheduler picks: the part of the queue in view at each choice, the
    best request in it by each policy, and that this fixes the whole order of service. */
module DiskChoice {
  import opened Arithmetic
  import opened DiskGeometry
  import opened DiskPlan

  /** What a simulation is given, but for the requests themselves: how many there are at
      the start and how many come late. */
  datatype Setup = Setup(g: Geometry, policy: Policy, window: int, initial: nat, late: nat)

  ghost predicate SetupOk(x: Setup) {
    ValidGeometry(x.g) && x.window != 0
  }

  /** The length of the queue at choice j: one late request has joined with each choice. */
  function QueueAt(x: Setup, j: nat): nat {
    x.initial + if j < x.late then j else x.late
  }

  /** How much of the queue is in view at choice j: all of it, or a window, which under BSATF
      widens by its size with every window served and otherwise by one with every request. */
  function ViewEnd(x: Setup, j: nat): nat
    requires x.window != 0
  {
    if x.window < 0 then QueueAt(x, j)
    else
      var end := if x.policy == BSATF then WindowAt(x.window, j) else x.window + j;
      if 0 <= end < QueueAt(x, j) then end else QueueAt(x, j)
  }

  /** The view starts as the window, or the whole queue if that is shorter. Without fairness it
      takes in one request more after each service. */
  lemma ViewMoves(x: Setup, j: nat)
    requires SetupOk(x)
    ensures x.window < 0 ==> ViewEnd(x, j) == QueueAt(x, j)
    ensures x.window > 0 ==> ViewEnd(x, 0) == if x.window < x.initial then x.window else x.initial
    ensures x.window > 0 && x.policy != BSATF ==>
      ViewEnd(x, j + 1) == if ViewEnd(x, j) < QueueAt(x, j) then ViewEnd(x, j) + 1 else QueueAt(x, j + 1)
    ensures QueueAt(x, 0) == x.initial && QueueAt(x, j + 1) == QueueAt(x, j) + if j < x.late then 1 else 0
  {
    hide ValidGeometry;
    if x.window > 0 {
      Quotient(0, x.window, 0, 0);
      assert WindowAt(x.window, 0) == x.window;
    }
  }

  /** The fair window stands still while as many requests are served as it is wide, and then
      moves on by its width. */
  lemma FairViewMoves(x: Setup, q: nat, r: nat)
    requires SetupOk(x) && x.policy == BSATF && r < x.window
    ensures var j := q * x.window + r;
      && j >= 0
      && ViewEnd(x, j) == if (q + 1) * x.window < QueueAt(x, j) then (q + 1) * x.window else QueueAt(x, j)
  {
    hide ValidGeometry, QueueAt;
    assert q * x.window == x.window * q && (q + 1) * x.window == x.window * (q + 1);
    assert q * x.window >= 0;
    Quotient(q * x.window + r, x.window, q, r);
  }

  /** The policy prefers request a to b: the nearer track, under SSTF, then the smaller
      estimate, then the place in the queue. */
  ghost predicate Better(x: Setup, track: int, angle: int, a: Request, b: Request)
    requires SetupOk(x)
  {
    var far, farther := Distance(track, TrackOf(x.g, a.block)), Distance(track, TrackOf(x.g, b.block));
    var est, other := Est(x.g, angle, track, a.block), Est(x.g, angle, track, b.block);
    if x.policy == SSTF && far != farther then far < farther else if est != other then est < other
      else a.index <= b.index
  }

  /** The request at `index` is the best of those in view that have not been served. */
  ghost predicate Best(x: Setup, track: int, angle: int, view: seq<Request>, prior: seq<Service>, index: int)
    requires SetupOk(x)
  {
    && 0 <= index < |view| && !Serves(prior, index)
    && forall i :: 0 <= i < |view| && !Serves(prior, i) ==> Better(x, track, angle, view[index], view[i])
  }

  /** What is picked after the services `prior`, with the arm and the platter where they are. */
  ghost predicate ChoiceOk(x: Setup, queue: seq<Request>, prior: seq<Service>, track: int, angle: int, index: int)
    requires SetupOk(x)
  {
    && 0 <= index < |queue|
    && if x.policy == FIFO then index == |prior|
       else ViewEnd(x, |prior|) <= |queue| && Best(x, track, angle, queue[..ViewEnd(x, |prior|)], prior, index)
  }

  ghost predicate ChoiceAt(x: Setup, queue: seq<Request>, served: seq<Service>, j: int)
    requires SetupOk(x) && 0 <= j < |served|
  {
    ChoiceOk(x, queue, served[..j], served[j].track, served[j].angle, served[j].index)
  }

  ghost predicate Choices(x: Setup, queue: seq<Request>, served: seq<Service>)
    requires SetupOk(x)
  {
    forall j :: 0 <= j < |served| ==> ChoiceAt(x, queue, served, j)
  }

  lemma ChoicesGrow(x: Setup, queue: seq<Request>, served: seq<Service>, v: Service)
    requires SetupOk(x) && Choices(x, queue, served) && ChoiceOk(x, queue, served, v.track, v.angle, v.index)
    ensures Choices(x, queue, served + [v])
  {
    hide ValidGeometry, ChoiceOk;
    var more := served + [v];
    forall j | 0 <= j < |more| ensures ChoiceAt(x, queue, more, j) {
      assert more[..j] == if j < |served| then served[..j] else served;
      if j < |served| { assert ChoiceAt(x, queue, served, j); }
    }
  }

  /** Requests that join the queue do not change what was in view. */
  lemma ChoiceStays(x: Setup, queue: seq<Request>, more: seq<Request>, prior: seq<Service>, track: int, angle: int,
                    index: int)
    requires SetupOk(x) && queue <= more && ChoiceOk(x, queue, prior, track, angle, index)
    ensures ChoiceOk(x, more, prior, track, angle, index)
  {
    hide ValidGeometry, Best;
    if x.policy != FIFO { assert more[..ViewEnd(x, |prior|)] == queue[..ViewEnd(x, |prior|)]; }
  }

  lemma ChoicesStay(x: Setup, queue: seq<Request>, more: seq<Request>, served: seq<Service>)
    requires SetupOk(x) && queue <= more && Choices(x, queue, served)
    ensures Choices(x, more, served)
  {
    hide ValidGeometry, ChoiceOk;
    forall j | 0 <= j < |served| ensures ChoiceAt(x, more, served, j) {
      assert ChoiceAt(x, queue, served, j);
      ChoiceStays(x, queue, more, served[..j], served[j].track, served[j].angle, served[j].index);
    }
  }

  // ----- the choice is unique, and so is the schedule

  /** Each request knows its place. */
  ghost predicate Numbered(queue: seq<Request>) {
    forall i :: 0 <= i < |queue| ==> queue[i].index == i
  }

  lemma OneChoice(x: Setup, queue: seq<Request>, prior: seq<Service>, track: int, angle: int, i: int, j: int)
    requires SetupOk(x) && Numbered(queue)
    requires ChoiceOk(x, queue, prior, track, angle, i) && ChoiceOk(x, queue, prior, track, angle, j)
    ensures i == j
  {
    hide ValidGeometry, Est, TrackOf, Serves, ViewEnd;
    if x.policy != FIFO {
      var view := queue[..ViewEnd(x, |prior|)];
      assert Better(x, track, angle, view[i], view[j]) && Better(x, track, angle, view[j], view[i]);
    }
  }

  /** The services are of requests in the queue. */
  ghost predicate OfQueue(queue: seq<Request>, served: seq<Service>) {
    forall j :: 0 <= j < |served| ==>
      0 <= served[j].index < |queue| && served[j].block == queue[served[j].index].block
  }

  /** What a simulation is given fixes the order of service and all times. */
  lemma {:induction false} OneSchedule(x: Setup, queue: seq<Request>, a: seq<Service>, b: seq<Service>)
    requires SetupOk(x) && Numbered(queue) && |a| == |b|
    requires Choices(x, queue, a) && Timeline(x.g, a) && OfQueue(queue, a)
    requires Choices(x, queue, b) && Timeline(x.g, b) && OfQueue(queue, b)
    ensures a == b
    decreases |a|
  {
    hide ValidGeometry, ChoiceOk, Est, SeekEst, RotEst, XferEst, TrackOf, Leave, MissedStart, IsBlock;
    if a != [] {
      var last := |a| - 1;
      ChoicesPrefix(x, queue, a);
      ChoicesPrefix(x, queue, b);
      OneSchedule(x, queue, a[..last], b[..last]);
      assert last > 0 ==> a[..last][last - 1] == b[..last][last - 1];
      assert ChoiceAt(x, queue, a, last) && ChoiceAt(x, queue, b, last);
      assert ServedAt(x.g, a, last) && ServedAt(x.g, b, last);
      OneChoice(x, queue, a[..last], a[last].track, a[last].angle, a[last].index, b[last].index);
      assert a == a[..last] + [a[last]] && b == b[..last] + [b[last]];
    }
  }

  lemma ChoicesPrefix(x: Setup, queue: seq<Request>, a: seq<Service>)
    requires SetupOk(x) && a != [] && Choices(x, queue, a) && Timeline(x.g, a) && OfQueue(queue, a)
    ensures var rest := a[..|a| - 1];
      Choices(x, queue, rest) && Timeline(x.g, rest) && OfQueue(queue, rest)
  {
    hide ValidGeometry, ChoiceOk, Timeline;
    TimelinePrefix(x.g, a);
    var rest := a[..|a| - 1];
    forall j | 0 <= j < |rest| ensures ChoiceAt(x, queue, rest, j) {
      assert ChoiceAt(x, queue, a, j);
      assert rest[..j] == a[..j];
    }
  }

  // ----- the missed start

  /** The request that is picked first, arm and platter being at rest, lies on the track under
      the arm and starts under the head. */
  ghost predicate StartsMissed(x: Setup, queue: seq<Request>)
    requires SetupOk(x)
  {
    exists i :: ChoiceOk(x, queue, [], 0, 0, i) && MissedStart(x.g, 0, queue[i].block)
  }

  lemma FirstServed(x: Setup, queue: seq<Request>, more: seq<Request>, served: seq<Service>)
    requires SetupOk(x) && queue <= more && Numbered(more) && |queue| == x.initial && served != []
    requires Choices(x, more, served) && Timeline(x.g, served) && OfQueue(more, served) && x.initial > 0
    ensures MissedStart(x.g, 0, served[0].block) <==> StartsMissed(x, queue)
  {
    hide ValidGeometry, Est, SeekEst, RotEst, XferEst, TrackOf, Leave, MissedStart, IsBlock, Better, WindowAt;
    var v := served[0];
    assert ServedAt(x.g, served, 0) && ChoiceAt(x, more, served, 0);
    assert served[..0] == [];
    assert ChoiceOk(x, more, [], 0, 0, v.index);
    assert ViewEnd(x, 0) <= |queue|;
    assert more[..ViewEnd(x, 0)] == queue[..ViewEnd(x, 0)];
    assert ChoiceOk(x, queue, [], 0, 0, v.index);
    forall i | ChoiceOk(x, queue, [], 0, 0, i) ensures i == v.index {
      OneChoice(x, queue, [], 0, 0, i, v.index);
    }
  }

  /** What one request for block 10 takes in the geometry that the simulator has unless told
      otherwise: no seek, 105 ticks of rotation and 30 of transfer. */
  lemma BlockTen(v: Service)
    requires var g := Geometry([15, 15, 15], 0, 1);
      ValidGeometry(g) && ServedAt(g, [v], 0) && v.block == 10
    ensures v.seek == 0 && v.rot == 105 && v.xfer == 30 && v.est == 135
  {
    hide TrackOf, Enter, Leave;
    var g := Geometry([15, 15, 15], 0, 1);
    TenIsAt();
    assert ServiceOk(g, 0, v) by { assert [v][0] == v; }
    assert SeekEst(g, 0, 10) == 0;
  }

  lemma TenIsAt()
    ensures var g := Geometry([15, 15, 15], 0, 1);
      ValidGeometry(g) && TrackOf(g, 10) == 0 && Enter(g, 10) == 105
  {
    var g := Geometry([15, 15, 15], 0, 1);
    assert FirstOn(g, 0) == 0 && FirstOn(g, 1) == 12;
    assert AngleOf(g, 10) == 120;
  }

  /** One request, by whatever policy: block 5, zones of 40 degrees and no skew. */
  lemma SomeStartIsMissed(policy: Policy)
    ensures var x, queue := Setup(Geometry([20, 20, 20], 0, 1), policy, -1, 1, 0), [Request(5, 0)];
      SetupOk(x) && IsBlock(x.g, 5) && StartsMissed(x, queue)
  {
    hide Est;
    var x, queue := Setup(Geometry([20, 20, 20], 0, 1), policy, -1, 1, 0), [Request(5, 0)];
    assert MissedStart(x.g, 0, 5);
    assert ChoiceOk(x, queue, [], 0, 0, 0);
  }
}
