/**
 What the disk simulator is to produce: the closed-form time of one request, the
 timeline that an order of service gives rise to, and the bound on how long the
 fairness window lets others go first.
 */
module DiskPlan {
  import opened Arithmetic
  import opened DiskGeometry

  datatype Policy = FIFO | SATF | BSATF | SSTF

  datatype Request = Request(block: int, index: int)

  function Distance(a: int, b: int): nat {
    if a <= b then b - a else a - b
  }

  ghost function SeekEst(g: Geometry, fromTrack: int, block: int): int
    requires ValidGeometry(g)
  {
    (40 / g.speed) * Distance(fromTrack, TrackOf(g, block))
  }

  /** From the angle at which the arm has arrived to where the block is entered. */
  ghost function RotEst(g: Geometry, angle: int, fromTrack: int, block: int): int
    requires ValidGeometry(g)
  {
    (Enter(g, block) - (angle + SeekEst(g, fromTrack, block))) % 360
  }

  ghost function XferEst(g: Geometry, block: int): int
    requires ValidGeometry(g)
  {
    2 * g.half[TrackOf(g, block)]
  }

  ghost function Est(g: Geometry, angle: int, fromTrack: int, block: int): int
    requires ValidGeometry(g)
  {
    SeekEst(g, fromTrack, block) + RotEst(g, angle, fromTrack, block) + XferEst(g, block)
  }

  /** One request served: where the arm and the platter were when it was picked, the
      scheduler's estimate, and the ticks it then took. */
  datatype Service = Service(index: int, block: int, track: int, angle: int, est: int, seek: int, rot: int, xfer: int)

  /** The one case in which the simulation takes longer than its estimate: the very
      first request lies on the track under the arm and starts under the head. The
      rotation is first tested a tick later, so it goes round once. */
  ghost predicate MissedStart(g: Geometry, j: int, block: int)
    requires ValidGeometry(g)
  {
    j == 0 && TrackOf(g, block) == 0 && Enter(g, block) == 0
  }

  ghost predicate ServiceOk(g: Geometry, j: int, v: Service)
    requires ValidGeometry(g)
  {
    && v.est == Est(g, v.angle, v.track, v.block)
    && v.seek == SeekEst(g, v.track, v.block)
    && v.rot == RotEst(g, v.angle, v.track, v.block) + (if MissedStart(g, j, v.block) then 360 else 0)
    && v.xfer == XferEst(g, v.block)
  }

  /** Service j takes its closed-form time and starts where service j - 1 ended. */
  ghost predicate ServedAt(g: Geometry, served: seq<Service>, j: int)
    requires ValidGeometry(g) && 0 <= j < |served|
  {
    && ServiceOk(g, j, served[j])
    && IsBlock(g, served[j].block)
    && served[j].track == (if j == 0 then 0 else TrackOf(g, served[j - 1].block))
    && served[j].angle == (if j == 0 then 0 else Leave(g, served[j - 1].block))
  }

  /** The timeline is a function of the order of service. */
  ghost predicate Timeline(g: Geometry, served: seq<Service>)
    requires ValidGeometry(g)
  {
    forall j :: 0 <= j < |served| ==> ServedAt(g, served, j)
  }

  ghost function TotalTicks(served: seq<Service>): int {
    if served == [] then 0
    else
      var v := served[|served| - 1];
      TotalTicks(served[..|served| - 1]) + v.seek + v.rot + v.xfer
  }

  /** The time spent in each phase, over all services. */
  datatype Phases = Phases(seek: int, rot: int, xfer: int)

  ghost function Totals(served: seq<Service>): Phases {
    if served == [] then Phases(0, 0, 0)
    else
      var sum, v := Totals(served[..|served| - 1]), served[|served| - 1];
      Phases(sum.seek + v.seek, sum.rot + v.rot, sum.xfer + v.xfer)
  }

  lemma {:induction false} TotalsAddUp(served: seq<Service>)
    ensures TotalTicks(served) == Totals(served).seek + Totals(served).rot + Totals(served).xfer
  {
    if served != [] { TotalsAddUp(served[..|served| - 1]); }
  }

  ghost function TotalEst(served: seq<Service>): int {
    if served == [] then 0
    else TotalEst(served[..|served| - 1]) + served[|served| - 1].est
  }

  lemma TimelinePrefix(g: Geometry, served: seq<Service>)
    requires ValidGeometry(g) && Timeline(g, served) && served != []
    ensures Timeline(g, served[..|served| - 1])
  {
    hide ValidGeometry, ServiceOk, IsBlock, Leave, TrackOf;
    var rest := served[..|served| - 1];
    forall j | 0 <= j < |rest| ensures ServedAt(g, rest, j) {
      assert ServedAt(g, served, j);
    }
  }

  lemma NotMissed(g: Geometry, j: int, block: int)
    requires ValidGeometry(g) && j > 0
    ensures !MissedStart(g, j, block)
  {
  }

  lemma TimelineGrows(g: Geometry, served: seq<Service>, v: Service)
    requires ValidGeometry(g) && Timeline(g, served)
    requires ServedAt(g, served + [v], |served|)
    ensures Timeline(g, served + [v])
    ensures TotalTicks(served + [v]) == TotalTicks(served) + v.seek + v.rot + v.xfer
  {
    hide ValidGeometry, ServiceOk, IsBlock, Leave, TrackOf;
    forall j | 0 <= j < |served + [v]| ensures ServedAt(g, served + [v], j) {
      if j < |served| { assert ServedAt(g, served, j); }
    }
    assert (served + [v])[..|served|] == served;
  }

  /** The whole simulation takes the sum of the estimates, plus one turn of the
      platter if the first request was missed. */
  lemma {:induction false} TicksAreEstimates(g: Geometry, served: seq<Service>)
    requires ValidGeometry(g) && Timeline(g, served)
    ensures TotalTicks(served) == TotalEst(served)
      + (if served != [] && MissedStart(g, 0, served[0].block) then 360 else 0)
  {
    hide ValidGeometry, SeekEst, RotEst, XferEst, MissedStart, IsBlock, Leave, TrackOf;
    if served != [] {
      var rest := served[..|served| - 1];
      assert ServedAt(g, served, |served| - 1);
      TimelinePrefix(g, served);
      TicksAreEstimates(g, rest);
      if rest != [] { NotMissed(g, |served| - 1, served[|served| - 1].block); }
    }
  }

  // ----- each request once

  ghost predicate Distinct(served: seq<Service>) {
    forall i, j :: 0 <= i < j < |served| ==> served[i].index != served[j].index
  }

  ghost predicate Serves(served: seq<Service>, index: int) {
    exists j :: 0 <= j < |served| && served[j].index == index
  }

  ghost function Indices(served: seq<Service>): set<int> {
    set j | 0 <= j < |served| :: served[j].index
  }

  function Below(m: nat): (r: set<int>)
    ensures |r| == m && forall i :: i in r <==> 0 <= i < m
  {
    if m == 0 then {} else Below(m - 1) + {m - 1}
  }

  lemma {:induction false} IndicesCount(served: seq<Service>)
    requires Distinct(served)
    ensures |Indices(served)| == |served|
  {
    hide Distinct, Indices;
    NoIndices();
    if served != [] {
      var rest := served[..|served| - 1];
      IndicesGrow(served);
      IndicesCount(rest);
    }
  }

  lemma NoIndices()
    ensures Indices([]) == {}
  {
  }

  lemma IndicesGrow(served: seq<Service>)
    requires Distinct(served) && served != []
    ensures var rest, last := served[..|served| - 1], served[|served| - 1].index;
      Distinct(rest) && last !in Indices(rest) && Indices(served) == Indices(rest) + {last}
  {
    var rest, last := served[..|served| - 1], served[|served| - 1].index;
    forall x | x in Indices(served) ensures x in Indices(rest) || x == last {
      var j :| 0 <= j < |served| && served[j].index == x;
      if j < |rest| { assert rest[j].index == x; }
    }
  }

  /** Fewer services than requests in view: one of those has not been served. */
  lemma SomeUnserved(served: seq<Service>, m: nat) returns (i: int)
    requires Distinct(served) && |served| < m
    ensures 0 <= i < m && !Serves(served, i)
  {
    IndicesCount(served);
    if Below(m) <= Indices(served) {
      SubsetCount(Below(m), Indices(served));
    }
    i :| i in Below(m) && i !in Indices(served);
  }

  lemma SubsetCount(a: set<int>, b: set<int>)
    requires a <= b
    ensures |a| <= |b| && (|a| == |b| ==> a == b)
  {
    assert b == a + (b - a);
  }

  // ----- the fairness window

  /** The window at the time of the j-th choice, for windows of size w. */
  function WindowAt(w: int, j: nat): int
    requires w > 0
  {
    w * (j / w + 1)
  }

  ghost predicate WithinWindows(w: int, served: seq<Service>)
    requires w > 0
  {
    forall j :: 0 <= j < |served| ==> 0 <= served[j].index < WindowAt(w, j)
  }

  lemma WindowAtStep(w: int, j: nat)
    requires w > 0
    ensures WindowAt(w, j + 1) == if (j + 1) % w == 0 then WindowAt(w, j) + w else WindowAt(w, j)
    ensures WindowAt(w, j) > j
  {
    Divided(j, w);
    Divided(j + 1, w);
    var q, r, q' := j / w, j % w, (j + 1) / w;
    if r == w - 1 {
      assert j + 1 == w * (q + 1) by { assert w * (q + 1) == w * q + w; }
      Quotient(j + 1, w, q + 1, 0);
    } else {
      Quotient(j + 1, w, q, r + 1);
    }
    assert w * (q + 1) == w * q + w && w * (q + 2) == w * (q + 1) + w;
  }

  /** Windows up to the j-th choice are at most as wide as the j-th. */
  lemma WindowsGrow(w: int, i: nat, j: nat)
    requires w > 0 && i <= j
    ensures WindowAt(w, i) <= WindowAt(w, j)
    decreases j - i
  {
    if i < j {
      WindowAtStep(w, i);
      WindowsGrow(w, i + 1, j);
    }
  }

  /** Bounded bypass: once WindowAt(w, i) requests have completed, request i is among
      them; nothing that arrives later can push it out. */
  lemma BoundedBypass(w: int, served: seq<Service>, i: nat)
    requires w > 0 && Distinct(served) && WithinWindows(w, served)
    requires |served| >= WindowAt(w, i)
    ensures WindowAt(w, i) > 0 && Serves(served[..WindowAt(w, i)], i)
  {
    WindowAtStep(w, i);
    var m := WindowAt(w, i);
    var first := served[..m];
    IndicesCount(first);
    forall x | x in Indices(first) ensures x in Below(m) {
      var j :| 0 <= j < |first| && first[j].index == x;
      assert served[j].index == x;
      LastOfWindow(w, i, j);
    }
    SubsetCount(Indices(first), Below(m));
    assert i in Below(m);
  }

  /** All choices before the window's end look at no more than the window. */
  lemma LastOfWindow(w: int, i: nat, j: nat)
    requires w > 0 && j < WindowAt(w, i)
    ensures WindowAt(w, j) <= WindowAt(w, i)
  {
    if j <= i {
      WindowsGrow(w, j, i);
    } else {
      Divided(i, w);
      Quotient(j, w, i / w, j - (i / w) * w);
    }
  }
}
