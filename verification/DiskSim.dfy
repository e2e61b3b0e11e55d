/** The disk simulator: a class advanced tick by tick, proved to follow the
    closed-form timeline under all four scheduling policies. */
module DiskSim {
  import opened Arithmetic
  import opened DiskChoice
  import opened DiskGeometry
  import opened DiskPlan
  import opened DiskMotion

  /** Exactly the requests served are marked done. */
  ghost predicate StatesMatch(states: seq<State>, served: seq<Service>) {
    forall i :: 0 <= i < |states| ==> (states[i] == Done <==> Serves(served, i))
  }

  lemma StateChanged(states: seq<State>, served: seq<Service>, k: int, v: State)
    requires StatesMatch(states, served) && 0 <= k < |states| && states[k] != Done && v != Done
    ensures StatesMatch(states[k := v], served)
  {
    hide Serves;
  }

  lemma StateAdded(states: seq<State>, served: seq<Service>)
    requires StatesMatch(states, served) && !Serves(served, |states|)
    ensures StatesMatch(states + [Null], served)
  {
    hide Serves;
  }

  /** Requests are served at most once, each for its own block. */
  ghost predicate ServedFits(queue: seq<Request>, served: seq<Service>) {
    && Distinct(served)
    && forall j :: 0 <= j < |served| ==>
         0 <= served[j].index < |queue| && served[j].block == queue[served[j].index].block
  }

  lemma ServedFitsGrows(queue: seq<Request>, served: seq<Service>, v: Service)
    requires ServedFits(queue, served) && 0 <= v.index < |queue| && v.block == queue[v.index].block
    requires !Serves(served, v.index)
    ensures ServedFits(queue, served + [v])
  {
    forall j | 0 <= j < |served| ensures (served + [v])[j].index != v.index {
      assert served[j].index != v.index;
    }
  }

  lemma StateDone(states: seq<State>, served: seq<Service>, v: Service)
    requires StatesMatch(states, served) && 0 <= v.index < |states|
    ensures StatesMatch(states[v.index := Done], served + [v])
  {
    forall i ensures Serves(served + [v], i) <==> Serves(served, i) || i == v.index {
      ServesGrows(served, v, i);
    }
  }

  lemma ServesGrows(served: seq<Service>, v: Service, i: int)
    ensures Serves(served + [v], i) <==> Serves(served, i) || i == v.index
  {
    if Serves(served, i) {
      var j :| 0 <= j < |served| && served[j].index == i;
      assert (served + [v])[j].index == i;
    }
    if i == v.index { assert (served + [v])[|served|].index == i; }
  }

  class Disk {
    const g: Geometry
    const policy: Policy
    const window: int
    const lateRequests: seq<int>
    ghost const initial: nat  // how many requests there are at the start

    // layout
    var blockToTrackMap: map<int, int>
    var blockToAngleMap: map<int, int>
    var tracksBeginEnd: seq<(int, int)>

    // requests
    var requestQueue: seq<Request>
    var requestState: seq<State>
    var requestCount: nat
    var lateCount: nat
    var currWindow: int
    const fairWindow: int
    var currentIndex: int
    var currentBlock: int
    var isDone: bool

    // arm, platter, clock
    var armTrack: int
    var armTarget: int
    var armX1: int
    var armTargetX1: int
    var armSpeed: int
    var angle: int
    var timer: int
    var state: State

    // statistics
    var seekBegin: int
    var rotBegin: int
    var xferBegin: int
    var seekTotal: int
    var rotTotal: int
    var xferTotal: int
    var totalEst: int

    // what has been served, where the current request started, ticks of seek
    // left, and whether the platter has to make an extra turn
    ghost var served: seq<Service>
    ghost var startTrack: int
    ghost var startAngle: int
    ghost var ticksLeft: int
    ghost var extra: int

    // ----- invariants

    /** What the simulation was given. */
    ghost function Rules(): Setup {
      Setup(g, policy, window, initial, |lateRequests|)
    }

    ghost predicate LayoutOk()
      reads this`blockToTrackMap, this`blockToAngleMap, this`tracksBeginEnd
    {
      && ValidGeometry(g)
      && (forall b :: IsBlock(g, b) ==> b in blockToTrackMap && blockToTrackMap[b] == TrackOf(g, b))
      && (forall b :: IsBlock(g, b) ==> b in blockToAngleMap && blockToAngleMap[b] == AngleOf(g, b))
      && |tracksBeginEnd| == 3
      && (forall t :: 0 <= t < 3 ==> tracksBeginEnd[t] == (FirstOn(g, t), FirstOn(g, t + 1) - 1))
    }

    ghost predicate QueueShape()
      reads this`requestQueue, this`served, this`requestCount, this`lateCount
    {
      && ValidGeometry(g)
      && (forall i :: 0 <= i < |requestQueue| ==> requestQueue[i].index == i && IsBlock(g, requestQueue[i].block))
      && (forall k :: 0 <= k < |lateRequests| ==> IsBlock(g, lateRequests[k]))
      && lateCount <= |lateRequests|
      && requestCount == |served| && ServedFits(requestQueue, served)
    }

    ghost predicate QueueOk()
      reads this`requestQueue, this`requestState, this`served, this`requestCount, this`lateCount
    {
      QueueShape() && |requestState| == |requestQueue| && StatesMatch(requestState, served)
    }

    /** Requests in order, under FIFO; inside the window, under BSATF. */
    ghost predicate OrderFits(served: seq<Service>) {
      && (policy == FIFO ==> forall j :: 0 <= j < |served| ==> served[j].index == j)
      && (policy == BSATF && window > 0 ==> WithinWindows(window, served))
    }

    ghost predicate OrderOk()
      reads this`served, this`requestQueue
    {
      OrderFits(served) && SetupOk(Rules()) && Choices(Rules(), requestQueue, served)
    }

    /** The scheduling window as the choice of request number requestCount finds it. */
    ghost predicate WindowBefore()
      reads this`currWindow, this`requestCount, this`requestQueue
    {
      && window != 0 && fairWindow == (if policy == BSATF && window != -1 then window else -1)
      && (window < 0 ==> currWindow == window)
      && (window > 0 && policy == BSATF ==>
            currWindow == if requestCount == 0 then window else WindowAt(window, requestCount - 1))
      && (window > 0 && policy != BSATF ==>
            && 0 < currWindow <= window + requestCount
            && (currWindow == window + requestCount || currWindow >= |requestQueue|))
    }

    /** ... and as it leaves it. */
    ghost predicate WindowAfter()
      reads this`currWindow, this`requestCount, this`requestQueue
    {
      && window != 0 && fairWindow == (if policy == BSATF && window != -1 then window else -1)
      && (window < 0 ==> currWindow == window)
      && (window > 0 && policy == BSATF ==> currWindow == WindowAt(window, requestCount))
      && (window > 0 && policy != BSATF ==>
            WindowGrown(currWindow, requestCount))
    }

    /** The statistics add up to the clock at the end of each request. */
    ghost predicate TotalsOk(now: int)
      reads this`seekTotal, this`rotTotal, this`xferTotal, this`served
    {
      TotalsMatch(served) && TotalTicks(served) == now
    }

    /** Each of the three statistics is the sum of its phase over the services. */
    ghost predicate TotalsMatch(sv: seq<Service>)
      reads this`seekTotal, this`rotTotal, this`xferTotal
    {
      Phases(seekTotal, rotTotal, xferTotal) == Totals(sv)
    }

    /** The motion of arm and platter, and the clock, as a value. */
    ghost function Now(): Motion
      reads this`state, this`currentBlock, this`startTrack, this`startAngle, this`extra
      reads this`armTrack, this`armTarget, this`armX1, this`armTargetX1, this`armSpeed, this`ticksLeft
      reads this`angle, this`timer, this`seekBegin, this`rotBegin, this`xferBegin
    {
      Motion(state, currentBlock, startTrack, startAngle, extra, armTrack, armTarget, armX1, armTargetX1, armSpeed,
             ticksLeft, angle, timer, seekBegin, rotBegin, xferBegin)
    }

    /** Everything but the tick-by-tick progress of the current request. */
    ghost predicate ScheduleOk()
      reads this`blockToTrackMap, this`blockToAngleMap, this`tracksBeginEnd
      reads this`requestQueue, this`requestState, this`served, this`requestCount, this`lateCount
    {
      LayoutOk() && QueueOk() && OrderOk() && Timeline(g, served) && requestCount <= |requestQueue|
    }

    /** The request being served was not served before, was chosen in order, and
        started where the last one ended. */
    ghost predicate ChosenOk()
      reads this`requestQueue, this`currentIndex, this`currentBlock, this`served
      reads this`startTrack, this`startAngle, this`totalEst
    {
      && ValidGeometry(g)
      && 0 <= currentIndex < |requestQueue| && requestQueue[currentIndex].block == currentBlock
      && !Serves(served, currentIndex)
      && (policy == FIFO ==> currentIndex == |served|)
      && (policy == BSATF && window > 0 ==> currentIndex < WindowAt(window, |served|))
      && SetupOk(Rules()) && ChoiceOk(Rules(), requestQueue, served, startTrack, startAngle, currentIndex)
      && startTrack == (if served == [] then 0 else TrackOf(g, served[|served| - 1].block))
      && startAngle == (if served == [] then 0 else Leave(g, served[|served| - 1].block))
      && totalEst == Est(g, startAngle, startTrack, currentBlock)
    }

    ghost predicate CurrentOk()
      reads this`requestQueue, this`requestState, this`currentIndex, this`currentBlock, this`state, this`served
      reads this`startTrack, this`startAngle, this`totalEst
    {
      ChosenOk() && |requestState| == |requestQueue| && requestState[currentIndex] == state
    }

    /** One late request has joined the queue with each choice, as long as there were any. */
    ghost predicate LateOk(choices: nat)
      reads this`requestQueue, this`lateCount
    {
      && lateCount == (if choices < |lateRequests| then choices else |lateRequests|)
      && |requestQueue| == initial + lateCount
      && (forall k :: 0 <= k < lateCount ==> requestQueue[initial + k].block == lateRequests[k])
    }

    /** Between two ticks, while a request is being served. */
    ghost predicate Busy()
      reads this
    {
      && !isDone && ValidGeometry(g) && requestCount < |requestQueue|
      && WindowAfter() && LateOk(requestCount + 1) && TotalsOk(seekBegin) && MotionOk(g, Now()) && CurrentOk()
      && extra == (if MissedStart(g, |served|, currentBlock) then 360 else 0)
    }

    /** All requests served. Late requests come only with choices, so without any
        request at the start they never come. */
    ghost predicate Finished()
      reads this
    {
      && isDone && requestCount == |requestQueue| && LateOk(requestCount) && TotalsOk(timer)
      && (initial > 0 ==> lateCount == |lateRequests|)
    }

    ghost predicate Valid()
      reads this
    {
      ScheduleOk() && (Busy() || Finished())
    }

    // ----- layout

    constructor (g: Geometry, policy: Policy, window: int, blocks: seq<int>, late: seq<int>)
      requires ValidGeometry(g) && window != 0
      requires forall k :: 0 <= k < |blocks| ==> IsBlock(g, blocks[k])
      requires forall k :: 0 <= k < |late| ==> IsBlock(g, late[k])
      ensures this.g == g && this.policy == policy && this.window == window && lateRequests == late
      ensures ScheduleOk() && WindowBefore() && LateOk(0) && AtRest() && TotalsOk(0) && served == [] && !isDone
      ensures |requestQueue| == |blocks| && forall k :: 0 <= k < |blocks| ==> requestQueue[k].block == blocks[k]
      ensures timer == 0 && initial == |blocks|
    {
      this.g, this.policy, this.window, lateRequests, initial := g, policy, window, late, |blocks|;
      fairWindow := if policy == BSATF && window != -1 then window else -1;
      blockToTrackMap, blockToAngleMap, tracksBeginEnd := map[], map[], [];
      requestQueue, requestState, requestCount, lateCount := [], [], 0, 0;
      currWindow, currentIndex, currentBlock, isDone := window, -1, -1, false;
      armTrack, armTarget, armX1, armTargetX1, armSpeed := 0, 0, ArmX(0), ArmX(0), g.speed;
      angle, timer, state := 0, 0, Null;
      seekBegin, rotBegin, xferBegin, seekTotal, rotTotal, xferTotal, totalEst := 0, 0, 0, 0, 0, 0, 0;
      served, startTrack, startAngle, ticksLeft, extra := [], 0, 0, 0, 0;
      new;
      Prepare(blocks);
    }

    /** Lay out the disk and queue the first requests. */
    method Prepare(blocks: seq<int>)
      requires ValidGeometry(g) && window != 0 && initial == |blocks| && requestQueue == [] && requestState == []
      requires forall k :: 0 <= k < |blocks| ==> IsBlock(g, blocks[k])
      requires forall k :: 0 <= k < |lateRequests| ==> IsBlock(g, lateRequests[k])
      requires fairWindow == (if policy == BSATF && window != -1 then window else -1) && currWindow == window
      requires served == [] && requestCount == 0 && lateCount == 0 && armTrack == 0 && armX1 == ArmX(0) && angle == 0
      requires blockToTrackMap == map[] && blockToAngleMap == map[] && tracksBeginEnd == []
      requires seekTotal == rotTotal == xferTotal == timer == 0
      modifies this`blockToTrackMap, this`blockToAngleMap, this`tracksBeginEnd, this`requestQueue, this`requestState
      ensures ScheduleOk() && WindowBefore() && LateOk(0) && AtRest() && TotalsOk(0)
      ensures |requestQueue| == |blocks| && forall k :: 0 <= k < |blocks| ==> requestQueue[k].block == blocks[k]
    {
      hide LayoutOk, ValidGeometry, QueueOk, OrderOk, Timeline, WindowBefore, LateOk, AtRest, TotalTicks, IsBlock;
      InitBlockLayout();
      AddRequests(blocks);
      StartState(blocks);
    }

    lemma StartState(blocks: seq<int>)
      requires ValidGeometry(g) && window != 0 && initial == |blocks|
      requires forall k :: 0 <= k < |blocks| ==> IsBlock(g, blocks[k])
      requires forall k :: 0 <= k < |lateRequests| ==> IsBlock(g, lateRequests[k])
      requires |requestQueue| == |requestState| == |blocks|
      requires forall i :: 0 <= i < |blocks| ==> requestQueue[i] == Request(blocks[i], i) && requestState[i] == Null
      requires fairWindow == (if policy == BSATF && window != -1 then window else -1) && currWindow == window
      requires served == [] && requestCount == 0 && lateCount == 0 && armTrack == 0 && armX1 == ArmX(0) && angle == 0
      ensures QueueOk() && OrderOk() && Timeline(g, served) && WindowBefore() && LateOk(0) && AtRest()
      ensures TotalTicks(served) == 0
    {
      hide FirstOn, BlocksOn, WindowAt, ValidGeometry, ChoiceOk;
    }

    method AddRequests(blocks: seq<int>)
      requires requestQueue == [] && requestState == []
      modifies this`requestQueue, this`requestState
      ensures |requestQueue| == |requestState| == |blocks|
      ensures forall i :: 0 <= i < |blocks| ==> requestQueue[i] == Request(blocks[i], i) && requestState[i] == Null
    {
      for k := 0 to |blocks|
        invariant |requestQueue| == |requestState| == k
        invariant forall i :: 0 <= i < k ==> requestQueue[i] == Request(blocks[i], i) && requestState[i] == Null
      {
        AddQueueEntry(blocks[k], k);
      }
    }

    method AddQueueEntry(block: int, index: int)
      modifies this`requestQueue, this`requestState
      ensures requestQueue == old(requestQueue) + [Request(block, index)]
      ensures requestState == old(requestState) + [Null]
    {
      requestQueue := requestQueue + [Request(block, index)];
      requestState := requestState + [Null];
    }

    /** Lay out one track: its blocks in order, from `pblock` on, without the final
        turn by half a circle. */
    method LayTrack(track: int, pblock: int) returns (next: int)
      requires ValidGeometry(g) && 0 <= track < 3 && pblock == FirstOn(g, track) && |tracksBeginEnd| == track
      modifies this`blockToTrackMap, this`blockToAngleMap, this`tracksBeginEnd
      ensures next == FirstOn(g, track + 1)
      ensures tracksBeginEnd == old(tracksBeginEnd) + [(pblock, next - 1)]
      ensures forall b :: b in blockToTrackMap <==> b in old(blockToTrackMap) || pblock <= b < next
      ensures forall b :: b in blockToAngleMap <==> b in old(blockToAngleMap) || pblock <= b < next
      ensures forall b :: b in blockToTrackMap ==>
        blockToTrackMap[b] == if pblock <= b < next then track else old(blockToTrackMap)[b]
      ensures forall b :: b in blockToAngleMap ==>
        blockToAngleMap[b] == if pblock <= b < next then Unturned(g, track, b) else old(blockToAngleMap)[b]
    {
      hide FirstOn, BlocksOn, Unturned;
      var angleOffset := 2 * g.half[track];
      BlocksFill(g, track);
      FirstOnNext(g, track);
      ghost var n := BlocksOn(g, track);
      var angle, block := 0, pblock;
      while angle < 360
        modifies this`blockToTrackMap, this`blockToAngleMap
        invariant pblock <= block <= pblock + n && angle == angleOffset * (block - pblock)
        invariant forall b :: b in blockToTrackMap <==> b in old(blockToTrackMap) || pblock <= b < block
        invariant forall b :: b in blockToAngleMap <==> b in old(blockToAngleMap) || pblock <= b < block
        invariant forall b :: b in blockToTrackMap ==>
          blockToTrackMap[b] == if pblock <= b < block then track else old(blockToTrackMap)[b]
        invariant forall b :: b in blockToAngleMap ==>
          blockToAngleMap[b] == if pblock <= b < block then Unturned(g, track, b) else old(blockToAngleMap)[b]
        decreases 360 - angle
      {
        blockToTrackMap := blockToTrackMap[block := track];
        blockToAngleMap := blockToAngleMap[block := angle + angleOffset * (track * g.skew)];
        UnturnedIs(g, track, block);
        NextAngle(angleOffset, block - pblock, n);
        angle := angle + angleOffset;
        block := block + 1;
      }
      LastAngle(angleOffset, block - pblock, n);
      assert block == FirstOn(g, track + 1);
      tracksBeginEnd := tracksBeginEnd + [(pblock, block - 1)];
      next := block;
    }

    method InitBlockLayout()
      requires ValidGeometry(g) && blockToTrackMap == map[] && blockToAngleMap == map[] && tracksBeginEnd == []
      modifies this`blockToTrackMap, this`blockToAngleMap, this`tracksBeginEnd
      ensures LayoutOk()
    {
      hide BlocksOn, Unturned, AngleOf, TrackOf, FirstOn;
      assert FirstOn(g, 0) == 0 by { FirstOnZero(g); }
      var p1 := LayTrack(0, 0);
      var p2 := LayTrack(1, p1);
      var p3 := LayTrack(2, p2);
      FirstOnNext(g, 0);
      FirstOnNext(g, 1);
      FirstOnNext(g, 2);
      forall b | 0 <= b < p3
        ensures TrackOf(g, b) == (if b < p1 then 0 else if b < p2 then 1 else 2)
      {
        TrackIs(g, if b < p1 then 0 else if b < p2 then 1 else 2, b);
      }
      forall t | 0 <= t < 3 ensures tracksBeginEnd[t] == (FirstOn(g, t), FirstOn(g, t + 1) - 1) {
        assert t == 0 || t == 1 || t == 2;
      }
      for b := 0 to p3
        modifies this`blockToAngleMap
        invariant forall c :: c in blockToAngleMap <==> 0 <= c < p3
        invariant forall c :: 0 <= c < b ==> blockToAngleMap[c] == AngleOf(g, c)
        invariant forall c :: b <= c < p3 ==> blockToAngleMap[c] == Unturned(g, TrackOf(g, c), c)
      {
        TurnedIs(g, b);
        blockToAngleMap := blockToAngleMap[b := (blockToAngleMap[b] + 180) % 360];
      }
    }
  
    // ----- scheduling

    /** From the angle `start` on, how far the platter has to turn to bring `enter`
        under the head. */
    method RotationDistance(enter: int, start: int) returns (rotDist: int)
      requires start >= 0
      ensures rotDist % 360 == (enter - start) % 360
      ensures enter < 360 ==> 0 <= rotDist < 360
    {
      var angleAtArrival := start;
      while angleAtArrival > 360
        invariant angleAtArrival >= 0 && (enter - angleAtArrival) % 360 == (enter - start) % 360
      {
        angleAtArrival := angleAtArrival - 360;
      }
      rotDist := enter - angleAtArrival;
      while rotDist > 360
        invariant rotDist % 360 == (enter - start) % 360
        invariant rotDist <= enter - angleAtArrival
      {
        rotDist := rotDist - 360;
      }
      while rotDist < 0
        invariant rotDist % 360 == (enter - start) % 360
        invariant enter < 360 ==> rotDist < 360
        decreases -rotDist
      {
        rotDist := rotDist + 360;
      }
    }

    /** The scheduler's estimate for one request: seek, rotation from the angle at
        arrival, transfer. */
    method Estimate(block: int) returns (total: int)
      requires LayoutOk() && IsBlock(g, block) && 0 <= angle < 360
      ensures total == Est(g, angle, armTrack, block)
    {
      hide FirstOn, BlocksOn, AngleOf, TrackOf, SeekEst;
      TrackInRange(g, block);
      var track := blockToTrackMap[block];
      SeekIs(g, armTrack, block);
      var blockAngle := blockToAngleMap[block];
      var dist := if armTrack <= track then track - armTrack else armTrack - track;
      var seekEst := (40 / g.speed) * dist;
      
      var angleOffset := g.half[track];
      var rotEst := RotationDistance(blockAngle - angleOffset, angle + seekEst);
      AngleInRange(g, block);
      ModAdd(blockAngle - angleOffset, -(angle + seekEst));
      var xferEst := angleOffset * 2;
      total := seekEst + rotEst + xferEst;
    }

    /** The undone request with the least estimate, the first of those: it is at `at`. */
    method DoSATF(rList: seq<Request>) returns (minBlock: int, minIndex: int, ghost at: int)
      requires LayoutOk() && 0 <= angle < 360
      requires forall k :: 0 <= k < |rList| ==> 0 <= rList[k].index < |requestState| && IsBlock(g, rList[k].block)
      requires exists k :: 0 <= k < |rList| && requestState[rList[k].index] != Done
      modifies this`totalEst
      ensures 0 <= at < |rList| && rList[at] == Request(minBlock, minIndex) && requestState[minIndex] != Done
      ensures totalEst == Est(g, angle, armTrack, minBlock)
      ensures forall j :: 0 <= j < |rList| && requestState[rList[j].index] != Done ==>
        totalEst <= Est(g, angle, armTrack, rList[j].block)
      ensures forall j :: 0 <= j < at && requestState[rList[j].index] != Done ==>
        totalEst < Est(g, angle, armTrack, rList[j].block)
    {
      hide FirstOn, BlocksOn, SeekEst, RotEst, XferEst, Est;
      minBlock, minIndex, at := -1, -1, -1;
      var minEst := -1;
      for k := 0 to |rList|
        invariant minEst == -1 ==> forall j :: 0 <= j < k ==> requestState[rList[j].index] == Done
        invariant minEst != -1 ==> minEst >= 0 && minEst == Est(g, angle, armTrack, minBlock) && IsBlock(g, minBlock)
        invariant minEst != -1 ==>
          0 <= at < k && rList[at] == Request(minBlock, minIndex) && requestState[minIndex] != Done
        invariant minEst != -1 ==> forall j :: 0 <= j < k && requestState[rList[j].index] != Done ==>
          minEst <= Est(g, angle, armTrack, rList[j].block)
        invariant minEst != -1 ==> forall j :: 0 <= j < at && requestState[rList[j].index] != Done ==>
          minEst < Est(g, angle, armTrack, rList[j].block)
      {
        if requestState[rList[k].index] != Done {
          var estimate := Estimate(rList[k].block);
          EstIsPositive(g, angle, armTrack, rList[k].block);
          if minEst == -1 || estimate < minEst {
            minEst := estimate;
            minBlock := rList[k].block;
            minIndex := rList[k].index;
            at := k;
          }
        }
      }
      totalEst := minEst;
    }

    /** The undone requests on the nearest track that has any, in their order. */
    method DoSSTF(rList: seq<Request>) returns (trackList: seq<Request>, ghost near: int)
      requires LayoutOk() && 0 <= armTrack < 3
      requires forall k :: 0 <= k < |rList| ==> 0 <= rList[k].index < |requestState| && IsBlock(g, rList[k].block)
      requires exists k :: 0 <= k < |rList| && requestState[rList[k].index] != Done
      ensures trackList != [] && trackList == KeepNear(g, requestState, armTrack, near, rList)
      ensures forall k :: 0 <= k < |rList| && requestState[rList[k].index] != Done ==>
        near <= Distance(armTrack, TrackOf(g, rList[k].block))
    {
      hide FirstOn, BlocksOn, TrackOf, AngleOf, KeepNear;
      var minDist := 1000;
      trackList := [];
      KeepNothing(g, requestState, armTrack, minDist, rList[..0]);
      for k := 0 to |rList|
        invariant trackList == KeepNear(g, requestState, armTrack, minDist, rList[..k])
        invariant trackList == [] ==> minDist == 1000 && forall j :: 0 <= j < k ==> requestState[rList[j].index] == Done
        invariant forall j :: 0 <= j < k && requestState[rList[j].index] != Done ==>
          minDist <= Distance(armTrack, TrackOf(g, rList[j].block))
      {
        KeepStep(g, requestState, armTrack, minDist, rList, k);
        if requestState[rList[k].index] != Done {
          TrackInRange(g, rList[k].block);
          var track := blockToTrackMap[rList[k].block];
          var dist := if armTrack <= track then track - armTrack else armTrack - track;
          if dist < minDist {
            KeepStep(g, requestState, armTrack, dist, rList, k);
            KeepNothing(g, requestState, armTrack, dist, rList[..k]);
            trackList := [rList[k]];
            minDist := dist;
          } else if dist == minDist {
            trackList := trackList + [rList[k]];
          }
        }
      }
      assert rList[..|rList|] == rList;
      near := minDist;
    }

    method UpdateWindow()
      modifies this`currWindow
      ensures currWindow == old(currWindow)
        + (if fairWindow == -1 && old(currWindow) > 0 && old(currWindow) < |requestQueue| then 1 else 0)
    {
      if fairWindow == -1 && currWindow > 0 && currWindow < |requestQueue| {
        currWindow := currWindow + 1;
      }
    }

    /** The window for the next choice; under BSATF it grows here, and only here. */
    method GetWindow() returns (end: int)
      requires WindowBefore() && LateOk(requestCount) && requestCount < |requestQueue|
      modifies this`currWindow
      ensures WindowAfter() && end > requestCount
      ensures (if end > |requestQueue| then |requestQueue| else end) == ViewEnd(Rules(), requestCount)
      ensures window > 0 && policy == BSATF ==> end == WindowAt(window, requestCount)
    {
      hide WindowAt;
      if window > 0 {
        if requestCount > 0 { WindowAtStep(window, requestCount - 1); }
        WindowAtStep(window, requestCount);
        WindowAtZero(window);
      }
      if currWindow <= -1 {
        end := |requestQueue|;
      } else {
        if fairWindow != -1 {
          if requestCount > 0 && requestCount % fairWindow == 0 {
            currWindow := currWindow + fairWindow;
          }
        }
        end := currWindow;
      }
    }
  
    method SwitchState(newState: State)
      requires 0 <= currentIndex < |requestState|
      modifies this`state, this`requestState
      ensures state == newState && requestState == old(requestState)[currentIndex := newState]
    {
      state := newState;
      requestState := requestState[currentIndex := newState];
    }

    /** The arm rests on a track, where the last request ended. */
    ghost predicate AtRest()
      reads this`angle, this`armX1, this`armTrack, this`served
    {
      && ValidGeometry(g) && 0 <= angle < 360 && armX1 == ArmX(armTrack)
      && armTrack == (if served == [] then 0 else TrackOf(g, served[|served| - 1].block))
      && angle == (if served == [] then 0 else Leave(g, served[|served| - 1].block))
    }

    /** What the policy may pick. */
    ghost predicate Picked()
      reads this`requestQueue, this`currentIndex, this`currentBlock, this`served, this`totalEst, this`angle
      reads this`armTrack
    {
      && ValidGeometry(g)
      && 0 <= currentIndex < |requestQueue| && requestQueue[currentIndex].block == currentBlock
      && !Serves(served, currentIndex)
      && (policy == FIFO ==> currentIndex == |served|)
      && (policy == BSATF && window > 0 ==> currentIndex < WindowAt(window, |served|))
      && SetupOk(Rules()) && ChoiceOk(Rules(), requestQueue, served, armTrack, angle, currentIndex)
      && totalEst == Est(g, angle, armTrack, currentBlock)
    }

    /** Pick the next request by the policy. Some request in view has not been served,
        so the scheduler's assertions hold. */
    method Choose()
      requires LayoutOk() && QueueOk() && OrderOk() && WindowBefore() && AtRest() && requestCount < |requestQueue|
      requires LateOk(requestCount)
      modifies this`currentBlock, this`currentIndex, this`currWindow, this`totalEst
      ensures WindowAfter() && Picked()
    {
      hide LayoutOk, WindowAt, FirstOn, BlocksOn, Est, Distinct, Serves, WithinWindows, Best, Choices, LateOk, ViewEnd;
      ArmInRange();
      if policy == FIFO {
        ChooseFirst();
        WindowUnused();
      } else {
        ViewFits(Rules(), requestCount);
        var end := GetWindow();
        var endIndex := if end > |requestQueue| then |requestQueue| else end;
        ghost var free := SomeUnserved(served, endIndex);
        if policy == SSTF {
          ChooseNearest(endIndex, free);
        } else {
          ChooseShortest(endIndex, free);
        }
        PickedInView(endIndex);
      }
    }

    lemma PickedInView(end: int)
      requires PickedBelow(end) && policy != FIFO && end == ViewEnd(Rules(), |served|)
      requires policy == BSATF && window > 0 ==> end <= WindowAt(window, |served|)
      ensures Picked()
    {
      hide ValidGeometry, Better, Est, Serves, WindowAt, ViewEnd;
    }

    method ChooseFirst()
      requires LayoutOk() && QueueOk() && OrderOk() && AtRest() && requestCount < |requestQueue| && policy == FIFO
      modifies this`currentBlock, this`currentIndex, this`totalEst
      ensures Picked()
    {
      hide LayoutOk, WindowAt, FirstOn, BlocksOn, Est, Distinct, Serves, WithinWindows, Choices, ViewEnd, Best;
      FIFONotServed();
      currentBlock, currentIndex := requestQueue[requestCount].block, requestQueue[requestCount].index;
      var rList := requestQueue[requestCount..requestCount + 1];
      assert rList == [requestQueue[requestCount]] && requestState[rList[0].index] != Done;
      var block, index, at := DoSATF(rList);
    }

    method ChooseShortest(endIndex: int, ghost free: int)
      requires LayoutOk() && QueueOk() && AtRest() && 0 <= free < endIndex <= |requestQueue| && !Serves(served, free)
      requires SetupOk(Rules()) && policy != SSTF
      modifies this`currentBlock, this`currentIndex, this`totalEst
      ensures PickedBelow(endIndex)
    {
      hide LayoutOk, FirstOn, BlocksOn, Est, Distinct, Serves, TrackOf;
      var rList := requestQueue[..endIndex];
      assert rList[free] == requestQueue[free];
      ghost var at;
      currentBlock, currentIndex, at := DoSATF(rList);
      forall i | 0 <= i < endIndex && !Serves(served, i)
        ensures Better(Rules(), armTrack, angle, rList[currentIndex], rList[i])
      {
        assert rList[i] == requestQueue[i];
      }
    }

    method ChooseNearest(endIndex: int, ghost free: int)
      requires LayoutOk() && QueueOk() && AtRest() && 0 <= free < endIndex <= |requestQueue| && !Serves(served, free)
      requires SetupOk(Rules()) && policy == SSTF
      modifies this`currentBlock, this`currentIndex, this`totalEst
      ensures PickedBelow(endIndex)
    {
      hide LayoutOk, FirstOn, BlocksOn, Est, Distinct, Serves, TrackOf, KeepNear;
      ArmInRange();
      var rList := requestQueue[..endIndex];
      assert rList[free] == requestQueue[free];
      var trackList;
      ghost var near, at;
      trackList, near := DoSSTF(rList);
      KeptInView(g, requestState, armTrack, near, rList);
      assert requestState[trackList[0].index] != Done;
      currentBlock, currentIndex, at := DoSATF(trackList);
      NearestIsBest(Rules(), armTrack, angle, requestState, served, near, rList, at);
    }

    ghost predicate PickedBelow(end: int)
      reads this
    {
      && SetupOk(Rules())
      && 0 <= currentIndex < end <= |requestQueue| && requestQueue[currentIndex].block == currentBlock
      && Best(Rules(), armTrack, angle, requestQueue[..end], served, currentIndex)
      && totalEst == Est(g, angle, armTrack, currentBlock)
    }

    lemma ArmInRange()
      requires LayoutOk() && AtRest()
      ensures 0 <= armTrack < 3
    {
      if served != [] { TrackInRange(g, served[|served| - 1].block); }
    }

    lemma FIFONotServed()
      requires QueueOk() && OrderOk() && policy == FIFO && requestCount < |requestQueue|
      ensures !Serves(served, requestCount)
    {
    }

    /** FIFO never looks at the window. */
    lemma WindowUnused()
      requires WindowBefore() && LateOk(requestCount) && policy == FIFO && requestCount < |requestQueue|
      ensures WindowAfter()
    {
    }
  
    /** Start on the picked request. On the arm's own track there is no seek, and the
        rotation is first tested one tick later: a block that starts right under the
        head has to come round again. */
    method PlanSeek(track: int)
      requires ValidGeometry(g) && 0 <= angle < 360 && armX1 == ArmX(armTrack) && track == TrackOf(g, currentBlock)
      requires 0 <= currentIndex < |requestState|
      modifies this`seekBegin, this`rotBegin, this`armTarget, this`armTargetX1, this`armSpeed, this`state
      modifies this`requestState
      modifies this`startTrack, this`startAngle, this`ticksLeft, this`extra
      ensures requestState == old(requestState)[currentIndex := state] && (state == Seek || state == Rotate)
      ensures MotionOk(g, Now()) && seekBegin == timer && startTrack == armTrack && startAngle == angle
      ensures state == Rotate <==> track == armTrack
      ensures state == Rotate ==> rotBegin == timer
      ensures extra == if track == armTrack && Enter(g, currentBlock) == angle then 360 else 0
    {
      hide TrackOf, Enter, MotionOk, SeekEst, FirstOn, BlocksOn, ValidGeometry;
      seekBegin := timer;
      startTrack, startAngle := armTrack, angle;
      if track == armTrack {
        PlanRotation();
      } else {
        PlanArm(track);
      }
    }

    method PlanRotation()
      requires ValidGeometry(g) && 0 <= angle < 360 && armX1 == ArmX(armTrack) && armTrack == TrackOf(g, currentBlock)
      requires 0 <= currentIndex < |requestState| && seekBegin == timer && startTrack == armTrack && startAngle == angle
      modifies this`rotBegin, this`state, this`requestState, this`extra
      ensures state == Rotate && requestState == old(requestState)[currentIndex := Rotate]
      ensures MotionOk(g, Now()) && rotBegin == timer
      ensures extra == if Enter(g, currentBlock) == angle then 360 else 0
    {
      hide TrackOf, Enter, MotionOk, SeekEst, FirstOn, BlocksOn;
      SwitchState(Seek);
      rotBegin := timer;
      SwitchState(Rotate);
      extra := if Enter(g, currentBlock) == angle then 360 else 0;
      StartsWithRotation(g, Now());
    }

    method PlanArm(track: int)
      requires ValidGeometry(g) && 0 <= angle < 360 && armX1 == ArmX(armTrack)
      requires track == TrackOf(g, currentBlock) && track != armTrack
      requires 0 <= currentIndex < |requestState| && seekBegin == timer && startTrack == armTrack && startAngle == angle
      modifies this`armTarget, this`armTargetX1, this`armSpeed, this`ticksLeft, this`state, this`requestState
      modifies this`extra
      ensures state == Seek && requestState == old(requestState)[currentIndex := Seek]
      ensures MotionOk(g, Now()) && extra == 0
    {
      hide TrackOf, Enter, MotionOk, SeekEst, FirstOn, BlocksOn;
      SwitchState(Seek);
      armTarget := track;
      armTargetX1 := ArmX(track);
      armSpeed := if track >= armTrack then g.speed else -g.speed;
      ticksLeft, extra := SeekEst(g, armTrack, currentBlock), 0;
      StartsWithSeek(g, Now());
    }

    method AddRequest(block: int)
      modifies this`requestQueue, this`requestState
      ensures requestQueue == old(requestQueue) + [Request(block, |old(requestQueue)|)]
      ensures requestState == old(requestState) + [Null]
    {
      AddQueueEntry(block, |requestQueue|);
    }

    /** The request just picked has been started. */
    ghost predicate Started()
      reads this
    {
      && ValidGeometry(g) && requestCount < |requestQueue| && WindowAfter() && MotionOk(g, Now()) && CurrentOk()
      && startTrack == armTrack && startAngle == angle && seekBegin == timer
      && (state == Seek || state == Rotate) && (state == Rotate ==> rotBegin == timer)
      && (state == Rotate <==> TrackOf(g, currentBlock) == armTrack)
      && extra == (if TrackOf(g, currentBlock) == armTrack && Enter(g, currentBlock) == angle then 360 else 0)
    }

    /** Done, or on to the next request; a late request arrives with each choice. */
    method GetNextIO()
      requires ScheduleOk() && WindowBefore() && AtRest() && !isDone
      requires LateOk(requestCount)
      modifies this`isDone, this`currentBlock, this`currentIndex, this`currWindow, this`totalEst
      modifies this`seekBegin, this`rotBegin, this`armTarget, this`armTargetX1, this`armSpeed, this`state
      modifies this`requestState
      modifies this`requestQueue, this`lateCount, this`startTrack, this`startAngle, this`ticksLeft, this`extra
      ensures ScheduleOk() && isDone == (requestCount == |old(requestQueue)|)
      ensures isDone ==> requestQueue == old(requestQueue) && currentBlock == old(currentBlock)
      ensures isDone ==> lateCount == old(lateCount) && LateOk(requestCount)
      ensures !isDone ==> Started() && LateOk(requestCount + 1)
      ensures old(requestQueue) <= requestQueue
    {
      hide LayoutOk, QueueOk, OrderOk, Timeline, Started, WindowBefore;
      if requestCount == |requestQueue| {
        isDone := true;
        return;
      }
      StartNext();
      if |lateRequests| > 0 && lateCount < |lateRequests| { AddLate(); }
    }

    method StartNext()
      requires ScheduleOk() && WindowBefore() && AtRest() && LateOk(requestCount) && requestCount < |requestQueue|
      modifies this`currentBlock, this`currentIndex, this`currWindow, this`totalEst
      modifies this`seekBegin, this`rotBegin, this`armTarget, this`armTargetX1, this`armSpeed, this`state
      modifies this`requestState
      modifies this`startTrack, this`startAngle, this`ticksLeft, this`extra
      ensures ScheduleOk() && Started()
    {
      hide LayoutOk, Timeline, OrderOk, Est, Serves, Distinct, WindowAt, TrackOf, Enter, Leave, MotionOk, WindowBefore,
        WindowAfter, StatesMatch, QueueShape, Picked, AtRest, Started, LateOk, ChoiceOk;
      Choose();
      PickedFits();
      ghost var before := requestState;
      PlanSeek(blockToTrackMap[currentBlock]);
      StateChanged(before, served, currentIndex, state);
      StartedFromRest();
    }

    lemma StartedFromRest()
      requires QueueOk() && Picked() && AtRest() && WindowAfter() && requestCount < |requestQueue| && MotionOk(g, Now())
      requires requestState[currentIndex] == state && (state == Seek || state == Rotate)
      requires startTrack == armTrack && startAngle == angle && seekBegin == timer
      requires (state == Rotate ==> rotBegin == timer)
      requires state == Rotate <==> TrackOf(g, currentBlock) == armTrack
      requires extra == if TrackOf(g, currentBlock) == armTrack && Enter(g, currentBlock) == angle then 360 else 0
      ensures Started()
    {
      hide MotionOk, TrackOf, Enter, Leave, Est, Serves, StatesMatch, QueueShape, WindowAfter, ChoiceOk;
    }

    lemma PickedFits()
      requires LayoutOk() && QueueOk() && Picked() && AtRest()
      ensures IsBlock(g, currentBlock) && currentBlock in blockToTrackMap
      ensures blockToTrackMap[currentBlock] == TrackOf(g, currentBlock)
      ensures |requestState| == |requestQueue| && requestState[currentIndex] != Done
      ensures 0 <= angle < 360 && armX1 == ArmX(armTrack) && ValidGeometry(g) && 0 <= currentIndex < |requestQueue|
    {
    }

    /** One late request joins the queue; nothing that was decided changes. */
    method AddLate()
      requires ScheduleOk() && lateCount < |lateRequests| && Started()
      modifies this`requestQueue, this`requestState, this`lateCount
      ensures ScheduleOk() && Started()
      ensures old(requestQueue) <= requestQueue && |requestQueue| == |old(requestQueue)| + 1
      ensures lateCount == old(lateCount) + 1
      ensures requestQueue[|requestQueue| - 1].block == lateRequests[old(lateCount)]
    {
      hide LayoutOk, Timeline, Est, Serves, Distinct, WindowAt, TrackOf, Enter, Leave, MotionOk, StatesMatch, ChoiceOk,
        Choices, OrderFits;
      NewIsUnserved(|requestQueue|);
      StateAdded(requestState, served);
      ghost var more := requestQueue + [Request(lateRequests[lateCount], |requestQueue|)];
      ChoicesStay(Rules(), requestQueue, more, served);
      ChoiceStays(Rules(), requestQueue, more, served, startTrack, startAngle, currentIndex);
      AddRequest(lateRequests[lateCount]);
      lateCount := lateCount + 1;
    }

    lemma NewIsUnserved(i: int)
      requires QueueOk() && i >= |requestQueue|
      ensures !Serves(served, i)
    {
    }
  
    // ----- the clock

    /** A request is being served; nothing is said about how far it has come. */
    ghost predicate Serving()
      reads this`isDone, this`requestCount, this`requestQueue, this`currWindow, this`lateCount, this`seekBegin
      reads this`served
      reads this`seekTotal, this`rotTotal, this`xferTotal, this`requestState, this`currentIndex, this`currentBlock
      reads this`state
      reads this`startTrack, this`startAngle, this`totalEst, this`extra
      reads this`blockToTrackMap, this`blockToAngleMap, this`tracksBeginEnd
    {
      && ScheduleOk() && !isDone && requestCount < |requestQueue|
      && WindowAfter() && LateOk(requestCount + 1) && TotalsOk(seekBegin) && CurrentOk()
      && extra == (if MissedStart(g, |served|, currentBlock) then 360 else 0)
    }

    method DoneWithSeek() returns (done: bool)
      modifies this`armX1, this`armTrack, this`ticksLeft
      ensures armX1 == old(armX1) + armSpeed && ticksLeft == old(ticksLeft) - 1
      ensures done == Arrived(Now())
      ensures armTrack == if done then armTarget else old(armTrack)
    {
      armX1 := armX1 + armSpeed;
      ticksLeft := ticksLeft - 1;
      if (armSpeed > 0 && armX1 >= armTargetX1) || (armSpeed < 0 && armX1 <= armTargetX1) {
        armTrack := armTarget;
        return true;
      }
      return false;
    }

    function RadiallyCloseTo(a1: int, a2: int): bool {
      if a1 > a2 then a1 - a2 < 1 else a2 - a1 < 1
    }

    method DoneWithRotation() returns (done: bool)
      requires LayoutOk() && IsBlock(g, currentBlock) && armTrack == TrackOf(g, currentBlock)
      requires 0 <= currentIndex < |requestState|
      modifies this`state, this`requestState
      ensures done <==> angle == Enter(g, currentBlock)
      ensures !done ==> state == old(state) && requestState == old(requestState)
      ensures done ==> state == Xfer && requestState == old(requestState)[currentIndex := Xfer]
    {
      hide AngleOf, FirstOn, BlocksOn;
      TrackInRange(g, currentBlock);
      var angleOffset := g.half[armTrack];
      done := RadiallyCloseTo(angle, (blockToAngleMap[currentBlock] - angleOffset) % 360);
      if done { SwitchState(Xfer); }
    }

    method DoneWithTransfer() returns (done: bool)
      requires LayoutOk() && IsBlock(g, currentBlock) && armTrack == TrackOf(g, currentBlock)
      requires 0 <= currentIndex < |requestState|
      modifies this`state, this`requestState, this`requestCount, this`served
      ensures done <==> angle == Leave(g, currentBlock)
      ensures !done ==> state == old(state) && requestState == old(requestState)
      ensures !done ==> requestCount == old(requestCount) && served == old(served)
      ensures done ==> state == Done && requestState == old(requestState)[currentIndex := Done]
      ensures done ==> requestCount == old(requestCount) + 1 && served == old(served) + [ThisService()]
    {
      hide AngleOf, FirstOn, BlocksOn;
      TrackInRange(g, currentBlock);
      var angleOffset := g.half[armTrack];
      done := RadiallyCloseTo(angle, (blockToAngleMap[currentBlock] + angleOffset) % 360);
      if done {
        SwitchState(Done);
        requestCount := requestCount + 1;
        served := served + [ThisService()];
      }
    }

    ghost function ThisService(): Service
      reads this`currentIndex, this`currentBlock, this`startTrack, this`startAngle, this`totalEst
      reads this`seekBegin, this`rotBegin, this`xferBegin, this`timer
    {
      Service(currentIndex, currentBlock, startTrack, startAngle, totalEst,
              rotBegin - seekBegin, xferBegin - rotBegin, timer - xferBegin)
    }

    method DoRequestStats()
      modifies this`seekTotal, this`rotTotal, this`xferTotal
      ensures seekTotal == old(seekTotal) + (rotBegin - seekBegin)
      ensures rotTotal == old(rotTotal) + (xferBegin - rotBegin)
      ensures xferTotal == old(xferTotal) + (timer - xferBegin)
    {
      seekTotal := seekTotal + (rotBegin - seekBegin);
      rotTotal := rotTotal + (xferBegin - rotBegin);
      xferTotal := xferTotal + (timer - xferBegin);
    }
  
    /** A request has just been completed. */
    ghost predicate JustServed()
      reads this
    {
      && ScheduleOk() && !isDone && AtRest() && served != []
      && 0 <= currentIndex < |requestState| && requestState[currentIndex] == Done
      && currentBlock == served[|served| - 1].block && LateOk(requestCount)
      && TotalTicks(served) == timer && TotalsMatch(served[..|served| - 1]) && served[|served| - 1] == ThisService()
      && WindowLeft()
    }

    /** The scheduling window between a completion and the next choice. */
    ghost predicate WindowLeft()
      reads this`currWindow, this`requestCount
    {
      && window != 0 && fairWindow == (if policy == BSATF && window != -1 then window else -1) && requestCount > 0
      && (window < 0 ==> currWindow == window)
      && (window > 0 && policy == BSATF ==> currWindow == WindowAt(window, requestCount - 1))
      && (window > 0 && policy != BSATF ==> WindowGrown(currWindow, requestCount - 1))
    }

    /** The growing window after choice j. */
    ghost predicate WindowGrown(width: int, j: nat) {
      j < width <= window + j && (width == window + j || width >= QueueAt(Rules(), j))
    }

    /** Bookkeeping at the end of a request, and on to the next one. When that is the
        very next block on the track, the simulator stays in transfer. */
    method NextAfterServed()
      requires JustServed()
      modifies this
      ensures Valid() && served == old(served) && timer == old(timer) && requestCount == old(requestCount)
      ensures old(requestQueue) <= requestQueue && (isDone ==> requestQueue == old(requestQueue))
      ensures !isDone ==> LateOk(requestCount + 1)
    {
      hide LayoutOk, QueueOk, OrderOk, Timeline, TotalTicks, Started, AtRest, Busy, Finished, WindowBefore, LateOk;
      LastBlockOk();
      var lastBlock := currentBlock;
      CloseRequest();
      GetNextIO();
      if isDone {
        var follows := CheckFollows(lastBlock);
        NotOwnFollower(g, lastBlock);
        AllServed();
      } else {
        ContinueAfter(lastBlock);
      }
    }

    method CloseRequest()
      requires JustServed()
      modifies this`seekTotal, this`rotTotal, this`xferTotal, this`state, this`requestState, this`currWindow
      ensures ScheduleOk() && WindowBefore() && TotalsOk(timer)
    {
      hide LayoutOk, QueueShape, OrderOk, Timeline, TotalTicks, AtRest, LateOk, WindowAt, StatesMatch, WindowBefore;
      DoRequestStats();
      assert requestState[currentIndex := Done] == requestState;
      SwitchState(Done);
      UpdateWindow();
      WindowReady(old(currWindow));
    }

    method ContinueAfter(lastBlock: int)
      requires ScheduleOk() && !isDone && Started() && LateOk(requestCount + 1) && TotalsOk(timer) && AtRest()
      requires served != [] && lastBlock == served[|served| - 1].block && IsBlock(g, lastBlock)
      modifies this`rotBegin, this`seekBegin, this`xferBegin, this`extra, this`state, this`requestState
      ensures Valid()
    {
      hide LayoutOk, QueueOk, OrderOk, Timeline, TotalTicks, Started, AtRest, Busy, Finished, Follows, IsBlock;
      NextBlockOk();
      var follows := CheckFollows(lastBlock);
      if follows {
        StayInTransfer(lastBlock);
      } else {
        GoesOn(lastBlock);
      }
    }

    lemma LastBlockOk()
      requires QueueOk() && served != [] && Timeline(g, served)
      ensures ValidGeometry(g) && IsBlock(g, served[|served| - 1].block)
    {
      assert ServedAt(g, served, |served| - 1);
    }

    lemma NextBlockOk()
      requires QueueOk() && Started()
      ensures IsBlock(g, currentBlock)
    {
    }

    lemma WindowReady(before: int)
      requires window != 0 && fairWindow == (if policy == BSATF && window != -1 then window else -1) && requestCount > 0
      requires window < 0 ==> before == window
      requires window > 0 && policy == BSATF ==> before == WindowAt(window, requestCount - 1)
      requires window > 0 && policy != BSATF ==> WindowGrown(before, requestCount - 1)
      requires LateOk(requestCount)
      requires currWindow == before + (if fairWindow == -1 && before > 0 && before < |requestQueue| then 1 else 0)
      ensures WindowBefore()
    {
      hide WindowAt;
    }

    lemma AllServed()
      requires ScheduleOk() && isDone && requestCount == |requestQueue| && LateOk(requestCount) && TotalsOk(timer)
      ensures Valid()
    {
      hide LayoutOk, QueueOk, OrderOk, Timeline, TotalTicks, Busy;
    }

    /** The test of the special case: on the same track and next to the last block. */
    method CheckFollows(lastBlock: int) returns (follows: bool)
      requires LayoutOk() && AtRest() && served != [] && lastBlock == served[|served| - 1].block
      requires IsBlock(g, lastBlock) && IsBlock(g, currentBlock)
      ensures follows <==> Follows(g, lastBlock, currentBlock)
    {
      hide FirstOn, BlocksOn, AngleOf;
      TrackInRange(g, lastBlock);
      if blockToTrackMap[lastBlock] == blockToTrackMap[currentBlock] {
        follows := (lastBlock == tracksBeginEnd[armTrack].1 && currentBlock == tracksBeginEnd[armTrack].0)
                   || lastBlock + 1 == currentBlock;
      } else {
        follows := false;
      }
    }

    /** The last block of a track and the first are neighbours, too, so the next
        block on the track is under the head right away. */
    method StayInTransfer(lastBlock: int)
      requires ScheduleOk() && !isDone && Started() && LateOk(requestCount + 1) && TotalsOk(timer) && AtRest()
      requires served != [] && lastBlock == served[|served| - 1].block && IsBlock(g, lastBlock)
      requires IsBlock(g, currentBlock)
      requires Follows(g, lastBlock, currentBlock)
      modifies this`rotBegin, this`seekBegin, this`xferBegin, this`extra, this`state, this`requestState
      ensures Valid() && Busy()
    {
      hide LayoutOk, Timeline, OrderOk, TotalsOk, TrackOf, Enter, StatesMatch, QueueShape, MotionOk, ValidGeometry,
        ChosenOk, WindowAfter, LateOk, AtRest, Busy, Follows, IsBlock;
      FollowerIsUnderHead(lastBlock);
      StateChanged(requestState, served, currentIndex, Xfer);
      TurnToTransfer();
      StartsWithXfer(g, Now());
      LaterIsNotMissed();
      TransferIsBusy();
    }

    method TurnToTransfer()
      requires 0 <= currentIndex < |requestState|
      modifies this`rotBegin, this`seekBegin, this`xferBegin, this`extra, this`state, this`requestState
      ensures rotBegin == seekBegin == xferBegin == timer && state == Xfer && extra == 0
      ensures requestState == old(requestState)[currentIndex := Xfer]
    {
      rotBegin, seekBegin, xferBegin := timer, timer, timer;
      SwitchState(Xfer);
      extra := 0;
    }

    lemma TransferIsBusy()
      requires ScheduleOk() && !isDone && ChosenOk() && requestState[currentIndex] == state == Xfer
      requires requestCount < |requestQueue| && WindowAfter() && LateOk(requestCount + 1) && TotalsOk(timer)
      requires seekBegin == timer && MotionOk(g, Now()) && extra == 0 && !MissedStart(g, |served|, currentBlock)
      ensures Valid() && Busy()
    {
      hide LayoutOk, Timeline, OrderOk, TotalsOk, StatesMatch, QueueShape, MotionOk, WindowAfter, LateOk, MissedStart,
        TrackOf, Leave, Est, Serves, WindowAt;
    }

    lemma FollowerIsUnderHead(lastBlock: int)
      requires AtRest() && Started() && served != [] && lastBlock == served[|served| - 1].block
      requires IsBlock(g, lastBlock) && IsBlock(g, currentBlock)
      ensures Follows(g, lastBlock, currentBlock) <==>
        TrackOf(g, currentBlock) == armTrack && Enter(g, currentBlock) == angle
      ensures 0 <= angle < 360 && armX1 == ArmX(armTrack) && startTrack == armTrack && startAngle == angle
      ensures 0 <= currentIndex < |requestState| && requestState[currentIndex] != Done
      ensures ChosenOk() && WindowAfter() && requestCount < |requestQueue|
    {
      hide Est, Serves, MotionOk, FirstOn, BlocksOn, Enter, Leave, TrackOf;
      if TrackOf(g, currentBlock) == TrackOf(g, lastBlock) { EnterIsLeave(g, lastBlock, currentBlock); }
    }

    lemma LaterIsNotMissed()
      requires ValidGeometry(g) && served != []
      ensures !MissedStart(g, |served|, currentBlock)
    {
    }

    lemma GoesOn(lastBlock: int)
      requires ScheduleOk() && !isDone && Started() && LateOk(requestCount + 1) && TotalsOk(timer) && AtRest()
      requires served != [] && lastBlock == served[|served| - 1].block && IsBlock(g, lastBlock)
      requires IsBlock(g, currentBlock)
      requires !Follows(g, lastBlock, currentBlock)
      ensures Valid()
    {
      hide LayoutOk, QueueOk, Timeline, OrderOk, TotalTicks, WindowAt, TrackOf, Leave, Enter, Est, MotionOk, FirstOn,
        BlocksOn, ValidGeometry, Serves, Follows;
      FollowerIsUnderHead(lastBlock);
      LaterIsNotMissed();
    }
  
    // ----- one tick

    /** While seeking: move the arm; once it has arrived, the rotation is tested in the
        same tick. */
    method RunSeek(ghost m: Motion)
      requires ValidGeometry(g) && Serving() && state == Seek && MotionOk(g, m) && Now() == Tick(m)
      modifies this`armX1, this`armTrack, this`ticksLeft, this`rotBegin, this`state, this`requestState
      ensures Serving()
      ensures (state == Seek && MotionOk(g, Now())) || (state == Rotate && RotateCheck(g, Now()))
    {
      hide Serving, MotionOk, RotateCheck, ValidGeometry;
      SeekTick(g, m);
      var done := DoneWithSeek();
      if done {
        rotBegin := timer;
        ServingState(Rotate);
      }
    }

    /** Move the current request to another state, other than done. */
    method ServingState(newState: State)
      requires Serving() && state != Done && newState != Done
      modifies this`state, this`requestState
      ensures Serving() && state == newState
    {
      hide LayoutOk, QueueShape, OrderOk, Timeline, WindowAfter, LateOk, TotalsOk, ChosenOk, MissedStart, StatesMatch;
      IndexInRange();
      StateChanged(requestState, served, currentIndex, newState);
      SwitchState(newState);
    }

    lemma IndexInRange()
      requires CurrentOk()
      ensures 0 <= currentIndex < |requestState| && |requestState| == |requestQueue|
    {
    }

    lemma CurrentIsBlock()
      requires QueueOk() && CurrentOk()
      ensures IsBlock(g, currentBlock) && 0 <= currentIndex < |requestState|
    {
    }

    method RunRotate()
      requires ValidGeometry(g) && Serving() && state == Rotate && RotateCheck(g, Now())
      modifies this`xferBegin, this`state, this`requestState
      ensures Serving()
      ensures (state == Rotate && MotionOk(g, Now())) || (state == Xfer && XferCheck(g, Now()))
    {
      hide LayoutOk, QueueShape, OrderOk, Timeline, WindowAfter, LateOk, TotalsOk, ChosenOk, MissedStart, StatesMatch,
        MotionOk, RotTime, SeekEst, Enter, IsBlock, XferCheck, Serves;
      CurrentIsBlock();
      RotateChecked(g, Now());
      ghost var before := requestState;
      StateChanged(before, served, currentIndex, Xfer);
      var done := DoneWithRotation();
      if done {
        xferBegin := timer;
        SwitchState(Xfer);
        assert requestState == before[currentIndex := Xfer];
      }
    }
  
    /** While transferring: once the block has been left, account for it and go on. */
    method RunTransfer()
      requires ValidGeometry(g) && Serving() && state == Xfer && XferCheck(g, Now())
      modifies this
      ensures Valid() && old(served) <= served && timer == old(timer)
      ensures old(requestQueue) <= requestQueue
      ensures if served == old(served)
        then !isDone && requestCount == old(requestCount) && Now() == old(Now()) && requestQueue == old(requestQueue)
        else requestCount == old(requestCount) + 1 && (isDone || LateOk(requestCount + 1))
    {
      hide LayoutOk, QueueOk, OrderOk, Timeline, LateOk, MissedStart, StatesMatch, Serving, OrderFits, ServedFits,
        MotionOk, XferCheck, Leave, JustServed, Busy, Finished, Aboard, TotalTicks, Valid, RecordOk, ThisService,
        TrackOf, IsBlock, Remaining, XferEst, FirstOn, BlocksOn;
      ServingParts();
      OnBoard();
      XferChecked(g, Now());
      ghost var sv, st, v := served, requestState, ThisService();
      if angle == Leave(g, currentBlock) { ServiceDone(v); }
      var done := DoneWithTransfer();
      if done {
        assert served == sv + [v];
        ServedNow(v, sv, st);
        NextAfterServed();
      } else {
        StillBusy();
      }
    }

    lemma ServingParts()
      requires Serving()
      ensures LayoutOk() && IsBlock(g, currentBlock) && 0 <= currentIndex < |requestState|
      ensures requestCount == |served| && !isDone
    {
      hide LayoutOk, OrderOk, Timeline, LateOk, MissedStart, StatesMatch, TotalTicks, WindowAfter, ServedFits;
    }

    /** What adding the completed request to the record of services keeps true. */
    ghost predicate RecordOk(v: Service, sv: seq<Service>, st: seq<State>)
      reads this`requestQueue, this`lateCount, this`currWindow, this`seekTotal, this`rotTotal, this`xferTotal
      reads this`timer, this`seekBegin, this`rotBegin, this`xferBegin, this`currentIndex, this`currentBlock
      reads this`startTrack, this`startAngle, this`totalEst, this`isDone
    {
      && ValidGeometry(g) && !isDone && |sv| + 1 <= |requestQueue| && |st| == |requestQueue|
      && (forall i :: 0 <= i < |requestQueue| ==> requestQueue[i].index == i && IsBlock(g, requestQueue[i].block))
      && (forall k :: 0 <= k < |lateRequests| ==> IsBlock(g, lateRequests[k]))
      && lateCount <= |lateRequests|
      && ServedFits(requestQueue, sv + [v]) && OrderFits(sv + [v]) && Timeline(g, sv + [v])
      && SetupOk(Rules()) && Choices(Rules(), requestQueue, sv + [v])
      && 0 <= currentIndex < |st| && StatesMatch(st[currentIndex := Done], sv + [v])
      && v.block == currentBlock && LateOk(|sv| + 1)
      && TotalTicks(sv + [v]) == timer && TotalsMatch(sv) && v == ThisService()
      && window != 0 && fairWindow == (if policy == BSATF && window != -1 then window else -1)
      && (window < 0 ==> currWindow == window)
      && (window > 0 && policy == BSATF ==> currWindow == WindowAt(window, |sv|))
      && (window > 0 && policy != BSATF ==> WindowGrown(currWindow, |sv|))
    }

    lemma ServiceDone(v: Service)
      requires ValidGeometry(g) && Serving() && state == Xfer && XferCheck(g, Now()) && v == ThisService()
      requires angle == Leave(g, currentBlock)
      ensures RecordOk(v, served, requestState)
    {
      hide LayoutOk, MissedStart, StatesMatch, Distinct, ServedFits, WindowAt, Timeline, TotalTicks, Leave, TrackOf,
        Est,
        SeekEst, RotEst, XferEst, FirstOn, BlocksOn, ValidGeometry, Serves, Aboard;
      XferChecked(g, Now());
      StateDone(requestState, served, v);
      ServedFitsGrows(requestQueue, served, v);
      ServiceIsTimed(v);
      TimelineGrows(g, served, v);
      ChoicesGrow(Rules(), requestQueue, served, v);
    }

    lemma ServiceIsTimed(v: Service)
      requires ValidGeometry(g) && Serving() && state == Xfer && XferCheck(g, Now()) && v == ThisService()
      requires timer - xferBegin == XferEst(g, currentBlock)
      ensures ServedAt(g, served + [v], |served|)
      ensures v.seek + v.rot + v.xfer == timer - seekBegin
    {
      hide LayoutOk, MissedStart, StatesMatch, ServedFits, WindowAt, Timeline, TotalTicks, Leave, TrackOf, Est,
        SeekEst, RotEst, XferEst, FirstOn, BlocksOn, ValidGeometry, Serves, Aboard, OrderFits, WindowAfter, LateOk;
      assert served != [] ==> (served + [v])[|served| - 1] == served[|served| - 1];
    }

    lemma ServedNow(v: Service, sv: seq<Service>, st: seq<State>)
      requires LayoutOk() && RecordOk(v, sv, st)
      requires served == sv + [v] && requestCount == |sv| + 1 && requestState == st[currentIndex := Done]
      requires armTrack == TrackOf(g, currentBlock) && armX1 == ArmX(armTrack) && 0 <= angle < 360
      requires angle == Leave(g, currentBlock)
      ensures JustServed()
    {
      hide LayoutOk, StatesMatch, ServedFits, OrderFits, Timeline, TotalTicks, WindowAt, Leave, TrackOf, LateOk,
        IsBlock;
    }

    lemma OnBoard()
      requires ValidGeometry(g) && XferCheck(g, Now())
      ensures armTrack == TrackOf(g, currentBlock) && armX1 == ArmX(armTrack) && 0 <= angle < 360
    {
    }

    lemma StillBusy()
      requires ValidGeometry(g) && Serving() && MotionOk(g, Now())
      ensures Valid()
    {
      hide LayoutOk, QueueOk, OrderOk, Timeline, WindowAfter, LateOk, TotalsOk, CurrentOk, MissedStart, MotionOk;
    }
  
    /** One tick of the clock. */
    method Animate()
      requires Valid() && !isDone
      modifies this
      ensures Valid() && timer == old(timer) + 1
      ensures old(served) <= served && old(requestQueue) <= requestQueue
      ensures ValidGeometry(g) && requestCount >= old(requestCount)
      ensures requestCount == old(requestCount) ==> !isDone && Remaining(g, Now()) == old(Remaining(g, Now())) - 1
    {
      hide MotionOk, RotateCheck, XferCheck, ValidGeometry, Remaining, Serving, Valid, LateOk;
      BusyIsServing();
      ghost var m := Now();
      TurnPlatter();
      if state == Seek { RunSeek(m); }
      if state == Rotate { RunRotate(); }
      RemainingAfter(g, m, Now());
      if state == Xfer {
        RunTransfer();
      } else {
        StillBusy();
      }
    }

    /** The clock and the platter advance. */
    method TurnPlatter()
      requires ValidGeometry(g) && MotionOk(g, Now())
      modifies this`timer, this`angle
      ensures Now() == Tick(old(Now()))
      ensures state == Rotate ==> RotateCheck(g, Now())
      ensures state == Xfer ==> XferCheck(g, Now())
    {
      hide MotionOk, RotateCheck, XferCheck, ValidGeometry;
      ghost var m := Now();
      timer := timer + 1;
      angle := angle + 1;
      if angle >= 360 { angle := 0; }
      assert Now() == Tick(m);
      if state == Rotate { RotateTick(g, m); }
      if state == Xfer { XferTick(g, m); }
    }

    lemma BusyIsServing()
      requires Valid() && !isDone
      ensures ValidGeometry(g) && Serving() && MotionOk(g, Now())
      ensures state == Seek || state == Rotate || state == Xfer
    {
      hide LayoutOk, QueueOk, OrderOk, Timeline, WindowAfter, LateOk, TotalsOk, MissedStart;
    }
  
    // ----- the whole simulation

    /** Run to the end. Every request is served exactly once, late ones included if there
        was one to begin with; each choice is the best in view by the policy, so that what
        the simulation was given fixes the schedule; the clock ends at the sum of the
        estimates, plus one turn of the platter if the first choice starts under the head;
        under BSATF no request is passed over for longer than the window allows. */
    method Go()
      requires ScheduleOk() && WindowBefore() && LateOk(0) && AtRest() && TotalsOk(0)
      requires served == [] && !isDone && timer == 0
      modifies this
      ensures isDone && ValidGeometry(g) && Timeline(g, served)
      ensures old(requestQueue) <= requestQueue
      ensures |requestQueue| == initial + |lateRequests| <==> initial > 0 || lateRequests == []
      ensures initial == 0 ==> requestQueue == []
      ensures forall k :: initial <= k < |requestQueue| && k - initial < |lateRequests| ==>
        requestQueue[k].block == lateRequests[k - initial]
      ensures Numbered(requestQueue) && OfQueue(requestQueue, served)
      ensures SetupOk(Rules()) && Choices(Rules(), requestQueue, served)
      ensures timer == TotalEst(served) + if StartsMissed(Rules(), old(requestQueue)) then 360 else 0
      ensures |served| == |requestQueue| && forall i :: 0 <= i < |requestQueue| ==> Serves(served, i)
      ensures Phases(seekTotal, rotTotal, xferTotal) == Totals(served)
      ensures seekTotal + rotTotal + xferTotal == timer == TotalTicks(served)
      ensures timer == TotalEst(served) + (if served != [] && MissedStart(g, 0, served[0].block) then 360 else 0)
      ensures policy == FIFO ==> forall j :: 0 <= j < |served| ==> served[j].index == j
      ensures policy == BSATF && window > 0 ==>
        forall i :: 0 <= i < |requestQueue| && WindowAt(window, i) <= |served| ==>
        WindowAt(window, i) > 0 && Serves(served[..WindowAt(window, i)], i)
    {
      hide ScheduleOk, WindowBefore, LateOk, AtRest, TotalsOk, ValidGeometry, Started, Valid, Remaining, Busy, Finished;
      RequestCountIsZero();
      GetNextIO();
      FirstStart();
      while !isDone
        invariant Valid() && ValidGeometry(g)
        invariant old(requestQueue) <= requestQueue && |old(requestQueue)| == initial
        invariant initial == 0 ==> isDone && requestQueue == []
        decreases initial + |lateRequests| - requestCount, if isDone then 0 else Remaining(g, Now())
      {
        CountBound();
        Animate();
        if !isDone { CountBound(); }
      }
      AllDone();
      MissedAtStart(old(requestQueue));
    }

    /** Whether the first request is missed can be told beforehand. */
    lemma MissedAtStart(queue: seq<Request>)
      requires ScheduleOk() && queue <= requestQueue && |queue| == initial && |served| == |requestQueue|
      requires initial == 0 ==> requestQueue == []
      ensures SetupOk(Rules()) && Choices(Rules(), requestQueue, served)
      ensures Numbered(requestQueue) && OfQueue(requestQueue, served)
      ensures served != [] && MissedStart(g, 0, served[0].block) <==> StartsMissed(Rules(), queue)
    {
      hide LayoutOk, Timeline, Choices, ChoiceOk, MissedStart, StatesMatch, OrderFits, ValidGeometry, IsBlock;
      if served != [] { FirstServed(Rules(), queue, requestQueue, served); } else { NothingMissed(Rules()); }
    }

    lemma RequestCountIsZero()
      requires ScheduleOk() && served == [] && LateOk(0)
      ensures requestCount == 0 && ValidGeometry(g) && |requestQueue| == initial
    {
      hide LayoutOk, OrderOk, Timeline, ServedFits, StatesMatch;
    }

    /** The very first request: its extra turn is that of a missed start. */
    lemma FirstStart()
      requires ScheduleOk() && served == [] && requestCount == 0 && TotalsOk(timer) && AtRest()
      requires if isDone then requestCount == |requestQueue| && LateOk(requestCount)
               else Started() && LateOk(requestCount + 1)
      ensures Valid()
    {
      hide LayoutOk, QueueOk, OrderOk, Timeline, TotalTicks, MotionOk, WindowAfter, TrackOf, Enter, ChosenOk;
    }

    lemma CountBound()
      requires Valid() && !isDone
      ensures ValidGeometry(g) && requestCount < initial + |lateRequests| && Remaining(g, Now()) >= 1
    {
      hide LayoutOk, QueueOk, OrderOk, Timeline, WindowAfter, TotalsOk, CurrentOk, MissedStart, MotionOk, Remaining,
        ValidGeometry, ScheduleOk;
      RemainingPositive(g, Now());
    }

    lemma AllDone()
      requires Valid() && isDone
      ensures ScheduleOk() && ValidGeometry(g) && Timeline(g, served)
      ensures initial > 0 ==> |requestQueue| == initial + |lateRequests|
      ensures forall k :: initial <= k < |requestQueue| && k - initial < |lateRequests| ==>
        requestQueue[k].block == lateRequests[k - initial]
      ensures |served| == |requestQueue| && forall i :: 0 <= i < |requestQueue| ==> Serves(served, i)
      ensures Phases(seekTotal, rotTotal, xferTotal) == Totals(served)
      ensures seekTotal + rotTotal + xferTotal == timer == TotalTicks(served)
      ensures timer == TotalEst(served) + (if served != [] && MissedStart(g, 0, served[0].block) then 360 else 0)
      ensures policy == FIFO ==> forall j :: 0 <= j < |served| ==> served[j].index == j
      ensures policy == BSATF && window > 0 ==>
        forall i :: 0 <= i < |requestQueue| && WindowAt(window, i) <= |served| ==>
        WindowAt(window, i) > 0 && Serves(served[..WindowAt(window, i)], i)
    {
      hide LayoutOk, Timeline, TotalTicks, TotalEst, MissedStart, WindowAt, Serves, Distinct, WithinWindows,
        StatesMatch;
      TicksAreEstimates(g, served);
      TotalsAddUp(served);
      forall i | 0 <= i < |requestQueue| ensures Serves(served, i) { EveryoneServed(served, |requestQueue|, i); }
      if policy == BSATF && window > 0 {
        forall i | 0 <= i < |requestQueue| && WindowAt(window, i) <= |served|
          ensures WindowAt(window, i) > 0 && Serves(served[..WindowAt(window, i)], i)
        {
          BoundedBypass(window, served, i);
        }
      }
    }
  }

  /** What is kept of a view of the queue. */
  lemma KeptInView(g: Geometry, states: seq<State>, track: int, near: int, view: seq<Request>)
    requires ValidGeometry(g) && Numbered(view)
    ensures var r := KeepNear(g, states, track, near, view);
      && Increasing(r)
      && (forall k :: 0 <= k < |r| ==>
            && 0 <= r[k].index < |view| && view[r[k].index] == r[k] && r[k].index < |states|
            && states[r[k].index] != Done && Distance(track, TrackOf(g, r[k].block)) == near)
      && (forall i :: 0 <= i < |view| && IsNear(g, states, track, near, view[i]) ==> view[i] in r)
  {
    hide KeepNear, ValidGeometry, TrackOf;
    KeptAre(g, states, track, near, view);
    var r := KeepNear(g, states, track, near, view);
    forall k | 0 <= k < |r| ensures 0 <= r[k].index < |view| && view[r[k].index] == r[k]
      && IsNear(g, states, track, near, r[k]) {
      assert r[k] in r;
      var i :| 0 <= i < |view| && view[i] == r[k];
    }
  }

  /** The first of least estimate among the nearest is the best of the view. */
  lemma NearestIsBest(x: Setup, track: int, angle: int, states: seq<State>, prior: seq<Service>, near: int,
                      view: seq<Request>, at: int)
    requires SetupOk(x) && x.policy == SSTF && Numbered(view) && |view| <= |states|
    requires forall i :: 0 <= i < |view| ==> (states[i] != Done <==> !Serves(prior, i))
    requires forall i :: 0 <= i < |view| && states[i] != Done ==> near <= Distance(track, TrackOf(x.g, view[i].block))
    requires var r := KeepNear(x.g, states, track, near, view);
      && 0 <= at < |r|
      && (forall k :: 0 <= k < |r| ==> Est(x.g, angle, track, r[at].block) <= Est(x.g, angle, track, r[k].block))
      && (forall k :: 0 <= k < at ==> Est(x.g, angle, track, r[at].block) < Est(x.g, angle, track, r[k].block))
    ensures Best(x, track, angle, view, prior, KeepNear(x.g, states, track, near, view)[at].index)
  {
    hide KeepNear, TrackOf, Est, Serves;
    KeptInView(x.g, states, track, near, view);
    var r := KeepNear(x.g, states, track, near, view);
    var index := r[at].index;
    forall i | 0 <= i < |view| && !Serves(prior, i) ensures Better(x, track, angle, view[index], view[i]) {
      if Distance(track, TrackOf(x.g, view[i].block)) == near {
        assert IsNear(x.g, states, track, near, view[i]);
        var k :| 0 <= k < |r| && r[k] == view[i];
      }
    }
  }

  lemma NothingMissed(x: Setup)
    requires SetupOk(x)
    ensures !StartsMissed(x, [])
  {
  }

  lemma ViewFits(x: Setup, j: nat)
    requires x.window != 0
    ensures ViewEnd(x, j) <= QueueAt(x, j)
  {
  }

  /** The undone requests at a distance from a track, in their order. */
  ghost function KeepNear(g: Geometry, states: seq<State>, track: int, near: int, q: seq<Request>): seq<Request>
    requires ValidGeometry(g)
  {
    if q == [] then []
    else
      var last := |q| - 1;
      KeepNear(g, states, track, near, q[..last])
      + if IsNear(g, states, track, near, q[last]) then [q[last]] else []
  }

  ghost predicate IsNear(g: Geometry, states: seq<State>, track: int, near: int, r: Request)
    requires ValidGeometry(g)
  {
    0 <= r.index < |states| && states[r.index] != Done && Distance(track, TrackOf(g, r.block)) == near
  }

  lemma {:induction false} KeepNothing(g: Geometry, states: seq<State>, track: int, near: int, q: seq<Request>)
    requires ValidGeometry(g) && forall k :: 0 <= k < |q| ==> !IsNear(g, states, track, near, q[k])
    ensures KeepNear(g, states, track, near, q) == []
  {
    if q != [] { KeepNothing(g, states, track, near, q[..|q| - 1]); }
  }

  lemma KeepStep(g: Geometry, states: seq<State>, track: int, near: int, q: seq<Request>, k: int)
    requires ValidGeometry(g) && 0 <= k < |q|
    ensures KeepNear(g, states, track, near, q[..k + 1])
         == KeepNear(g, states, track, near, q[..k]) + if IsNear(g, states, track, near, q[k]) then [q[k]] else []
  {
    hide IsNear, ValidGeometry;
    assert q[..k + 1][..k] == q[..k];
  }

  lemma {:induction false} KeptMembers(g: Geometry, states: seq<State>, track: int, near: int, q: seq<Request>)
    requires ValidGeometry(g)
    ensures forall r :: r in KeepNear(g, states, track, near, q) <==> r in q && IsNear(g, states, track, near, r)
  {
    hide IsNear, ValidGeometry;
    if q != [] {
      KeptMembers(g, states, track, near, q[..|q| - 1]);
      assert q == q[..|q| - 1] + [q[|q| - 1]];
    }
  }

  ghost predicate Increasing(q: seq<Request>) {
    forall i, j :: 0 <= i < j < |q| ==> q[i].index < q[j].index
  }

  /** Of a list in the order of its numbers, just the requests at that distance, in order. */
  lemma {:induction false} KeptAre(g: Geometry, states: seq<State>, track: int, near: int, q: seq<Request>)
    requires ValidGeometry(g) && Increasing(q)
    ensures Increasing(KeepNear(g, states, track, near, q))
    ensures forall r :: r in KeepNear(g, states, track, near, q) <==> r in q && IsNear(g, states, track, near, r)
  {
    hide IsNear, ValidGeometry;
    KeptMembers(g, states, track, near, q);
    if q != [] {
      var last := |q| - 1;
      var rest := q[..last];
      KeptAre(g, states, track, near, rest);
      var r0 := KeepNear(g, states, track, near, rest);
      forall k | 0 <= k < |r0| ensures r0[k].index < q[last].index {
        assert r0[k] in r0;
        var x :| 0 <= x < last && rest[x] == r0[k];
      }
    }
  }

  /** As many distinct services as requests: everyone was served. */
  lemma EveryoneServed(served: seq<Service>, n: nat, i: int)
    requires Distinct(served) && |served| == n && 0 <= i < n
    requires forall j :: 0 <= j < |served| ==> 0 <= served[j].index < n
    ensures Serves(served, i)
  {
    IndicesCount(served);
    SubsetCount(Indices(served), Below(n));
    assert i in Below(n);
  }

  lemma NotOwnFollower(g: Geometry, b: int)
    requires ValidGeometry(g) && IsBlock(g, b)
    ensures !Follows(g, b, b)
  {
    TrackInRange(g, b);
    FirstOnNext(g, TrackOf(g, b));
  }

  lemma EstIsPositive(g: Geometry, angle: int, fromTrack: int, b: int)
    requires ValidGeometry(g)
    ensures Est(g, angle, fromTrack, b) >= 0
  {
    TrackInRange(g, b);
    SeekIs(g, fromTrack, b);
  }

  lemma WindowAtZero(w: int)
    requires w > 0
    ensures WindowAt(w, 0) == w
  {
    Quotient(0, w, 0, 0);
  }

  lemma FirstOnZero(g: Geometry)
    requires ValidGeometry(g)
    ensures FirstOn(g, 0) == 0
  {
  }

  lemma FirstOnNext(g: Geometry, t: int)
    requires ValidGeometry(g) && 0 <= t < 3
    ensures FirstOn(g, t + 1) == FirstOn(g, t) + BlocksOn(g, t) && BlocksOn(g, t) >= 2 && FirstOn(g, t) >= 0
  {
    BlocksFill(g, 0);
    BlocksFill(g, 1);
    BlocksFill(g, t);
    assert FirstOn(g, 0) == 0 && FirstOn(g, 1) == BlocksOn(g, 0);
  }

  lemma UnturnedIs(g: Geometry, t: int, b: int)
    requires ValidGeometry(g) && 0 <= t < 3
    ensures Unturned(g, t, b) == 2 * g.half[t] * (b - FirstOn(g, t)) + 2 * g.half[t] * (t * g.skew)
  {
  }

  lemma TurnedIs(g: Geometry, b: int)
    requires ValidGeometry(g)
    ensures AngleOf(g, b) == (Unturned(g, TrackOf(g, b), b) + 180) % 360
  {
  }

  /** A block's angle before the platter is turned so that the head is at 0. */
  function Unturned(g: Geometry, t: int, b: int): int
    requires 3 <= |g.half| && (forall u :: 0 <= u < 3 ==> g.half[u] > 0) && 0 <= t < 3
  {
    2 * g.half[t] * (b - FirstOn(g, t)) + 2 * g.half[t] * (t * g.skew)
  }

  lemma NextAngle(w: int, k: int, n: int)
    requires w > 0 && n * w == 360 && 0 <= k && w * k < 360
    ensures w * (k + 1) == w * k + w && k < n
  {
    assert k >= n ==> w * k >= w * n;
  }

  lemma LastAngle(w: int, k: int, n: int)
    requires w > 0 && n * w == 360 && k <= n && w * k >= 360
    ensures k == n
  {
    assert k <= n - 1 ==> w * k <= w * (n - 1);
    assert w * (n - 1) == w * n - w;
  }
}
