/**
 The motion of the arm and the platter while one request is served, as a value.
 At every tick the clock and what is left of each phase add up to the closed-form
 times of DiskPlan.
 */
module DiskMotion {
  import opened DiskGeometry
  import opened DiskPlan

  datatype State = Null | Seek | Rotate | Xfer | Done

  /** Where the arm's left edge is when it is on a track. */
  function ArmX(track: int): int {
    90 + 40 * track
  }

  /** `ticksLeft` of seek remain; `extra` is the turn that a block missed at the
      start costs. */
  datatype Motion = Motion(
    state: State, block: int, startTrack: int, startAngle: int, extra: int,
    armTrack: int, armTarget: int, armX1: int, armTargetX1: int, armSpeed: int, ticksLeft: int,
    angle: int, timer: int, seekBegin: int, rotBegin: int, xferBegin: int)

  ghost predicate Aboard(g: Geometry, m: Motion)
    requires ValidGeometry(g)
  {
    0 <= m.angle < 360 && m.armTrack == TrackOf(g, m.block) && m.armX1 == ArmX(m.armTrack)
  }

  ghost function RotTime(g: Geometry, m: Motion): int
    requires ValidGeometry(g)
  {
    RotEst(g, m.startAngle, m.startTrack, m.block) + m.extra
  }

  /** Between two ticks. */
  ghost predicate MotionOk(g: Geometry, m: Motion)
    requires ValidGeometry(g)
  {
    match m.state
    case Seek =>
      && 0 <= m.angle < 360 && m.armTarget == TrackOf(g, m.block) && m.extra == 0
      && m.armTargetX1 == ArmX(m.armTarget) && m.ticksLeft >= 1
      && (m.armSpeed == g.speed || m.armSpeed == -g.speed)
      && m.armTargetX1 == m.armX1 + m.armSpeed * m.ticksLeft
      && m.timer - m.seekBegin + m.ticksLeft == SeekEst(g, m.startTrack, m.block)
      && m.angle == (m.startAngle + m.timer - m.seekBegin) % 360
    case Rotate =>
      && Aboard(g, m) && m.rotBegin - m.seekBegin == SeekEst(g, m.startTrack, m.block)
      && m.timer - m.rotBegin + (Enter(g, m.block) - m.angle - 1) % 360 + 1 == RotTime(g, m)
    case Xfer =>
      && Aboard(g, m) && m.rotBegin - m.seekBegin == SeekEst(g, m.startTrack, m.block)
      && m.xferBegin - m.rotBegin == RotTime(g, m)
      && m.timer - m.xferBegin + (Leave(g, m.block) - m.angle - 1) % 360 + 1 == XferEst(g, m.block)
    case _ => false
  }

  /** Within a tick, before the rotation is tested. */
  ghost predicate RotateCheck(g: Geometry, m: Motion)
    requires ValidGeometry(g)
  {
    && m.state == Rotate && Aboard(g, m) && m.rotBegin - m.seekBegin == SeekEst(g, m.startTrack, m.block)
    && m.timer - m.rotBegin + (Enter(g, m.block) - m.angle) % 360 == RotTime(g, m)
  }

  /** Within a tick, before the transfer is tested. */
  ghost predicate XferCheck(g: Geometry, m: Motion)
    requires ValidGeometry(g)
  {
    && m.state == Xfer && Aboard(g, m) && m.rotBegin - m.seekBegin == SeekEst(g, m.startTrack, m.block)
    && m.xferBegin - m.rotBegin == RotTime(g, m)
    && m.timer - m.xferBegin + (Leave(g, m.block) - m.angle) % 360 == XferEst(g, m.block)
  }

  /** Ticks from the start of the request to its end. */
  ghost function TotalTime(g: Geometry, m: Motion): int
    requires ValidGeometry(g)
  {
    SeekEst(g, m.startTrack, m.block) + RotTime(g, m) + XferEst(g, m.block)
  }

  /** Ticks until the request is complete: what has passed and this make up TotalTime. */
  ghost function Remaining(g: Geometry, m: Motion): int
    requires ValidGeometry(g)
  {
    m.seekBegin + TotalTime(g, m) - m.timer
  }

  /** The same request, some ticks later. */
  ghost predicate SameService(m: Motion, m': Motion) {
    && m'.startTrack == m.startTrack && m'.startAngle == m.startAngle && m'.extra == m.extra
    && m'.block == m.block && m'.seekBegin == m.seekBegin
  }

  lemma RemainingAfter(g: Geometry, m: Motion, m': Motion)
    requires ValidGeometry(g) && SameService(m, m')
    ensures Remaining(g, m') == Remaining(g, m) - (m'.timer - m.timer)
  {
    hide SeekEst, RotEst, XferEst;
  }

  function Tick(m: Motion): Motion {
    m.(timer := m.timer + 1, angle := if m.angle + 1 >= 360 then 0 else m.angle + 1)
  }

  // ----- basic facts

  lemma TrackInRange(g: Geometry, b: int)
    requires ValidGeometry(g)
    ensures 0 <= TrackOf(g, b) < 3
  {
  }

  lemma EnterInRange(g: Geometry, b: int)
    requires ValidGeometry(g)
    ensures 0 <= Enter(g, b) < 360 && 0 <= Leave(g, b) < 360
  {
  }

  lemma SeekIs(g: Geometry, fromTrack: int, b: int)
    requires ValidGeometry(g)
    ensures SeekEst(g, fromTrack, b) == (40 / g.speed) * Distance(fromTrack, TrackOf(g, b))
    ensures SeekEst(g, fromTrack, b) >= 0 && (fromTrack == TrackOf(g, b) ==> SeekEst(g, fromTrack, b) == 0)
  {
    MulNonNegative(40 / g.speed, Distance(fromTrack, TrackOf(g, b)));
  }

  lemma MulNonNegative(a: int, b: int)
    requires a >= 0 && b >= 0
    ensures a * b >= 0 && (a > 0 && b > 0 ==> a * b > 0) && (b == 0 ==> a * b == 0)
  {
  }

  lemma RotEstIs(g: Geometry, angle: int, track: int, b: int)
    requires ValidGeometry(g)
    ensures RotEst(g, angle, track, b) == (Enter(g, b) - (angle + SeekEst(g, track, b))) % 360
  {
  }

  lemma AngleInRange(g: Geometry, b: int)
    requires ValidGeometry(g)
    ensures 0 <= AngleOf(g, b) < 360
  {
  }

  /** The platter turns by the width of a block while the block is transferred. */
  lemma LeaveAfterEnter(g: Geometry, b: int)
    requires ValidGeometry(g)
    ensures (Leave(g, b) - Enter(g, b)) % 360 == XferEst(g, b) && 0 < XferEst(g, b) < 360
  {
    TrackInRange(g, b);
    AngleInRange(g, b);
    hide AngleOf, TrackOf;
    HalfTurn(AngleOf(g, b), g.half[TrackOf(g, b)]);
  }

  lemma HalfTurn(a: int, half: int)
    requires 0 <= a < 360 && 0 < 2 * half < 360
    ensures ((a + half) % 360 - (a - half) % 360) % 360 == 2 * half
  {
  }

  lemma SeekDistance(g: Geometry, a: int, b: int)
    requires ValidGeometry(g)
    ensures Distance(ArmX(a), ArmX(b)) == (40 / g.speed) * Distance(a, b) * g.speed
    ensures a != b ==> (40 / g.speed) * Distance(a, b) > 0
  {
    var q, d := 40 / g.speed, Distance(a, b);
    assert 40 == g.speed * q + 40 % g.speed;
    assert q > 0;
    assert q * d * g.speed == (g.speed * q) * d;
    MulNonNegative(q, d);
  }

  /** Moving `k` ticks at full speed covers the distance. */
  lemma SignedDistance(x: int, target: int, speed: int, k: int)
    requires speed > 0 && Distance(x, target) == k * speed
    ensures target == x + (if x <= target then speed else -speed) * k
  {
    assert (-speed) * k == -(k * speed);
  }

  // ----- starting on a request

  lemma StartsWithRotation(g: Geometry, m: Motion)
    requires ValidGeometry(g) && m.state == Rotate && Aboard(g, m)
    requires m.startTrack == m.armTrack && m.startAngle == m.angle && m.timer == m.seekBegin == m.rotBegin
    requires m.extra == if Enter(g, m.block) == m.angle then 360 else 0
    ensures MotionOk(g, m)
  {
    hide Enter, Leave, TrackOf, SeekEst, RotEst, XferEst;
    SeekIs(g, m.startTrack, m.block);
    RotEstIs(g, m.startAngle, m.startTrack, m.block);
    EnterInRange(g, m.block);
    RotateStart(Enter(g, m.block), m.angle);
  }

  lemma RotateStart(enter: int, angle: int)
    requires 0 <= enter < 360 && 0 <= angle < 360
    ensures (enter - angle - 1) % 360 + 1 == (enter - (angle + 0)) % 360 + (if enter == angle then 360 else 0)
  {
  }

  lemma StartsWithSeek(g: Geometry, m: Motion)
    requires ValidGeometry(g) && m.state == Seek && 0 <= m.angle < 360 && m.extra == 0
    requires m.startTrack == m.armTrack && m.startAngle == m.angle && m.timer == m.seekBegin
    requires m.armTrack != TrackOf(g, m.block) && m.armTarget == TrackOf(g, m.block)
    requires m.armX1 == ArmX(m.armTrack) && m.armTargetX1 == ArmX(m.armTarget)
    requires m.armSpeed == if m.armTarget >= m.armTrack then g.speed else -g.speed
    requires m.ticksLeft == SeekEst(g, m.startTrack, m.block)
    ensures MotionOk(g, m)
  {
    hide Enter, Leave, TrackOf, SeekEst, RotEst, XferEst;
    SeekIs(g, m.startTrack, m.block);
    SeekDistance(g, m.armTrack, m.armTarget);
    SignedDistance(m.armX1, m.armTargetX1, g.speed, m.ticksLeft);
  }

  /** When the next block follows the one just left, the simulator stays in transfer. */
  lemma StartsWithXfer(g: Geometry, m: Motion)
    requires ValidGeometry(g) && m.state == Xfer && Aboard(g, m) && m.extra == 0
    requires m.startTrack == m.armTrack && m.startAngle == m.angle
    requires m.timer == m.seekBegin == m.rotBegin == m.xferBegin && Enter(g, m.block) == m.angle
    ensures MotionOk(g, m)
  {
    hide Enter, Leave, TrackOf, SeekEst, RotEst, XferEst;
    SeekIs(g, m.startTrack, m.block);
    RotEstIs(g, m.startAngle, m.startTrack, m.block);
    LeaveAfterEnter(g, m.block);
    EnterInRange(g, m.block);
    RotateStart(Leave(g, m.block), m.angle);
  }

  // ----- one tick

  ghost predicate Arrived(m: Motion) {
    (m.armSpeed > 0 && m.armX1 >= m.armTargetX1) || (m.armSpeed < 0 && m.armX1 <= m.armTargetX1)
  }

  lemma SeekTick(g: Geometry, m: Motion)
    requires ValidGeometry(g) && MotionOk(g, m) && m.state == Seek
    ensures var m1 := Tick(m).(armX1 := m.armX1 + m.armSpeed, ticksLeft := m.ticksLeft - 1);
      if Arrived(m1) then RotateCheck(g, m1.(state := Rotate, armTrack := m.armTarget, rotBegin := m1.timer))
      else MotionOk(g, m1)
  {
    hide Enter, Leave, TrackOf, SeekEst, RotEst, XferEst;
    var m1 := Tick(m).(armX1 := m.armX1 + m.armSpeed, ticksLeft := m.ticksLeft - 1);
    ArrivedMeans(m.armSpeed, m.ticksLeft, m.armX1, m.armTargetX1);
    TurnOne(m.startAngle + m.timer - m.seekBegin, m.angle);
    RotEstIs(g, m.startAngle, m.startTrack, m.block);
    if Arrived(m1) {
      SameRotation(Enter(g, m.block), m.startAngle + SeekEst(g, m.startTrack, m.block), m1.angle);
    }
  }

  lemma ArrivedMeans(v: int, k: int, x: int, target: int)
    requires v != 0 && k >= 1 && target == x + v * k
    ensures target == x + v + v * (k - 1)
    ensures k == 1 ==> x + v == target
    ensures k > 1 ==> if v > 0 then x + v < target else x + v > target
  {
    assert v * k == v + v * (k - 1);
    if k > 1 {
      if v > 0 { MulNonNegative(v, k - 1); } else { MulNonNegative(-v, k - 1); assert (-v) * (k - 1)
        == -(v * (k - 1)); }
    }
  }

  lemma TurnOne(x: int, angle: int)
    requires angle == x % 360
    ensures (x + 1) % 360 == if angle + 1 >= 360 then 0 else angle + 1
  {
  }

  lemma SameRotation(enter: int, at: int, angle: int)
    requires angle == at % 360
    ensures (enter - angle) % 360 == (enter - at) % 360
  {
    ModEqual(enter - angle, enter - at);
    ModEqual(at, angle);
  }

  lemma RotateTick(g: Geometry, m: Motion)
    requires ValidGeometry(g) && MotionOk(g, m) && m.state == Rotate
    ensures RotateCheck(g, Tick(m))
  {
    hide Enter, Leave, TrackOf, SeekEst, RotEst, XferEst;
    TickAngle(Enter(g, m.block), m.angle);
  }

  lemma XferTick(g: Geometry, m: Motion)
    requires ValidGeometry(g) && MotionOk(g, m) && m.state == Xfer
    ensures XferCheck(g, Tick(m))
  {
    hide Enter, Leave, TrackOf, SeekEst, RotEst, XferEst;
    TickAngle(Leave(g, m.block), m.angle);
  }

  lemma TickAngle(x: int, angle: int)
    requires 0 <= angle < 360
    ensures (x - (if angle + 1 >= 360 then 0 else angle + 1)) % 360 == (x - angle - 1) % 360
  {
  }

  lemma RotateChecked(g: Geometry, m: Motion)
    requires ValidGeometry(g) && RotateCheck(g, m)
    ensures if Enter(g, m.block) == m.angle then XferCheck(g, m.(state := Xfer, xferBegin := m.timer))
      else MotionOk(g, m)
  {
    hide Enter, Leave, TrackOf, SeekEst, RotEst, XferEst;
    EnterInRange(g, m.block);
    LeaveAfterEnter(g, m.block);
    NotYet(Enter(g, m.block), m.angle);
  }

  lemma NotYet(x: int, angle: int)
    requires 0 <= angle < 360 && 0 <= x < 360
    ensures x != angle ==> (x - angle - 1) % 360 + 1 == (x - angle) % 360
    ensures x == angle ==> (x - angle) % 360 == 0
  {
  }

  lemma XferChecked(g: Geometry, m: Motion)
    requires ValidGeometry(g) && XferCheck(g, m)
    ensures if Leave(g, m.block) == m.angle then Remaining(g, m) == 0 && m.timer - m.xferBegin == XferEst(g, m.block)
      else MotionOk(g, m)
  {
    hide Enter, Leave, TrackOf, SeekEst, RotEst, XferEst;
    EnterInRange(g, m.block);
    NotYet(Leave(g, m.block), m.angle);
  }

  lemma RemainingPositive(g: Geometry, m: Motion)
    requires ValidGeometry(g) && MotionOk(g, m)
    ensures Remaining(g, m) >= 1
  {
    hide Enter, Leave, TrackOf, SeekEst;
    LeaveAfterEnter(g, m.block);
  }
}
