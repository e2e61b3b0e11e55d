/**
 The platter of the disk simulator: three tracks of blocks, their angles, and how
 long a request takes, as the scheduler estimates it. Angles are degrees, times
 are ticks; the platter turns one degree a tick.
 */
module DiskGeometry {

  /** Half the width of a block on each track, the skew in blocks, and how far the
      arm moves in a tick. */
  datatype Geometry = Geometry(half: seq<int>, skew: int, speed: int)

  /** Blocks divide the track evenly, at least two to a track; the arm's speed
      divides the distance of 40 between tracks. */
  ghost predicate ValidGeometry(g: Geometry) {
    && |g.half| == 3
    && (forall t :: 0 <= t < 3 ==> 0 < g.half[t] && 2 * g.half[t] < 360 && 360 % (2 * g.half[t]) == 0)
    && g.speed > 0 && 40 % g.speed == 0
  }

  function BlocksOn(g: Geometry, t: int): int
    requires 0 <= t < |g.half| && g.half[t] > 0
  {
    360 / (2 * g.half[t])
  }

  lemma BlocksFill(g: Geometry, t: int)
    requires ValidGeometry(g) && 0 <= t < 3
    ensures BlocksOn(g, t) * (2 * g.half[t]) == 360 && 2 <= BlocksOn(g, t)
  {
    var w := 2 * g.half[t];
    var n := 360 / w;
    assert 360 == w * n + 360 % w;
    assert n <= 1 ==> w * n <= w;
  }

  /** The first block of each track; of track 3, the number of blocks. */
  function FirstOn(g: Geometry, t: int): int
    requires 0 <= t <= 3 <= |g.half| && forall u :: 0 <= u < 3 ==> g.half[u] > 0
  {
    if t == 0 then 0 else FirstOn(g, t - 1) + BlocksOn(g, t - 1)
  }

  ghost predicate OnTrack(g: Geometry, t: int, b: int)
    requires ValidGeometry(g)
  {
    0 <= t < 3 && FirstOn(g, t) <= b < FirstOn(g, t + 1)
  }

  ghost predicate IsBlock(g: Geometry, b: int)
    requires ValidGeometry(g)
  {
    0 <= b < FirstOn(g, 3)
  }

  function TrackOf(g: Geometry, b: int): int
    requires 3 <= |g.half| && forall u :: 0 <= u < 3 ==> g.half[u] > 0
  {
    if b < FirstOn(g, 1) then 0 else if b < FirstOn(g, 2) then 1 else 2
  }

  /** The angle under which block `b` lies, seen from where the head starts. */
  function AngleOf(g: Geometry, b: int): int
    requires 3 <= |g.half| && forall u :: 0 <= u < 3 ==> g.half[u] > 0
  {
    var t := TrackOf(g, b);
    var w := 2 * g.half[t];
    (w * (b - FirstOn(g, t)) + w * (t * g.skew) + 180) % 360
  }

  lemma TrackIs(g: Geometry, t: int, b: int)
    requires ValidGeometry(g) && OnTrack(g, t, b)
    ensures TrackOf(g, b) == t && IsBlock(g, b)
  {
    BlocksFill(g, 0);
    BlocksFill(g, 1);
    BlocksFill(g, 2);
    assert FirstOn(g, 0) == 0 && FirstOn(g, 1) == BlocksOn(g, 0);
    assert FirstOn(g, 2) == FirstOn(g, 1) + BlocksOn(g, 1) && FirstOn(g, 3) == FirstOn(g, 2) + BlocksOn(g, 2);
  }

  lemma TrackOfBlock(g: Geometry, b: int)
    requires ValidGeometry(g) && IsBlock(g, b)
    ensures OnTrack(g, TrackOf(g, b), b)
  {
    assert FirstOn(g, 0) == 0 && FirstOn(g, 1) == BlocksOn(g, 0);
    assert FirstOn(g, 2) == FirstOn(g, 1) + BlocksOn(g, 1) && FirstOn(g, 3) == FirstOn(g, 2) + BlocksOn(g, 2);
  }

  /** The angles at which the head enters and leaves block `b`. */
  function Enter(g: Geometry, b: int): int
    requires 3 <= |g.half| && forall u :: 0 <= u < 3 ==> g.half[u] > 0
  {
    (AngleOf(g, b) - g.half[TrackOf(g, b)]) % 360
  }

  function Leave(g: Geometry, b: int): int
    requires 3 <= |g.half| && forall u :: 0 <= u < 3 ==> g.half[u] > 0
  {
    (AngleOf(g, b) + g.half[TrackOf(g, b)]) % 360
  }

  /** Block `c` follows block `b` on its track, the last one being followed by the first. */
  ghost predicate Follows(g: Geometry, b: int, c: int)
    requires ValidGeometry(g)
  {
    var t := TrackOf(g, b);
    TrackOf(g, c) == t && (c == b + 1 || (b == FirstOn(g, t + 1) - 1 && c == FirstOn(g, t)))
  }

  /** Multiples of the width that agree on the circle. */
  lemma SameMultiple(w: int, n: int, i: int, j: int)
    requires w > 0 && n * w == 360 && -n < i - j < n && (w * i - w * j) % 360 == 0
    ensures i == j
  {
    var d := i - j;
    assert w * i - w * j == w * d;
    var q := (w * d) / 360;
    assert w * d == 360 * q;
    assert w * d == (n * w) * q;
    assert w * (d - n * q) == 0 by { assert (n * w) * q == w * (n * q); }
    assert d == n * q;
    assert q >= 1 ==> n * q >= n;
    assert q <= -1 ==> n * q <= -n;
  }

  lemma ModAdd(x: int, y: int)
    ensures (x % 360 + y) % 360 == (x + y) % 360
  {
    assert x % 360 + y == (x + y) - 360 * (x / 360);
    ModShift(x + y, -(x / 360));
  }

  lemma ModShift(x: int, k: int)
    ensures (x + 360 * k) % 360 == x % 360
  {
  }

  lemma ModEqual(x: int, y: int)
    ensures x % 360 == y % 360 <==> (x - y) % 360 == 0
  {
    if x % 360 == y % 360 {
      assert x - y == 360 * (x / 360 - y / 360);
    }
    if (x - y) % 360 == 0 {
      assert x == y + 360 * ((x - y) / 360);
      ModShift(y, (x - y) / 360);
    }
  }

  /** On one track, a block is entered where another is left exactly when it
      follows it: the platter has no gaps and no two blocks share an angle. */
  lemma EnterIsLeave(g: Geometry, b: int, c: int)
    requires ValidGeometry(g) && IsBlock(g, b) && IsBlock(g, c) && TrackOf(g, b) == TrackOf(g, c)
    ensures Enter(g, c) == Leave(g, b) <==> Follows(g, b, c)
  {
    hide BlocksOn;
    TrackOfBlock(g, b);
    TrackOfBlock(g, c);
    var t := TrackOf(g, b);
    BlocksFill(g, t);
    var w, n := 2 * g.half[t], BlocksOn(g, t);
    var i, j := b - FirstOn(g, t), c - FirstOn(g, t);
    assert FirstOn(g, t + 1) == FirstOn(g, t) + n;
    EnterLeaveAt(w * i, w * j, w * (t * g.skew) + 180, w, g.half[t]);
    Neighbours(w, n, i, j);
  }

  lemma EnterLeaveAt(wi: int, wj: int, base: int, w: int, half: int)
    requires w == 2 * half
    ensures ((wj + base) % 360 - half) % 360 == ((wi + base) % 360 + half) % 360 <==> (wj - (wi + w)) % 360 == 0
  {
    ModAdd(wj + base, -half);
    ModAdd(wi + base, half);
    ModEqual(wj + base - half, wi + base + half);
  }

  lemma Neighbours(w: int, n: int, i: int, j: int)
    requires w > 0 && n * w == 360 && n >= 2 && 0 <= i < n && 0 <= j < n
    ensures (w * j - (w * i + w)) % 360 == 0 <==> j == i + 1 || (i == n - 1 && j == 0)
  {
    assert w * (i + 1) == w * i + w;
    if (w * j - (w * i + w)) % 360 == 0 && j - (i + 1) > -n {
      SameMultiple(w, n, j, i + 1);
    }
    assert i == n - 1 && j == 0 ==> w * j - (w * i + w) == -360;
  }

  // ----- where the blocks lie

  /** The tracks are laid out one after the other. Track 0 starts half a turn from the head,
      each further track by the skew further on, in its own blocks; along a track each block
      lies its width behind the one before, the last one the same before the first. */
  lemma TrackLaid(g: Geometry, t: int)
    requires ValidGeometry(g) && 0 <= t < 3
    ensures FirstOn(g, 0) == 0 && (FirstOn(g, t + 1) - FirstOn(g, t)) * (2 * g.half[t]) == 360
    ensures TrackOf(g, FirstOn(g, t)) == t
    ensures AngleOf(g, FirstOn(g, t)) == (180 + t * g.skew * (2 * g.half[t])) % 360
    ensures forall b :: FirstOn(g, t) <= b && b + 1 < FirstOn(g, t + 1) ==> NextBehind(g, t, b)
    ensures OneWidthOn(g, t, FirstOn(g, t + 1) - 1, FirstOn(g, t))
  {
    hide TrackOf, AngleOf, FirstOn, BlocksOn, OneWidthOn;
    BlocksFill(g, t);
    FirstOfNext(g, t);
    InOrder(g, t);
    FirstAngle(g, t);
    forall b | FirstOn(g, t) <= b && b + 1 < FirstOn(g, t + 1) ensures NextBehind(g, t, b) { NextOn(g, t, b); }
    FirstBehindLast(g, t);
  }

  lemma FirstAngle(g: Geometry, t: int)
    requires ValidGeometry(g) && 0 <= t < 3
    ensures AngleOf(g, FirstOn(g, t)) == (180 + t * g.skew * (2 * g.half[t])) % 360
  {
    hide TrackOf, AngleOf, FirstOn;
    InOrder(g, t);
    AngleOn(g, t, FirstOn(g, t));
    var w := 2 * g.half[t];
    assert w * 0 == 0 && t * g.skew * w == w * (t * g.skew);
  }

  lemma NextOn(g: Geometry, t: int, b: int)
    requires ValidGeometry(g) && OnTrack(g, t, b) && OnTrack(g, t, b + 1)
    ensures OneWidthOn(g, t, b, b + 1)
  {
    hide TrackOf, AngleOf, FirstOn;
    TrackIs(g, t, b);
    TrackIs(g, t, b + 1);
    AngleOn(g, t, b);
    AngleOn(g, t, b + 1);
    var w, base := 2 * g.half[t], 2 * g.half[t] * (t * g.skew) + 180;
    WidthStep(w, b - FirstOn(g, t), base);
    assert AngleOf(g, b) == (w * (b - FirstOn(g, t)) + base) % 360;
    assert AngleOf(g, b + 1) == (w * (b - FirstOn(g, t) + 1) + base) % 360;
  }

  lemma WidthStep(w: int, i: int, base: int)
    requires 0 < w < 360
    ensures ((w * (i + 1) + base) % 360 - (w * i + base) % 360) % 360 == w
  {
    assert w * (i + 1) == w * i + w;
    AngleStep(w * i + base, w);
  }

  lemma FirstBehindLast(g: Geometry, t: int)
    requires ValidGeometry(g) && 0 <= t < 3
    ensures OneWidthOn(g, t, FirstOn(g, t + 1) - 1, FirstOn(g, t))
  {
    hide TrackOf, AngleOf, FirstOn, BlocksOn;
    BlocksFill(g, t);
    FirstOfNext(g, t);
    InOrder(g, t);
    var w, n := 2 * g.half[t], BlocksOn(g, t);
    AngleOn(g, t, FirstOn(g, t));
    AngleOn(g, t, FirstOn(g, t) + n - 1);
    assert w * (n - 1) == n * w - w && w * 0 == 0;
    LastStep(w * (t * g.skew) + 180, w);
  }

  lemma FirstOfNext(g: Geometry, t: int)
    requires ValidGeometry(g) && 0 <= t < 3
    ensures FirstOn(g, 0) == 0 && FirstOn(g, t + 1) == FirstOn(g, t) + BlocksOn(g, t)
  {
  }

  lemma InOrder(g: Geometry, t: int)
    requires ValidGeometry(g) && 0 <= t < 3
    ensures TrackOf(g, FirstOn(g, t)) == t && TrackOf(g, FirstOn(g, t + 1) - 1) == t
  {
    hide TrackOf, BlocksOn;
    BlocksFill(g, t);
    FirstOfNext(g, t);
    TrackIs(g, t, FirstOn(g, t));
    TrackIs(g, t, FirstOn(g, t + 1) - 1);
  }

  lemma LastStep(base: int, w: int)
    ensures (base % 360 - (360 - w + base) % 360) % 360 == w % 360
  {
    AngleStep(base - w, w);
    ModShift(base - w, 1);
  }

  lemma AngleStep(x: int, w: int)
    ensures ((x + w) % 360 - x % 360) % 360 == w % 360
  {
    ModAdd(-(x % 360), x + w);
    assert x + w - x % 360 == w + 360 * (x / 360);
    ModShift(w, x / 360);
    assert (x + w) % 360 - x % 360 == (x + w - x % 360) - 360 * ((x + w) / 360);
    ModShift(x + w - x % 360, -((x + w) / 360));
  }

  lemma AngleOn(g: Geometry, t: int, b: int)
    requires ValidGeometry(g) && 0 <= t < 3 && TrackOf(g, b) == t
    ensures var w := 2 * g.half[t]; AngleOf(g, b) == (w * (b - FirstOn(g, t)) + w * (t * g.skew) + 180) % 360
  {
    hide TrackOf;
  }

  /** Block c lies one width of a block behind block b, both on track t. */
  ghost predicate OneWidthOn(g: Geometry, t: int, b: int, c: int)
    requires ValidGeometry(g) && 0 <= t < 3
  {
    TrackOf(g, b) == t == TrackOf(g, c) && (AngleOf(g, c) - AngleOf(g, b)) % 360 == 2 * g.half[t]
  }

  ghost predicate NextBehind(g: Geometry, t: int, b: int)
    requires ValidGeometry(g) && 0 <= t < 3
  {
    OneWidthOn(g, t, b, b + 1)
  }

  /** The head enters a block half its width before its middle and leaves it half after. */
  lemma EnteredBefore(g: Geometry, b: int)
    requires ValidGeometry(g) && IsBlock(g, b)
    ensures var half := g.half[TrackOf(g, b)];
      (AngleOf(g, b) - Enter(g, b)) % 360 == half && (Leave(g, b) - AngleOf(g, b)) % 360 == half
  {
    hide AngleOf, TrackOf;
    TrackOfBlock(g, b);
    var a, half := AngleOf(g, b), g.half[TrackOf(g, b)];
    AngleStep(a - half, half);
    AngleStep(a, half);
    AngleIsAngle(g, b);
  }

  lemma AngleIsAngle(g: Geometry, b: int)
    requires ValidGeometry(g)
    ensures AngleOf(g, b) == AngleOf(g, b) % 360
  {
  }
}
