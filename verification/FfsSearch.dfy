/**
 The search for free blocks of the FFS simulator: which group each visit is to, which blocks
 it takes and which it passes over, and why it always ends.
 */
module FfsSearch {
  import opened Arithmetic
  import opened FfsBitmap

  // ----- the order in which groups are visited

  /** The group of the k-th visit. */
  function VisitGroup(target: int, k: int, n: int): int
    requires n > 0
  {
    (target + k) % n
  }

  /** The blocks of the visits, in order. */
  ghost function Flat(visits: seq<seq<Slot>>): seq<Slot> {
    if visits == [] then [] else Flat(visits[..|visits| - 1]) + visits[|visits| - 1]
  }

  /** The k-th visit is to the k-th group from `target` on, round and round; with a
      positive limit it takes at most that many blocks. */
  ghost predicate VisitsOk(visits: seq<seq<Slot>>, target: int, groups: int, limit: int)
    requires groups > 0
  {
    forall k :: 0 <= k < |visits| ==> VisitOk(visits, k, target, groups, limit)
  }

  ghost predicate VisitOk(visits: seq<seq<Slot>>, k: int, target: int, groups: int, limit: int)
    requires groups > 0 && 0 <= k < |visits|
  {
    && (limit > 0 ==> |visits[k]| <= limit)
    && forall j :: 0 <= j < |visits[k]| ==> visits[k][j].group == VisitGroup(target, k, groups)
  }

  lemma FlatAppend(visits: seq<seq<Slot>>, s: Slot)
    requires visits != []
    ensures var last := |visits| - 1;
      Flat(visits[last := visits[last] + [s]]) == Flat(visits) + [s]
  {
    var last := |visits| - 1;
    var v := visits[last := visits[last] + [s]];
    assert v[..last] == visits[..last];
    assert Flat(visits[..last]) + (visits[last] + [s]) == (Flat(visits[..last]) + visits[last]) + [s];
  }

  lemma FlatNext(visits: seq<seq<Slot>>)
    ensures Flat(visits + [[]]) == Flat(visits)
  {
    assert (visits + [[]])[..|visits|] == visits;
  }

  lemma NextGroup(target: int, k: int, n: int)
    requires n > 0
    ensures VisitGroup(target, k + 1, n) == (VisitGroup(target, k, n) + 1) % n
    ensures 0 <= VisitGroup(target, k + 1, n) < n
  {
    var x := target + k;
    var q := x / n;
    assert x == n * q + x % n;
    Quotient(x + 1, n, q + (if x % n + 1 == n then 1 else 0), if x % n + 1 == n then 0 else x % n + 1);
    Quotient(x % n + 1, n, if x % n + 1 == n then 1 else 0, if x % n + 1 == n then 0 else x % n + 1);
  }

  /** Among any n consecutive visits each group is visited. */
  lemma VisitOf(g: int, target: int, from: int, n: int) returns (k: int)
    requires n > 0 && 0 <= g < n
    ensures from <= k < from + n && (target + k) % n == g
  {
    var d := (g - target - from) % n;
    k := from + d;
    var q := (g - target - from) / n;
    assert g - target - from == n * q + d;
    assert target + k == n * (-q) + g by { assert n * (-q) == -(n * q); }
    Quotient(target + k, n, -q, g);
  }

  ghost predicate GroupFull(m: Bitmap, g: int) {
    0 <= g < |m| && forall i :: 0 <= i < |m[g]| ==> m[g][i] != FREE
  }

  /** The groups of the visits numbered `from` to `to` are full. */
  ghost predicate LeftFull(m: Bitmap, target: int, from: int, to: int, n: int)
    requires n > 0
  {
    forall k :: from <= k < to ==> GroupFull(m, VisitGroup(target, k, n))
  }

  lemma OneMoreFull(m: Bitmap, target: int, from: int, to: int, n: int)
    requires n > 0 && LeftFull(m, target, from, to, n) && GroupFull(m, VisitGroup(target, to, n))
    ensures LeftFull(m, target, from, to + 1, n)
  {
  }

  /** If the last n visits all left their groups full, nothing is free. */
  lemma NothingFree(m: Bitmap, target: int, from: int, n: int)
    requires n == |m| && n > 0 && LeftFull(m, target, from, from + n, n)
    ensures FreeIn(m) == 0
  {
    SomeRowHasFree(m);
    forall g | 0 <= g < n ensures FreeInRow(m[g]) == 0 {
      var k := VisitOf(g, target, from, n);
      assert VisitGroup(target, k, n) == g;
      RowHasFree(m[g]);
    }
  }

  ghost predicate UsedBelow(row: seq<int>, i: int) {
    forall j :: 0 <= j < i && j < |row| ==> row[j] != FREE
  }

  /** Where the search for free blocks stands after `count` - 1 whole visits: from the second
      round on it has left the last `since` groups full, and the present one up to index i. */
  ghost predicate Standing(m: Bitmap, target: int, count: int, since: int, i: int) {
    && |m| > 0 && 0 <= since < |m| && since < count && (count <= |m| ==> since == 0)
    && 0 <= VisitGroup(target, count - 1, |m|) < |m|
    && 0 <= i <= |m[VisitGroup(target, count - 1, |m|)]|
    && LeftFull(m, target, count - 1 - since, count - 1, |m|)
    && (count > |m| ==> UsedBelow(m[VisitGroup(target, count - 1, |m|)], i))
  }

  lemma StandsAtStart(m: Bitmap, target: int)
    requires 0 <= target < |m|
    ensures Standing(m, target, 1, 0, 0)
  {
    Quotient(target, |m|, 0, target);
  }

  /** A block is taken: the count of full groups starts anew. */
  lemma StandsAfterTaking(m: Bitmap, target: int, count: int, since: int, i: int, owner: int)
    requires Standing(m, target, count, since, i) && owner != FREE
    requires i < |m[VisitGroup(target, count - 1, |m|)]|
    ensures Standing(Put(m, Slot(VisitGroup(target, count - 1, |m|), i), owner), target, count, 0, i + 1)
  {
    hide VisitGroup;
    var g := VisitGroup(target, count - 1, |m|);
    var r := Put(m, Slot(g, i), owner);
    forall j | 0 <= j < i + 1 && count > |m| ensures r[g][j] != FREE {
      assert At(r, Slot(g, j)) == if j == i then owner else At(m, Slot(g, j));
    }
  }

  lemma StandsAfterPassing(m: Bitmap, target: int, count: int, since: int, i: int)
    requires Standing(m, target, count, since, i) && i < |m[VisitGroup(target, count - 1, |m|)]|
    requires count > |m| ==> m[VisitGroup(target, count - 1, |m|)][i] != FREE
    ensures Standing(m, target, count, since, i + 1)
  {
    hide VisitGroup, LeftFull;
  }

  /** The groups known to be full on going on to the next one. */
  ghost function FullBehind(m: Bitmap, target: int, count: int, since: int, i: int): int
    requires Standing(m, target, count, since, i)
  {
    if count > |m| && i == |m[VisitGroup(target, count - 1, |m|)]| then since + 1 else 0
  }

  lemma StandsInNext(m: Bitmap, target: int, count: int, since: int, i: int)
    requires Standing(m, target, count, since, i) && FreeIn(m) > 0
    ensures Standing(m, target, count + 1, FullBehind(m, target, count, since, i), 0)
  {
    hide VisitGroup, FreeIn;
    NextGroup(target, count - 1, |m|);
    if FullBehind(m, target, count, since, i) > 0 {
      OneMoreFull(m, target, count - 1 - since, count - 1, |m|);
      if since + 1 == |m| { NothingFree(m, target, count - |m|, |m|); }
    }
  }

  lemma FullBehindIs(m: Bitmap, target: int, count: int, since: int, i: int)
    requires Standing(m, target, count, since, i)
    ensures Standing(m, target, count + 1, FullBehind(m, target, count, since, i), 0) ==>
      0 <= FullBehind(m, target, count, since, i) < |m|
    ensures 0 <= VisitGroup(target, count - 1, |m|) < |m|
    ensures count > |m| && i == |m[VisitGroup(target, count - 1, |m|)]| ==>
      FullBehind(m, target, count, since, i) == since + 1
    ensures count < |m| ==> FullBehind(m, target, count, since, i) == 0
  {
    hide VisitGroup, LeftFull;
  }

  lemma StartVisits(target: int, groups: int)
    requires groups > 0 && 0 <= target < groups
    ensures Flat([[]]) == [] && target == VisitGroup(target, 0, groups)
  {
    Quotient(target, groups, 0, target);
  }

  /** A round is over exactly when the search is back at its first group. */
  lemma RoundBegins(target: int, k: int, n: int)
    requires n > 0 && 0 <= target < n
    ensures k == n ==> VisitGroup(target, k, n) == target
  {
    if k == n { Quotient(target + n, n, 1, target); }
  }

  // ----- which blocks are taken

  /** What a search starts from: the bitmap before it, the first group, the limit to a visit
      if it is positive, the chunk size of the first round and how many blocks are needed. */
  datatype Search = Search(m: Bitmap, target: int, limit: int, contig: int, size: int)

  /** From index i of group g on there are c free blocks, none of them taken by an earlier
      visit. */
  ghost predicate ChunkFree(m: Bitmap, prior: seq<Slot>, g: int, i: int, c: int) {
    && 0 <= g < |m| && 0 <= i && i + c <= |m[g]|
    && forall x :: i <= x < i + c ==> m[g][x] == FREE && Slot(g, x) !in prior
  }

  /** How many blocks have to be free at once in visit k, `taken` being taken: a whole chunk in
      the first round and one later, but never more than are still needed. */
  function Wanted(x: Search, k: int, taken: int): int {
    var c := if k < |x.m| then x.contig else 1;
    if x.size - taken < c then x.size - taken else c
  }

  /** Where the j-th gap of a visit begins: after the block taken before it. */
  function GapFrom(v: seq<Slot>, j: int): int
    requires 0 <= j <= |v|
  {
    if j == 0 then 0 else v[j - 1].index + 1
  }

  function GapTo(v: seq<Slot>, j: int, end: int): int
    requires 0 <= j <= |v|
  {
    if j < |v| then v[j].index else end
  }

  /** Visit k has looked at its group up to `end`: a block has been taken exactly where as many
      as wanted were free, and the blocks ascend. */
  ghost predicate VisitSoFar(x: Search, prior: seq<Slot>, k: int, v: seq<Slot>, end: int)
    requires |x.m| > 0
  {
    && (forall j :: 0 <= j < |v| ==> TakenAt(x, prior, k, v, end, j))
    && (forall j, i :: 0 <= j <= |v| && GapFrom(v, j) <= i < GapTo(v, j, end) ==> PassedAt(x, prior, k, j, i))
  }

  ghost predicate TakenAt(x: Search, prior: seq<Slot>, k: int, v: seq<Slot>, end: int, j: int)
    requires |x.m| > 0 && 0 <= j < |v|
  {
    && v[j].group == VisitGroup(x.target, k, |x.m|) && GapFrom(v, j) <= v[j].index < end
    && ChunkFree(x.m, prior, VisitGroup(x.target, k, |x.m|), v[j].index, Wanted(x, k, |prior| + j))
  }

  /** With j blocks taken in the visit, index i was passed over. */
  ghost predicate PassedAt(x: Search, prior: seq<Slot>, k: int, j: int, i: int)
    requires |x.m| > 0
  {
    !ChunkFree(x.m, prior, VisitGroup(x.target, k, |x.m|), i, Wanted(x, k, |prior| + j))
  }

  /** A visit ends where its last block completes the limit, or the whole search, and at the
      end of its group otherwise. */
  ghost predicate VisitDone(x: Search, prior: seq<Slot>, k: int, v: seq<Slot>, last: bool)
    requires |x.m| > 0
  {
    && 0 <= VisitGroup(x.target, k, |x.m|) < |x.m| && (x.limit > 0 ==> |v| <= x.limit)
    && VisitSoFar(x, prior, k, v, if last || |v| == x.limit > 0 then GapFrom(v, |v|)
                                  else |x.m[VisitGroup(x.target, k, |x.m|)]|)
    && (if last then |prior| + |v| == x.size else |prior| + |v| < x.size)
  }

  ghost predicate VisitAt(x: Search, visits: seq<seq<Slot>>, k: int, over: bool)
    requires |x.m| > 0 && 0 <= k < |visits|
  {
    VisitDone(x, Flat(visits[..k]), k, visits[k], over && k == |visits| - 1)
  }

  /** The visits of a search that is over. */
  ghost predicate Searched(x: Search, visits: seq<seq<Slot>>) {
    |x.m| > 0 && visits != [] && forall k :: 0 <= k < |visits| ==> VisitAt(x, visits, k, true)
  }

  /** The visits before the one in hand. */
  ghost predicate Searching(x: Search, visits: seq<seq<Slot>>)
    requires |x.m| > 0
  {
    forall k :: 0 <= k < |visits| ==> VisitAt(x, visits, k, false)
  }

  lemma SearchStarts(x: Search)
    requires |x.m| > 0
    ensures Searching(x, []) && VisitSoFar(x, [], 0, [], 0) && Flat([]) == []
  {
  }

  /** The bitmap as it is, seen from the one before the search. */
  lemma FreeNow(x: Search, now: Bitmap, prior: seq<Slot>, k: int, v: seq<Slot>, i: int, c: int, owner: int)
    requires |x.m| > 0 && Took(x.m, now, prior + v, owner) && owner != FREE && 0 <= i && c >= 0
    requires VisitSoFar(x, prior, k, v, i) && 0 <= VisitGroup(x.target, k, |x.m|) < |x.m|
    ensures var g := VisitGroup(x.target, k, |x.m|);
      ChunkFree(x.m, prior, g, i, c) <==> i + c <= |now[g]| && forall y :: i <= y < i + c ==> now[g][y] == FREE
  {
    hide VisitGroup, Wanted, ChunkFree, GapTo, PassedAt;
    var g := VisitGroup(x.target, k, |x.m|);
    forall y | i <= y < |now[g]| ensures now[g][y] == FREE <==> x.m[g][y] == FREE && Slot(g, y) !in prior {
      var s := Slot(g, y);
      assert InBitmap(x.m, s);
      TakenBelow(x, prior, k, v, i, s);
      assert At(now, s) == if s in prior + v then owner else At(x.m, s);
    }
    ChunkMeans(x.m, prior, g, i, c);
  }

  lemma TakenBelow(x: Search, prior: seq<Slot>, k: int, v: seq<Slot>, end: int, s: Slot)
    requires |x.m| > 0 && VisitSoFar(x, prior, k, v, end)
    ensures s in v ==> s.index < end
  {
    hide ChunkFree, Wanted, VisitGroup;
    if s in v {
      var j :| 0 <= j < |v| && v[j] == s;
      assert TakenAt(x, prior, k, v, end, j);
    }
  }

  lemma ChunkMeans(m: Bitmap, prior: seq<Slot>, g: int, i: int, c: int)
    requires 0 <= g < |m| && 0 <= i
    ensures ChunkFree(m, prior, g, i, c) <==>
      i + c <= |m[g]| && forall y :: i <= y < i + c ==> m[g][y] == FREE && Slot(g, y) !in prior
  {
  }

  lemma PassOne(x: Search, prior: seq<Slot>, k: int, v: seq<Slot>, i: int)
    requires |x.m| > 0 && VisitSoFar(x, prior, k, v, i) && 0 <= i
    requires PassedAt(x, prior, k, |v|, i)
    ensures VisitSoFar(x, prior, k, v, i + 1)
  {
    hide VisitGroup, Wanted, ChunkFree, PassedAt;
    var next := i + 1;
    forall j | 0 <= j < |v| ensures TakenAt(x, prior, k, v, next, j) { assert TakenAt(x, prior, k, v, i, j); }
  }

  lemma TakeOne(x: Search, prior: seq<Slot>, k: int, v: seq<Slot>, i: int, s: Slot)
    requires |x.m| > 0 && VisitSoFar(x, prior, k, v, i) && GapFrom(v, |v|) <= i
    requires s == Slot(VisitGroup(x.target, k, |x.m|), i)
    requires ChunkFree(x.m, prior, s.group, i, Wanted(x, k, |prior| + |v|))
    ensures VisitSoFar(x, prior, k, v + [s], i + 1) && GapFrom(v + [s], |v| + 1) == i + 1
  {
    hide VisitGroup, Wanted, ChunkFree, PassedAt;
    var w, next := v + [s], i + 1;
    forall j | 0 <= j < |w| ensures TakenAt(x, prior, k, w, next, j) {
      if j < |v| { assert TakenAt(x, prior, k, v, i, j); }
      assert GapFrom(w, j) == GapFrom(v, j);
    }
    forall j, y | 0 <= j <= |w| && GapFrom(w, j) <= y < GapTo(w, j, i + 1) ensures PassedAt(x, prior, k, j, y) {
      assert j <= |v| ==> GapFrom(w, j) == GapFrom(v, j) && GapTo(w, j, i + 1) == GapTo(v, j, i);
    }
  }

  lemma VisitEnds(x: Search, visits: seq<seq<Slot>>, i: int)
    requires |x.m| > 0 && visits != []
    requires var k := |visits| - 1;
      && Searching(x, visits[..k]) && VisitSoFar(x, Flat(visits[..k]), k, visits[k], i)
      && 0 <= VisitGroup(x.target, k, |x.m|) < |x.m| && (x.limit > 0 ==> |visits[k]| <= x.limit)
      && |Flat(visits[..k])| + |visits[k]| < x.size
      && (if |visits[k]| == x.limit > 0 then i == GapFrom(visits[k], |visits[k]|)
          else i == |x.m[VisitGroup(x.target, k, |x.m|)]|)
    ensures Searching(x, visits) && (visits + [[]])[..|visits|] == visits && Searching(x, (visits + [[]])[..|visits|])
    ensures VisitSoFar(x, Flat(visits), |visits|, [], 0)
  {
    hide VisitSoFar;
    SearchingJoins(x, visits);
    NewVisit(x, Flat(visits), |visits|);
    assert (visits + [[]])[..|visits|] == visits;
  }

  lemma NewVisit(x: Search, prior: seq<Slot>, k: int)
    requires |x.m| > 0
    ensures VisitSoFar(x, prior, k, [], 0)
  {
  }

  lemma SearchingJoins(x: Search, visits: seq<seq<Slot>>)
    requires |x.m| > 0 && visits != [] && Searching(x, visits[..|visits| - 1])
    requires VisitAt(x, visits, |visits| - 1, false)
    ensures Searching(x, visits)
  {
    hide VisitDone, Flat;
    var before := visits[..|visits| - 1];
    forall k | 0 <= k < |visits| ensures VisitAt(x, visits, k, false) {
      if k < |before| {
        assert VisitAt(x, before, k, false);
        assert before[..k] == visits[..k];
      }
    }
  }

  lemma SearchEnds(x: Search, visits: seq<seq<Slot>>)
    requires |x.m| > 0 && visits != []
    requires var k := |visits| - 1;
      && Searching(x, visits[..k]) && VisitSoFar(x, Flat(visits[..k]), k, visits[k], GapFrom(visits[k], |visits[k]|))
      && 0 <= VisitGroup(x.target, k, |x.m|) < |x.m| && (x.limit > 0 ==> |visits[k]| <= x.limit)
      && |Flat(visits[..k])| + |visits[k]| == x.size
    ensures Searched(x, visits)
  {
    hide VisitSoFar, Flat;
    var before := visits[..|visits| - 1];
    forall k | 0 <= k < |visits| ensures VisitAt(x, visits, k, true) {
      if k < |before| {
        assert VisitAt(x, before, k, false);
        assert before[..k] == visits[..k];
      }
    }
  }

  /** Each visit is to its group and keeps to the limit. */
  lemma VisitsInOrder(x: Search, visits: seq<seq<Slot>>)
    requires Searched(x, visits)
    ensures VisitsOk(visits, x.target, |x.m|, x.limit)
  {
    hide ChunkFree, Wanted, VisitGroup, GapTo, PassedAt;
    forall k | 0 <= k < |visits| ensures VisitOk(visits, k, x.target, |x.m|, x.limit) {
      assert VisitAt(x, visits, k, true);
      TakenInGroup(x, Flat(visits[..k]), k, visits[k], k == |visits| - 1);
    }
  }

  lemma TakenInGroup(x: Search, prior: seq<Slot>, k: int, v: seq<Slot>, last: bool)
    requires |x.m| > 0 && VisitDone(x, prior, k, v, last)
    ensures x.limit > 0 ==> |v| <= x.limit
    ensures forall j :: 0 <= j < |v| ==> v[j].group == VisitGroup(x.target, k, |x.m|)
  {
    hide ChunkFree, Wanted, VisitGroup, GapTo, PassedAt;
    var end := if last || |v| == x.limit > 0 then GapFrom(v, |v|) else |x.m[VisitGroup(x.target, k, |x.m|)]|;
    forall j | 0 <= j < |v| ensures v[j].group == VisitGroup(x.target, k, |x.m|) {
      assert TakenAt(x, prior, k, v, end, j);
    }
  }

  // ----- the search is determined

  lemma SameBlock(x: Search, prior: seq<Slot>, k: int, v: seq<Slot>, end: int, w: seq<Slot>, end': int, j: int)
    requires |x.m| > 0 && VisitSoFar(x, prior, k, v, end) && VisitSoFar(x, prior, k, w, end')
    requires 0 <= j < |v| && j < |w| && v[..j] == w[..j]
    ensures v[j] == w[j]
  {
    hide VisitGroup, Wanted, ChunkFree;
    assert j > 0 ==> v[..j][j - 1] == w[..j][j - 1];
    assert GapFrom(v, j) == GapFrom(w, j);
    assert TakenAt(x, prior, k, v, end, j) && TakenAt(x, prior, k, w, end', j);
    assert v[j].index < w[j].index ==> PassedAt(x, prior, k, j, v[j].index);
    assert w[j].index < v[j].index ==> PassedAt(x, prior, k, j, w[j].index);
  }

  lemma {:induction false} SameBlocks(
    x: Search, prior: seq<Slot>, k: int, v: seq<Slot>, end: int, w: seq<Slot>, end': int, j: int)
    requires |x.m| > 0 && VisitSoFar(x, prior, k, v, end) && VisitSoFar(x, prior, k, w, end')
    requires 0 <= j <= |v| && j <= |w|
    ensures v[..j] == w[..j]
  {
    hide VisitSoFar;
    if j > 0 {
      SameBlocks(x, prior, k, v, end, w, end', j - 1);
      SameBlock(x, prior, k, v, end, w, end', j - 1);
      assert v[..j] == v[..j - 1] + [v[j - 1]] && w[..j] == w[..j - 1] + [w[j - 1]];
    }
  }

  lemma NotShorter(x: Search, prior: seq<Slot>, k: int, v: seq<Slot>, last: bool, w: seq<Slot>, last': bool)
    requires |x.m| > 0 && x.contig >= 1
    requires VisitDone(x, prior, k, v, last) && VisitDone(x, prior, k, w, last')
    ensures |v| >= |w|
  {
    hide VisitGroup, VisitSoFar;
    var g := VisitGroup(x.target, k, |x.m|);
    var end := if last || |v| == x.limit > 0 then GapFrom(v, |v|) else |x.m[g]|;
    var end' := if last' || |w| == x.limit > 0 then GapFrom(w, |w|) else |x.m[g]|;
    if |v| < |w| {
      SameBlocks(x, prior, k, v, end, w, end', |v|);
      NextIsBeyond(x, prior, k, v, end, w, end');
    }
  }

  /** A visit that goes on where another has ended takes its next block beyond that end. */
  lemma NextIsBeyond(x: Search, prior: seq<Slot>, k: int, v: seq<Slot>, end: int, w: seq<Slot>, end': int)
    requires |x.m| > 0 && x.contig >= 1 && VisitSoFar(x, prior, k, v, end) && VisitSoFar(x, prior, k, w, end')
    requires |v| < |w| && v == w[..|v|] && 0 <= VisitGroup(x.target, k, |x.m|) < |x.m| && |prior| + |v| < x.size
    ensures end <= w[|v|].index < |x.m[VisitGroup(x.target, k, |x.m|)]|
  {
    hide VisitGroup, Wanted, ChunkFree;
    var j := |v|;
    assert TakenAt(x, prior, k, w, end', j);
    assert j > 0 ==> v[j - 1] == w[..j][j - 1];
    assert GapFrom(v, j) == GapFrom(w, j);
    WantedFits(x, prior, VisitGroup(x.target, k, |x.m|), w[j].index, k, |prior| + j);
    assert w[j].index < end ==> PassedAt(x, prior, k, j, w[j].index);
  }

  lemma WantedFits(x: Search, prior: seq<Slot>, g: int, i: int, k: int, taken: int)
    requires ChunkFree(x.m, prior, g, i, Wanted(x, k, taken)) && taken < x.size && x.contig >= 1
    ensures i < |x.m[g]|
  {
  }

  /** What is given fixes which blocks are taken, and in which order. */
  lemma {:induction false} OneSearch(x: Search, a: seq<seq<Slot>>, b: seq<seq<Slot>>, k: int)
    requires Searched(x, a) && Searched(x, b) && x.contig >= 1 && 0 <= k <= |a|
    ensures k <= |b| && a[..k] == b[..k]
    ensures k == |a| ==> a == b
  {
    hide VisitDone;
    if k > 0 {
      OneSearch(x, a, b, k - 1);
      if k <= |b| {
        assert VisitAt(x, a, k - 1, true) && VisitAt(x, b, k - 1, true);
        SameVisit(x, Flat(a[..k - 1]), k - 1, a[k - 1], k == |a|, b[k - 1], k == |b|);
        assert a[..k] == a[..k - 1] + [a[k - 1]] && b[..k] == b[..k - 1] + [b[k - 1]];
      } else {
        assert b == a[..k - 1];
        assert VisitAt(x, a, k - 2, true) && VisitAt(x, b, k - 2, true);
        assert a[..k - 1][..k - 2] == a[..k - 2] && b[..k - 2] == a[..k - 2];
        SameVisit(x, Flat(a[..k - 2]), k - 2, a[k - 2], k - 1 == |a|, b[k - 2], true);
      }
    }
  }

  lemma SameVisit(x: Search, prior: seq<Slot>, k: int, v: seq<Slot>, last: bool, w: seq<Slot>, last': bool)
    requires |x.m| > 0 && x.contig >= 1 && VisitDone(x, prior, k, v, last) && VisitDone(x, prior, k, w, last')
    ensures v == w && last == last'
  {
    hide VisitSoFar;
    NotShorter(x, prior, k, v, last, w, last');
    NotShorter(x, prior, k, w, last', v, last);
    var g := VisitGroup(x.target, k, |x.m|);
    SameBlocks(x, prior, k, v, if last || |v| == x.limit > 0 then GapFrom(v, |v|) else |x.m[g]|,
               w, if last' || |w| == x.limit > 0 then GapFrom(w, |w|) else |x.m[g]|, |v|);
  }

  // ----- one step of the search

  /** The visit in hand has come to index i. */
  ghost predicate AtIndex(x: Search, visits: seq<seq<Slot>>, i: int)
    requires |x.m| > 0
  {
    && visits != [] && Searching(x, visits[..|visits| - 1])
    && VisitSoFar(x, Flat(visits[..|visits| - 1]), |visits| - 1, visits[|visits| - 1], i)
    && GapFrom(visits[|visits| - 1], |visits[|visits| - 1]|) <= i
  }

  lemma AtStart(x: Search)
    requires |x.m| > 0
    ensures AtIndex(x, [[]], 0)
  {
    SearchStarts(x);
    var none: seq<seq<Slot>> := [[]];
    assert none[..0] == [];
  }

  lemma FlatParts(visits: seq<seq<Slot>>)
    requires visits != []
    ensures Flat(visits) == Flat(visits[..|visits| - 1]) + visits[|visits| - 1]
  {
  }

  /** Looking at index i: it is taken, or passed over, as the bitmap is. */
  lemma LookAt(x: Search, now: Bitmap, visits: seq<seq<Slot>>, i: int, c: int, owner: int)
    requires |x.m| > 0 && AtIndex(x, visits, i) && Took(x.m, now, Flat(visits), owner) && owner != FREE && 0 <= i
    requires c >= 0 && c == Wanted(x, |visits| - 1, |Flat(visits)|)
    requires 0 <= VisitGroup(x.target, |visits| - 1, |x.m|) < |x.m|
    ensures var k := |visits| - 1;
      var s := Slot(VisitGroup(x.target, k, |x.m|), i);
      if i + c <= |now[s.group]| && forall y :: i <= y < i + c ==> now[s.group][y] == FREE then
        && AtIndex(x, visits[k := visits[k] + [s]], i + 1)
        && GapFrom(visits[k] + [s], |visits[k]| + 1) == i + 1
      else AtIndex(x, visits, i + 1)
  {
    hide VisitGroup, Wanted, ChunkFree, VisitSoFar, Searching, Took, Flat;
    var k := |visits| - 1;
    var prior, v, s := Flat(visits[..k]), visits[k], Slot(VisitGroup(x.target, k, |x.m|), i);
    FlatParts(visits);
    FreeNow(x, now, prior, k, v, i, c, owner);
    if ChunkFree(x.m, prior, s.group, i, c) {
      TakeOne(x, prior, k, v, i, s);
      assert visits[k := v + [s]][..k] == visits[..k];
    } else {
      PassOne(x, prior, k, v, i);
    }
  }

  /** On to the next group. */
  lemma OnToNext(x: Search, visits: seq<seq<Slot>>, i: int)
    requires |x.m| > 0 && AtIndex(x, visits, i)
    requires var k := |visits| - 1;
      && 0 <= VisitGroup(x.target, k, |x.m|) < |x.m| && (x.limit > 0 ==> |visits[k]| <= x.limit)
      && |Flat(visits)| < x.size
      && (if |visits[k]| == x.limit > 0 then i == GapFrom(visits[k], |visits[k]|)
          else i == |x.m[VisitGroup(x.target, k, |x.m|)]|)
    ensures AtIndex(x, visits + [[]], 0)
  {
    hide VisitGroup, VisitSoFar, Searching, Flat;
    FlatParts(visits);
    VisitEnds(x, visits, i);
  }

  lemma Over(x: Search, visits: seq<seq<Slot>>, i: int)
    requires |x.m| > 0 && AtIndex(x, visits, i)
    requires var k := |visits| - 1;
      && 0 <= VisitGroup(x.target, k, |x.m|) < |x.m| && (x.limit > 0 ==> |visits[k]| <= x.limit)
      && |Flat(visits)| == x.size && i == GapFrom(visits[k], |visits[k]|)
    ensures Searched(x, visits)
  {
    hide VisitGroup, VisitSoFar, Searching, Flat;
    FlatParts(visits);
    SearchEnds(x, visits);
  }

  lemma OnlyAfterRound(target: int, k: int, n: int)
    requires n > 0 && 0 <= target < n && 0 < k < n
    ensures VisitGroup(target, k, n) != target
  {
    Quotient(target, n, 0, target);
    Apart(target, target + k, n);
  }

  lemma WantedIs(x: Search, k: int, taken: int, chunks: int)
    requires chunks == if k < |x.m| then x.contig else 1
    ensures Wanted(x, k, taken) == if x.size - taken < chunks then x.size - taken else chunks
  {
  }
}
